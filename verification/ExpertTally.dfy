/** What planning finds in the slots it relocks, and what the counters say of it: a slot that
    named a missed request was found empty, and one that kept its contents is a hit. */
module ExpertTally {
  import opened Collections
  import opened Seals
  import opened ExpertCache
  import opened HotSet
  import opened SafePoint
  import opened ExpertPlan

  // ----- The first pass, slot by slot ----------------------------------------------

  ghost predicate Requested(experts: seq<nat>, x: int) {
    exists j :: 0 <= j < |experts| && experts[j] == x
  }

  /** A slot that was not volatile is as it was. A volatile one is untouched, or was relocked
      and is a hit, or was relocked for a request, found empty and lost its identity. */
  ghost predicate TallyAt(cfg: Config, c: Cache, d: Cache, experts: seq<nat>, reserved: set<nat>, s: nat)
    requires Sized(cfg, c) && Sized(cfg, d) && s < cfg.slotCount
  {
    && (s !in reserved && d.expert[s] == c.expert[s] ==> d.lastUse[s] == c.lastUse[s])
    && if c.tracked[s] != Volatile then
      d.tracked[s] == c.tracked[s] && d.expert[s] == c.expert[s]
    else if d.tracked[s] == Volatile then
      d.expert[s] == c.expert[s] && s !in reserved
    else
      && d.tracked[s] == NonVolatile && c.expert[s] >= 0
      && (if s in reserved then d.expert[s] == c.expert[s]
          else d.expert[s] == FREE && Requested(experts, c.expert[s]))
  }

  /** Volatile slots that were relocked and kept their contents. */
  ghost function RetainedSlots(c: Cache, d: Cache): set<nat> {
    set s: nat | s < |c.tracked| && s < |d.tracked| && s < |d.expert|
                 && c.tracked[s] == Volatile && d.tracked[s] == NonVolatile && d.expert[s] >= 0
  }

  /** Volatile slots that were relocked and found empty. */
  ghost function EmptiedSlots(c: Cache, d: Cache): set<nat> {
    set s: nat | s < |c.tracked| && s < |d.tracked| && s < |d.expert|
                 && c.tracked[s] == Volatile && d.tracked[s] == NonVolatile && d.expert[s] < 0
  }

  ghost predicate Tally(cfg: Config, c: Cache, d: Cache, experts: seq<nat>, reserved: set<nat>) {
    && Sized(cfg, c) && Sized(cfg, d)
    && (forall s: nat :: s < cfg.slotCount ==> TallyAt(cfg, c, d, experts, reserved, s))
    && (forall x: nat :: x < |c.useCount| && !Requested(experts, x) ==> d.useCount[x] == c.useCount[x])
    && d.stats == AfterBoundary(cfg, c.stats, 0, |RetainedSlots(c, d)|, |EmptiedSlots(c, d)|)
  }

  lemma TallyStarts(cfg: Config, c: Cache, experts: seq<nat>)
    requires Sized(cfg, c)
    ensures Tally(cfg, c, c, experts, {})
  {
    assert RetainedSlots(c, c) == {} && EmptiedSlots(c, c) == {};
  }

  lemma TallyTouches(cfg: Config, c: Cache, d: Cache, experts: seq<nat>, reserved: set<nat>, e: Cache)
    requires Tally(cfg, c, d, experts, reserved)
    requires Sized(cfg, e) && e.expert == d.expert && e.tracked == d.tracked && e.stats == d.stats
    requires forall s: nat :: s < cfg.slotCount && s !in reserved ==> e.lastUse[s] == d.lastUse[s]
    requires forall x: nat :: x < |c.useCount| && !Requested(experts, x) ==> e.useCount[x] == d.useCount[x]
    ensures Tally(cfg, c, e, experts, reserved)
  {
    assert RetainedSlots(c, e) == RetainedSlots(c, d) && EmptiedSlots(c, e) == EmptiedSlots(c, d);
    forall s: nat | s < cfg.slotCount ensures TallyAt(cfg, c, e, experts, reserved, s) {
      assert TallyAt(cfg, c, d, experts, reserved, s);
    }
  }

  lemma OthersStay(cfg: Config, d: Cache, s: nat, e: Cache, valid: bool)
    requires RelockStep(cfg, d, s, e, valid)
    ensures forall t: nat :: t < cfg.slotCount && t != s ==>
              e.tracked[t] == d.tracked[t] && e.expert[t] == d.expert[t] && e.lastUse[t] == d.lastUse[t]
  {
    forall t: nat | t < cfg.slotCount && t != s
      ensures e.tracked[t] == d.tracked[t] && e.expert[t] == d.expert[t] && e.lastUse[t] == d.lastUse[t]
    {
      assert OsOnlyAt(cfg, d, e, t);
    }
  }

  /** A relock of an unreserved slot that names a request. */
  lemma TallyRelocks(
    cfg: Config, c: Cache, d: Cache, experts: seq<nat>, reserved: set<nat>, s: nat, e: Cache, valid: bool)
    requires Tally(cfg, c, d, experts, reserved) && RelockStep(cfg, d, s, e, valid) && Coupled(cfg, d)
    requires s !in reserved && d.expert[s] >= 0 && Requested(experts, d.expert[s])
    ensures Tally(cfg, c, e, experts, if valid then reserved + {s} else reserved)
  {
    var reserved' := if valid then reserved + {s} else reserved;
    OthersStay(cfg, d, s, e, valid);
    assert CoupledSlot(cfg, d, s) && TallyAt(cfg, c, d, experts, reserved, s);
    forall t: nat | t < cfg.slotCount ensures TallyAt(cfg, c, e, experts, reserved', t) {
      assert TallyAt(cfg, c, d, experts, reserved, t);
    }
    RelockCount(cfg, c, d, s, e, valid);
  }

  lemma RetainedMore(c: Cache, d: Cache, s: nat, e: Cache)
    requires |d.tracked| == |d.expert| == |e.tracked| == |e.expert| == |c.tracked| && s < |c.tracked|
    requires forall t: nat :: t < |c.tracked| && t != s ==> e.tracked[t] == d.tracked[t] && e.expert[t] == d.expert[t]
    requires c.tracked[s] == Volatile == d.tracked[s] && e.tracked[s] == NonVolatile
    ensures |RetainedSlots(c, e)| == |RetainedSlots(c, d)| + (if e.expert[s] >= 0 then 1 else 0)
    ensures |EmptiedSlots(c, e)| == |EmptiedSlots(c, d)| + (if e.expert[s] >= 0 then 0 else 1)
  {
    var stays := e.expert[s] >= 0;
    forall t: nat
      ensures t in RetainedSlots(c, e) <==> t in RetainedSlots(c, d) || (stays && t == s)
      ensures t in EmptiedSlots(c, e) <==> t in EmptiedSlots(c, d) || (!stays && t == s)
    {
    }
    assert RetainedSlots(c, e) == RetainedSlots(c, d) + if stays then {s} else {};
    assert EmptiedSlots(c, e) == EmptiedSlots(c, d) + if stays then {} else {s};
  }

  lemma RetainedSame(c: Cache, d: Cache, e: Cache)
    requires d.tracked == e.tracked && d.expert == e.expert
    ensures RetainedSlots(c, e) == RetainedSlots(c, d) && EmptiedSlots(c, e) == EmptiedSlots(c, d)
  {
  }

  lemma RelockCount(cfg: Config, c: Cache, d: Cache, s: nat, e: Cache, valid: bool)
    requires Sized(cfg, c) && RelockStep(cfg, d, s, e, valid) && d.expert[s] >= 0
    requires c.tracked[s] == Volatile <==> d.tracked[s] == Volatile
    requires d.tracked[s] != Empty
    requires d.stats == AfterBoundary(cfg, c.stats, 0, |RetainedSlots(c, d)|, |EmptiedSlots(c, d)|)
    ensures e.stats == AfterBoundary(cfg, c.stats, 0, |RetainedSlots(c, e)|, |EmptiedSlots(c, e)|)
  {
    OthersStay(cfg, d, s, e, valid);
    if d.tracked[s] == NonVolatile {
      assert OsOnlyAt(cfg, d, e, s);
      assert e.tracked == d.tracked && e.expert == d.expert;
      RetainedSame(c, d, e);
    } else {
      RetainedMore(c, d, s, e);
    }
  }

  lemma TallyLocksOnlyHits(cfg: Config, c: Cache, d: Cache, experts: seq<nat>, reserved: set<nat>)
    requires Tally(cfg, c, d, experts, reserved)
    ensures OnlyHitsLocked(cfg, c, d, reserved)
  {
    forall s: nat | s < cfg.slotCount && s !in reserved && c.tracked[s] != NonVolatile
      ensures d.tracked[s] != NonVolatile || d.expert[s] == FREE
    {
      assert TallyAt(cfg, c, d, experts, reserved, s);
    }
  }

  // ----- Only the system empties slots -----------------------------------------------

  /** `after` goes on from `before` with reclaims, relocks and recency updates only. */
  ghost predicate Looked(before: seq<Event>, after: seq<Event>) {
    && before <= after
    && forall i :: |before| <= i < |after| ==> after[i].Reclaim? || after[i].Relock? || after[i].Touch?
  }

  ghost predicate Reclaimed(es: seq<Event>, s: nat) {
    exists i :: 0 <= i < |es| && es[i].Reclaim? && es[i].slot == s
  }

  lemma {:induction false} RunPrefix(cfg: Config, c0: Cache, es: seq<Event>, n: nat)
    requires Sized(cfg, c0) && LegalRun(cfg, c0, es) && n <= |es|
    ensures LegalRun(cfg, c0, es[..n])
    decreases |es|
  {
    if n == |es| {
      assert es[..n] == es;
    } else {
      RunPrefix(cfg, c0, es[..|es| - 1], n);
      assert es[..|es| - 1][..n] == es[..n];
    }
  }

  lemma OneLook(cfg: Config, c: Cache, e: Event, s: nat)
    requires Sized(cfg, c) && Legal(cfg, c, e) && s < cfg.slotCount
    requires (e.Reclaim? && e.slot != s) || e.Relock? || e.Touch?
    ensures
      var d := Apply(cfg, c, e);
      c.phys[s] != Empty && c.tracked[s] != Empty ==>
        d.phys[s] != Empty && d.tracked[s] != Empty && d.expert[s] == c.expert[s]
  {
  }

  /** A slot that is not empty and is not reclaimed is not empty after any relocks. */
  lemma {:induction false} LookingEmptiesNothing(cfg: Config, c0: Cache, before: seq<Event>, after: seq<Event>, s: nat)
    requires Fresh(cfg, c0) && LegalRun(cfg, c0, after) && Looked(before, after) && s < cfg.slotCount
    requires !Reclaimed(after[|before|..], s)
    ensures LegalRun(cfg, c0, before)
    ensures Run(cfg, c0, before).phys[s] != Empty && Run(cfg, c0, before).tracked[s] != Empty ==>
              && Run(cfg, c0, after).phys[s] != Empty && Run(cfg, c0, after).tracked[s] != Empty
              && Run(cfg, c0, after).expert[s] == Run(cfg, c0, before).expert[s]
    decreases |after|
  {
    RunPrefix(cfg, c0, after, |before|);
    assert after[..|before|] == before;
    if |after| > |before| {
      var n := |after| - 1;
      var e := after[n];
      assert after[..n][|before|..] == after[|before|..][..n - |before|];
      assert after[|before|..][n - |before|] == e;
      LookingEmptiesNothing(cfg, c0, before, after[..n], s);
      OneLook(cfg, Run(cfg, c0, after[..n]), e, s);
    } else {
      assert after == before;
    }
  }

  /** The same of states that the class has reached. */
  lemma LookedAndReached(
    cfg: Config, c0: Cache, before: seq<Event>, c: Cache, after: seq<Event>, d: Cache,
    apart: bool, purged: bool, s: nat)
    requires Reached(cfg, c0, before, c, apart, purged) && Reached(cfg, c0, after, d, apart, purged)
    requires Looked(before, after)
    requires s in EmptiedSlots(c, d) && c.expert[s] >= 0
    ensures c.phys[s] == Empty || Reclaimed(after[|before|..], s)
  {
    UnsealRun(cfg, c0, before, c, apart, purged);
    UnsealRun(cfg, c0, after, d, apart, purged);
    if !Reclaimed(after[|before|..], s) {
      LookingEmptiesNothing(cfg, c0, before, after, s);
    }
  }

  // ----- The finished plan ----------------------------------------------------------

  /** The contents of slot s were gone, or the system took them while es happened. */
  ghost predicate Gone(c: Cache, es: seq<Event>, s: nat)
    requires s < |c.phys|
  {
    c.phys[s] == Empty || Reclaimed(es, s)
  }

  lemma StillGone(c: Cache, before: seq<Event>, after: seq<Event>, later: seq<Event>, s: nat)
    requires before <= after <= later && s < |c.phys| && Gone(c, after[|before|..], s)
    ensures Gone(c, later[|before|..], s)
  {
    if i :| 0 <= i < |after[|before|..]| && after[|before|..][i].Reclaim? && after[|before|..][i].slot == s {
      assert later[|before|..][i] == after[|before|..][i];
    }
  }

  ghost predicate IsHitSlot(p: Plan, s: nat) {
    exists j :: 0 <= j < |p.slots| && j !in p.misses && p.slots[j] == s
  }

  /** What planning found, es being what happened meanwhile: only slots whose contents were gone
      lost their identity, and only requested ones; every other slot that named a missed
      request is a hit; volatile slots that kept theirs are hits; every other slot has the lock and
      the stamp it had and, unless it is for a miss, its identity; experts that were not requested
      have their counts; and the counters say so. */
  ghost predicate Found(cfg: Config, c: Cache, es: seq<Event>, d: Cache, p: Plan) {
    && Sized(cfg, c) && Sized(cfg, d) && |p.slots| == |p.experts|
    && (forall s :: s in EmptiedSlots(c, d) ==> Gone(c, es, s) && Requested(p.experts, c.expert[s]))
    && (forall s :: s in RetainedSlots(c, d) ==> IsHitSlot(p, s))
    && (forall j, s: nat :: j in p.misses && j < |p.experts| && s < cfg.slotCount && c.expert[s] == p.experts[j] ==>
          IsHitSlot(p, s) || s in EmptiedSlots(c, d))
    && (forall s: nat :: s < cfg.slotCount && !IsHitSlot(p, s) && s !in EmptiedSlots(c, d) ==>
          && d.tracked[s] == c.tracked[s] && d.lastUse[s] == c.lastUse[s]
          && (d.expert[s] == c.expert[s] || s in p.slots))
    && (forall x: nat :: x < |c.useCount| && !Requested(p.experts, x) ==> d.useCount[x] == c.useCount[x])
    && d.stats == AfterBoundary(cfg, c.stats, 0, |RetainedSlots(c, d)|, |EmptiedSlots(c, d)|)
  }

  lemma TallyOutlivesVictims(
    cfg: Config, c: Cache, d: Cache, hits: seq<int>, hitSlots: set<nat>, p: Plan, reserved: set<nat>, e: Cache)
    requires Tally(cfg, c, d, p.experts, hitSlots)
    requires forall s: nat :: s in hitSlots <==> s in hits
    requires VictimPass(cfg, d, hits, p.experts, |p.experts|, p.slots, reserved, p.misses, e)
    ensures RetainedSlots(c, e) == RetainedSlots(c, d) <= hitSlots && EmptiedSlots(c, e) == EmptiedSlots(c, d)
  {
    forall s: nat | s < cfg.slotCount && c.tracked[s] == Volatile && d.tracked[s] == NonVolatile
      ensures (d.expert[s] >= 0 <==> e.expert[s] >= 0) && (d.expert[s] >= 0 ==> s in hitSlots)
    {
      assert TallyAt(cfg, c, d, p.experts, hitSlots, s);
    }
  }

  lemma HitSlotIsHit(
    cfg: Config, d: Cache, hits: seq<int>, p: Plan, reserved: set<nat>, e: Cache, s: nat)
    requires VictimPass(cfg, d, hits, p.experts, |p.experts|, p.slots, reserved, p.misses, e) && s in hits
    ensures IsHitSlot(p, s)
  {
    var i :| 0 <= i < |hits| && hits[i] == s;
    assert p.slots[i] == s && i !in p.misses;
  }

  lemma OthersAreAsBefore(
    cfg: Config, c: Cache, d: Cache, hits: seq<int>, hitSlots: set<nat>, p: Plan, reserved: set<nat>, e: Cache)
    requires Tally(cfg, c, d, p.experts, hitSlots)
    requires VictimPass(cfg, d, hits, p.experts, |p.experts|, p.slots, reserved, p.misses, e)
    requires EmptiedSlots(c, e) == EmptiedSlots(c, d)
    ensures forall s: nat :: s < cfg.slotCount && s !in hitSlots && s !in EmptiedSlots(c, e) ==>
              && e.tracked[s] == c.tracked[s] && e.lastUse[s] == c.lastUse[s]
              && (e.expert[s] == c.expert[s] || s in p.slots)
  {
    forall s: nat | s < cfg.slotCount && s !in hitSlots && s !in EmptiedSlots(c, d)
      ensures e.tracked[s] == c.tracked[s] && e.lastUse[s] == c.lastUse[s]
      ensures e.expert[s] == c.expert[s] || s in p.slots
    {
      assert TallyAt(cfg, c, d, p.experts, hitSlots, s);
    }
  }

  /** The hit pass and the victim pass together. */
  lemma PlanFinds(
    cfg: Config, c: Cache, es: seq<Event>, d: Cache, hits: seq<int>, hitSlots: set<nat>, p: Plan,
    reserved: set<nat>, e: Cache)
    requires HitPass(cfg, c, d, p.experts, |p.experts|, hits, hitSlots) && Tally(cfg, c, d, p.experts, hitSlots)
    requires VictimPass(cfg, d, hits, p.experts, |p.experts|, p.slots, reserved, p.misses, e)
    requires forall s :: s in EmptiedSlots(c, d) ==> Gone(c, es, s)
    ensures Found(cfg, c, es, e, p)
  {
    forall s: nat | s in hits ensures s in hitSlots {
      var i :| 0 <= i < |hits| && hits[i] == s;
    }
    TallyOutlivesVictims(cfg, c, d, hits, hitSlots, p, reserved, e);
    forall s | s in EmptiedSlots(c, d) ensures Requested(p.experts, c.expert[s]) {
      assert TallyAt(cfg, c, d, p.experts, hitSlots, s);
    }
    forall s | s in hitSlots ensures IsHitSlot(p, s) {
      HitSlotIsHit(cfg, d, hits, p, reserved, e, s);
    }
    OthersAreAsBefore(cfg, c, d, hits, hitSlots, p, reserved, e);
    forall j, s: nat | j in p.misses && j < |p.experts| && s < cfg.slotCount && c.expert[s] == p.experts[j]
      ensures IsHitSlot(p, s) || s in EmptiedSlots(c, d)
    {
      if s !in hitSlots {
        assert hits[j] == FREE && d.expert[s] != p.experts[j];
        assert TallyAt(cfg, c, d, p.experts, hitSlots, s);
      }
    }
  }

  // ----- What follows ---------------------------------------------------------------

  /** Slots that named a request which became a miss. */
  ghost function NamedMisses(c: Cache, p: Plan): set<nat>
    requires Indices(p.misses, |p.experts|)
  {
    set s: nat | s < |c.expert| && exists k :: 0 <= k < |p.misses| && c.expert[s] == p.experts[p.misses[k]]
  }

  ghost function VolatileHits(c: Cache, p: Plan): set<nat> {
    set s: nat | s < |c.tracked| && c.tracked[s] == Volatile && IsHitSlot(p, s)
  }

  lemma HitNamesNoMiss(cfg: Config, c: Cache, d: Cache, p: Plan, s: nat, j: nat)
    requires Planned(cfg, c, d, p) && Distinct(p.experts) && s < cfg.slotCount && j in p.misses
    ensures IsHitSlot(p, s) ==> c.expert[s] != p.experts[j]
  {
  }

  lemma HitIsTheOnlyCopy(cfg: Config, c: Cache, d: Cache, p: Plan, s: nat, j: nat)
    requires Planned(cfg, c, d, p) && Unique(c) && s < cfg.slotCount && j < |p.slots|
    ensures j !in p.misses && c.expert[s] == p.experts[j] ==> Holds(d, s, p.experts[j])
  {
    if j !in p.misses && c.expert[s] == p.experts[j] {
      assert Holds(d, p.slots[j], p.experts[j]) && c.expert[p.slots[j]] == c.expert[s];
    }
  }

  /** With distinct requests, the slots that named a missed expert were all volatile and were
      all found empty; with distinct identities no other slot was. So the recoveries counted
      are these, and the retained relocks are the hits that were volatile before. */
  lemma MissesWereFoundEmpty(cfg: Config, c: Cache, es: seq<Event>, d: Cache, p: Plan)
    requires Planned(cfg, c, d, p) && Found(cfg, c, es, d, p) && Distinct(p.experts)
    ensures NamedMisses(c, p) <= EmptiedSlots(c, d)
    ensures forall s :: s in NamedMisses(c, p) ==> c.tracked[s] == Volatile && Gone(c, es, s)
    ensures Unique(c) ==> NamedMisses(c, p) == EmptiedSlots(c, d)
    ensures Unique(c) ==> d.stats.emptyRecoveries == c.stats.emptyRecoveries + |NamedMisses(c, p)|
    ensures d.stats.retained == c.stats.retained + |VolatileHits(c, p)|
  {
    forall s | s in NamedMisses(c, p) ensures s in EmptiedSlots(c, d) {
      var k :| 0 <= k < |p.misses| && c.expert[s] == p.experts[p.misses[k]];
      HitNamesNoMiss(cfg, c, d, p, s, p.misses[k]);
    }
    if Unique(c) {
      forall s | s in EmptiedSlots(c, d) ensures s in NamedMisses(c, p) {
        EmptiedIsMissed(cfg, c, es, d, p, s);
      }
    }
    forall s: nat | s < cfg.slotCount && c.tracked[s] == Volatile && IsHitSlot(p, s) ensures s in RetainedSlots(c, d) {
      var j :| 0 <= j < |p.slots| && j !in p.misses && p.slots[j] == s;
      assert Holds(d, p.slots[j], p.experts[j]);
    }
    assert RetainedSlots(c, d) == VolatileHits(c, p);
  }

  lemma EmptiedIsMissed(cfg: Config, c: Cache, es: seq<Event>, d: Cache, p: Plan, s: nat)
    requires Planned(cfg, c, d, p) && Found(cfg, c, es, d, p) && Unique(c) && s in EmptiedSlots(c, d)
    ensures s in NamedMisses(c, p)
  {
    var j :| 0 <= j < |p.experts| && p.experts[j] == c.expert[s];
    HitIsTheOnlyCopy(cfg, c, d, p, s, j);
    assert j in p.misses;
    var k :| 0 <= k < |p.misses| && p.misses[k] == j;
  }

  /** If nothing was gone and nothing was taken, every published request is a hit. */
  lemma NothingTakenNothingMissed(cfg: Config, c: Cache, es: seq<Event>, d: Cache, p: Plan)
    requires Planned(cfg, c, d, p) && Found(cfg, c, es, d, p) && Distinct(p.experts)
    requires forall s: nat :: s < cfg.slotCount ==> c.tracked[s] == Volatile ==> c.phys[s] != Empty
    requires forall i :: 0 <= i < |es| ==> !es[i].Reclaim?
    ensures forall j, s: nat :: 0 <= j < |p.experts| && s < cfg.slotCount && c.expert[s] == p.experts[j] ==>
              j !in p.misses
    ensures d.stats.emptyRecoveries == c.stats.emptyRecoveries
  {
    MissesWereFoundEmpty(cfg, c, es, d, p);
    forall s: nat | s < cfg.slotCount && c.tracked[s] == Volatile ensures !Gone(c, es, s) {
    }
    assert EmptiedSlots(c, d) == {};
    forall j, s: nat | 0 <= j < |p.experts| && s < cfg.slotCount && c.expert[s] == p.experts[j]
      ensures j !in p.misses
    {
      assert s !in NamedMisses(c, p);
    }
  }

  // ----- One request ----------------------------------------------------------------

  ghost predicate PlannedAndLoaded(
    cfg: Config, c: Cache, es: seq<Event>, p: Plan, planned: Cache, loaded: Cache)
  {
    Planned(cfg, c, planned, p) && Found(cfg, c, es, planned, p) && Executed(cfg, planned, p, loaded)
  }

  ghost predicate CanLoad(cfg: Config, c: Cache, p: Plan, loaded: Cache) {
    exists es, planned :: PlannedAndLoaded(cfg, c, es, p, planned, loaded)
  }

  /** Where a load with plan p can lead: the plan was made, finding what it found, and executed. */
  ghost function LoadedFrom(cfg: Config, c: Cache, p: Plan): iset<Cache> {
    iset loaded | forall key {:trigger PartUnsealed(key)} :: PartUnsealed(key) ==> CanLoad(cfg, c, p, loaded)
  }

  lemma IsLoaded(cfg: Config, c: Cache, es: seq<Event>, p: Plan, planned: Cache, loaded: Cache)
    requires Planned(cfg, c, planned, p) && Found(cfg, c, es, planned, p) && Executed(cfg, planned, p, loaded)
    ensures loaded in LoadedFrom(cfg, c, p)
  {
    assert PlannedAndLoaded(cfg, c, es, p, planned, loaded);
  }

  ghost predicate LoadedAndRead(cfg: Config, c: Cache, p: Plan, loaded: Cache, d: Cache) {
    loaded in LoadedFrom(cfg, c, p) && OsOnly(cfg, loaded, d)
  }

  ghost predicate CanServe(cfg: Config, c: Cache, experts: seq<nat>, d: Cache) {
    exists p: Plan, loaded :: p.experts == experts && LoadedAndRead(cfg, c, p, loaded, d)
  }

  /** Where serving one request can lead: a load with some plan for it, and its command's reads. */
  ghost function ServedFrom(cfg: Config, c: Cache, experts: seq<nat>): iset<Cache> {
    iset d | forall key {:trigger PartUnsealed(key)} :: PartUnsealed(key) ==> CanServe(cfg, c, experts, d)
  }

  lemma IsServed(cfg: Config, c: Cache, p: Plan, loaded: Cache, d: Cache)
    requires loaded in LoadedFrom(cfg, c, p) && OsOnly(cfg, loaded, d)
    ensures d in ServedFrom(cfg, c, p.experts)
  {
    assert LoadedAndRead(cfg, c, p, loaded, d);
  }
}
