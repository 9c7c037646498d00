/** What one plan of a set of requested experts must look like, and the steps of the two
    passes that build it: hits first, each behind a relock, then a victim for every miss. */
module ExpertPlan {
  import opened Collections
  import opened Seals
  import opened ExpertCache
  import opened HotSet
  import opened SafePoint

  /** slots[i] is where experts[i] is, or where it will be once the misses are read. */
  datatype Plan = Plan(experts: seq<nat>, slots: seq<int>, misses: seq<nat>)

  /** Slot s names expert x and is locked. */
  ghost predicate Holds(c: Cache, s: int, x: nat) {
    0 <= s < |c.expert| == |c.tracked| && c.expert[s] == x && c.tracked[s] == NonVolatile
  }

  /** What a slot holds, it holds through any relock and whatever the OS does. */
  lemma HoldsThroughRelock(cfg: Config, c: Cache, s: nat, d: Cache, valid: bool, bound: map<int, nat>)
    requires RelockStep(cfg, c, s, d, valid) && Coupled(cfg, c)
    requires forall t :: t in bound ==> Holds(c, t, bound[t])
    ensures forall t :: t in bound ==> Holds(d, t, bound[t])
  {
    forall t | t in bound ensures Holds(d, t, bound[t]) {
      assert Holds(c, t, bound[t]);
      if t != s { assert OsOnlyAt(cfg, c, d, t); }
    }
  }

  // ----- First pass: hits ----------------------------------------------------------

  /** The first n requests have been looked up; FREE marks a miss. */
  ghost predicate HitPass(
    cfg: Config, c: Cache, d: Cache, experts: seq<nat>, n: nat, slots: seq<int>, reserved: set<nat>)
  {
    && Sized(cfg, c) && Sized(cfg, d) && |slots| == |experts| && n <= |experts|
    && (forall j :: 0 <= j < |slots| && slots[j] != FREE ==>
          j < n && slots[j] in reserved && Holds(d, slots[j], experts[j]) && c.expert[slots[j]] == experts[j])
    && (forall i, j :: 0 <= i < j < |slots| && slots[i] != FREE ==> slots[i] != slots[j])
    && (forall s :: s in reserved ==> s < cfg.slotCount && s in slots)
    && |reserved| + multiset(slots)[FREE] == |experts|
    && (forall j, s: nat :: 0 <= j < n && slots[j] == FREE && s < cfg.slotCount && d.expert[s] == experts[j]
          ==> s in reserved)
    && Weakened(cfg, c, d)
  }

  /** Only identities of volatile slots were lost, and slots were only locked. */
  ghost predicate Weakened(cfg: Config, c: Cache, d: Cache)
    requires Sized(cfg, c) && Sized(cfg, d)
  {
    forall s: nat :: s < cfg.slotCount ==> WeakenedAt(cfg, c, d, s)
  }

  ghost predicate WeakenedAt(cfg: Config, c: Cache, d: Cache, s: nat)
    requires Sized(cfg, c) && Sized(cfg, d) && s < cfg.slotCount
  {
    && (d.expert[s] == c.expert[s] || (d.expert[s] == FREE && c.tracked[s] == Volatile))
    && (d.tracked[s] == c.tracked[s] || d.tracked[s] == NonVolatile)
  }

  /** Of the slots that were not locked, only hits are now, and slots without identity. */
  ghost predicate OnlyHitsLocked(cfg: Config, c: Cache, d: Cache, reserved: set<nat>) {
    && Sized(cfg, c) && Sized(cfg, d)
    && forall s: nat :: s < cfg.slotCount && s !in reserved && c.tracked[s] != NonVolatile ==>
         d.tracked[s] != NonVolatile || d.expert[s] == FREE
  }

  lemma HitsStart(cfg: Config, c: Cache, experts: seq<nat>, slots: seq<int>)
    requires Sized(cfg, c) && |slots| == |experts| && forall j :: 0 <= j < |slots| ==> slots[j] == FREE
    ensures HitPass(cfg, c, c, experts, 0, slots, {})
  {
    AllFree(slots);
  }

  lemma {:induction false} AllFree(slots: seq<int>)
    requires forall j :: 0 <= j < |slots| ==> slots[j] == FREE
    ensures multiset(slots)[FREE] == |slots|
  {
    if slots != [] {
      AllFree(slots[1..]);
      assert slots == [slots[0]] + slots[1..];
    }
  }

  /** A relock on an unreserved slot keeps everything the pass has established. */
  lemma HitsSurviveRelock(
    cfg: Config, c: Cache, d: Cache, experts: seq<nat>, n: nat, slots: seq<int>, reserved: set<nat>,
    s: nat, e: Cache, valid: bool)
    requires HitPass(cfg, c, d, experts, n, slots, reserved)
    requires Coupled(cfg, d) && RelockStep(cfg, d, s, e, valid)
    ensures HitPass(cfg, c, e, experts, n, slots, reserved)
    ensures forall t: nat :: t < cfg.slotCount ==> e.expert[t] == d.expert[t] || e.expert[t] == FREE
  {
    assert CoupledSlot(cfg, d, s);
    forall t: nat | t < cfg.slotCount
      ensures WeakenedAt(cfg, c, e, t)
      ensures e.expert[t] == d.expert[t] || (e.expert[t] == FREE && d.tracked[t] != NonVolatile)
      ensures d.tracked[t] == NonVolatile ==> e.tracked[t] == NonVolatile && e.expert[t] == d.expert[t]
    {
      assert WeakenedAt(cfg, c, d, t);
      if t != s { assert OsOnlyAt(cfg, d, e, t); }
    }
    forall j | 0 <= j < |slots| && slots[j] != FREE ensures Holds(e, slots[j], experts[j]) {
      assert Holds(d, slots[j], experts[j]);
    }
  }

  lemma AssignOne(slots: seq<int>, n: nat, v: nat)
    requires n < |slots| && slots[n] == FREE
    ensures multiset(slots[n := v])[FREE] == multiset(slots)[FREE] - 1
    ensures forall t :: t in slots && t != FREE ==> t in slots[n := v]
    ensures v in slots[n := v]
  {
    var slots' := slots[n := v];
    assert multiset(slots') == multiset(slots) - multiset{FREE} + multiset{v};
    assert FREE in multiset(slots);
    assert slots'[n] == v;
    forall t | t in slots && t != FREE ensures t in slots' {
      var j :| 0 <= j < |slots| && slots[j] == t;
      assert slots'[j] == t;
    }
  }

  /** A relocked slot that names the request, and still holds its bytes, becomes its hit. */
  lemma HitsGainHit(
    cfg: Config, c: Cache, d: Cache, experts: seq<nat>, n: nat, slots: seq<int>, reserved: set<nat>, s: nat)
    requires HitPass(cfg, c, d, experts, n, slots, reserved)
    requires n < |experts| && s < cfg.slotCount && s !in reserved && Holds(d, s, experts[n])
    ensures HitPass(cfg, c, d, experts, n + 1, slots[n := s], reserved + {s})
  {
    assert c.expert[s] == experts[n] by { assert WeakenedAt(cfg, c, d, s); }
    assert s !in slots;
    AssignOne(slots, n, s);
  }

  /** No unreserved slot below n names expert x. */
  ghost predicate Searched(cfg: Config, d: Cache, x: nat, reserved: set<nat>, n: nat) {
    && Sized(cfg, d) && n <= cfg.slotCount
    && forall s: nat :: s < n && s !in reserved ==> d.expert[s] != x
  }

  /** No unreserved slot names the request: it stays a miss. */
  lemma HitsGainMiss(
    cfg: Config, c: Cache, d: Cache, experts: seq<nat>, n: nat, slots: seq<int>, reserved: set<nat>)
    requires HitPass(cfg, c, d, experts, n, slots, reserved) && n < |experts|
    requires Searched(cfg, d, experts[n], reserved, cfg.slotCount)
    ensures HitPass(cfg, c, d, experts, n + 1, slots, reserved)
  {
  }

  /** A recency or use-count update does not matter to the pass. */
  lemma HitsSurviveTouch(
    cfg: Config, c: Cache, d: Cache, experts: seq<nat>, n: nat, slots: seq<int>, reserved: set<nat>, e: Cache)
    requires HitPass(cfg, c, d, experts, n, slots, reserved)
    requires Sized(cfg, e) && e.expert == d.expert && e.tracked == d.tracked
    ensures HitPass(cfg, c, e, experts, n, slots, reserved)
  {
    forall s: nat | s < cfg.slotCount ensures WeakenedAt(cfg, c, e, s) {
      assert WeakenedAt(cfg, c, d, s);
    }
    forall j | 0 <= j < |slots| && slots[j] != FREE ensures Holds(e, slots[j], experts[j]) {
      assert Holds(d, slots[j], experts[j]);
    }
  }

  // ----- Second pass: victims ------------------------------------------------------

  ghost predicate Indices(misses: seq<nat>, n: nat) {
    && (forall k :: 0 <= k < |misses| ==> misses[k] < n)
    && (forall k, l :: 0 <= k < l < |misses| ==> misses[k] < misses[l])
  }

  /** The first n requests have a slot; d is the cache after the hit pass, e the cache now. */
  ghost predicate VictimPass(
    cfg: Config, d: Cache, hits: seq<int>, experts: seq<nat>, n: nat,
    slots: seq<int>, reserved: set<nat>, misses: seq<nat>, e: Cache)
  {
    && Sized(cfg, d) && Sized(cfg, e) && |slots| == |experts| == |hits| && n <= |experts|
    && Indices(misses, n)
    && (forall j :: 0 <= j < |slots| ==> slots[j] == FREE || (0 <= slots[j] < cfg.slotCount && slots[j] in reserved))
    && (forall j :: 0 <= j < n ==> slots[j] != FREE)
    && (forall j :: 0 <= j < |slots| && hits[j] != FREE ==> slots[j] == hits[j])
    && (forall j :: n <= j < |slots| ==> slots[j] == hits[j])
    && (forall j :: 0 <= j < n ==> (j in misses <==> hits[j] == FREE))
    && (forall i, j :: 0 <= i < j < |slots| && slots[i] != FREE ==> slots[i] != slots[j])
    && |reserved| + multiset(slots)[FREE] == |experts|
    && e.tracked == d.tracked && e.lastUse == d.lastUse && e.useCount == d.useCount && e.stats == d.stats
    && (forall s: nat :: s < cfg.slotCount ==>
          e.expert[s] == d.expert[s] || (e.expert[s] == FREE && s !in hits && s in slots))
  }

  lemma VictimsGain(
    cfg: Config, d: Cache, hits: seq<int>, experts: seq<nat>, n: nat,
    slots: seq<int>, reserved: set<nat>, misses: seq<nat>, e: Cache, v: nat)
    requires VictimPass(cfg, d, hits, experts, n, slots, reserved, misses, e)
    requires n < |experts| && slots[n] == FREE && v < cfg.slotCount && v !in reserved
    ensures VictimPass(cfg, d, hits, experts, n + 1, slots[n := v], reserved + {v}, misses + [n], e)
    ensures v !in hits && v in slots[n := v]
  {
    var slots' := slots[n := v];
    assert forall j :: 0 <= j < |slots| ==> slots[j] != v;
    assert forall j :: 0 <= j < |hits| ==> hits[j] != v;
    AssignOne(slots, n, v);
    var misses' := misses + [n];
    assert forall j :: j in misses' <==> j in misses || j == n;
  }

  lemma VictimsStart(
    cfg: Config, c: Cache, d: Cache, experts: seq<nat>, hits: seq<int>, reserved: set<nat>)
    requires HitPass(cfg, c, d, experts, |experts|, hits, reserved)
    ensures VictimPass(cfg, d, hits, experts, 0, hits, reserved, [], d)
  {
    forall j | 0 <= j < |hits| && hits[j] != FREE ensures 0 <= hits[j] < cfg.slotCount {
      assert Holds(d, hits[j], experts[j]);
    }
  }

  /** A request that already has its hit is passed over. */
  lemma VictimsSkip(
    cfg: Config, d: Cache, hits: seq<int>, experts: seq<nat>, n: nat,
    slots: seq<int>, reserved: set<nat>, misses: seq<nat>, e: Cache)
    requires VictimPass(cfg, d, hits, experts, n, slots, reserved, misses, e)
    requires n < |experts| && slots[n] != FREE
    ensures VictimPass(cfg, d, hits, experts, n + 1, slots, reserved, misses, e)
  {
  }

  /** Dropping a victim's identity, or not, is immaterial. */
  lemma VictimsForget(
    cfg: Config, d: Cache, hits: seq<int>, experts: seq<nat>, n: nat,
    slots: seq<int>, reserved: set<nat>, misses: seq<nat>, e: Cache, v: nat, f: Cache)
    requires VictimPass(cfg, d, hits, experts, n, slots, reserved, misses, e)
    requires v < cfg.slotCount && v !in hits && v in slots && Sized(cfg, f)
    requires f.tracked == e.tracked && f.lastUse == e.lastUse && f.useCount == e.useCount && f.stats == e.stats
    requires f.expert == e.expert || f.expert == e.expert[v := FREE]
    ensures VictimPass(cfg, d, hits, experts, n, slots, reserved, misses, f)
  {
  }

  /** A victim is available for every miss when the request fits the cache. */
  lemma VictimAvailable(
    cfg: Config, d: Cache, hits: seq<int>, experts: seq<nat>, n: nat,
    slots: seq<int>, reserved: set<nat>, misses: seq<nat>, e: Cache)
    requires VictimPass(cfg, d, hits, experts, n, slots, reserved, misses, e)
    requires n < |experts| <= cfg.slotCount && slots[n] == FREE
    ensures exists v: nat :: v < cfg.slotCount && v !in reserved
  {
    assert FREE in multiset(slots);
    SomeSlotIsFree(reserved, cfg.slotCount);
  }

  ghost function SlotsBelow(n: nat): (all: set<nat>)
    ensures |all| == n
    ensures forall s: nat :: s in all <==> s < n
  {
    if n == 0 then {} else SlotsBelow(n - 1) + {n - 1}
  }

  lemma SomeSlotIsFree(reserved: set<nat>, n: nat)
    requires |reserved| < n
    ensures exists s: nat :: s < n && s !in reserved
  {
    if SlotsBelow(n) <= reserved {
      SubsetIsNoLarger(SlotsBelow(n), reserved);
    } else {
      var s :| s in SlotsBelow(n) && s !in reserved;
    }
  }

  // ----- The finished plan ---------------------------------------------------------

  /** Every slot of the plan is its own. */
  ghost predicate Shaped(cfg: Config, p: Plan) {
    && |p.slots| == |p.experts|
    && (forall j :: 0 <= j < |p.slots| ==> 0 <= p.slots[j] < cfg.slotCount)
    && (forall i, j :: 0 <= i < j < |p.slots| ==> p.slots[i] != p.slots[j])
    && Indices(p.misses, |p.experts|)
  }

  /** Every hit is locked and names its expert. */
  ghost predicate HitsHold(c: Cache, p: Plan) {
    && |p.slots| == |p.experts|
    && forall j :: 0 <= j < |p.slots| && j !in p.misses ==> Holds(c, p.slots[j], p.experts[j])
  }

  ghost predicate AllHold(c: Cache, p: Plan) {
    |p.slots| == |p.experts| && forall j :: 0 <= j < |p.slots| ==> Holds(c, p.slots[j], p.experts[j])
  }

  ghost predicate Ready(cfg: Config, c: Cache, p: Plan) {
    Sized(cfg, c) && Shaped(cfg, p) && HitsHold(c, p)
  }

  /** Slot s is where the plan puts a miss. */
  ghost predicate IsMissSlot(p: Plan, s: int)
    requires |p.slots| == |p.experts| && Indices(p.misses, |p.experts|)
  {
    exists k :: 0 <= k < |p.misses| && p.slots[p.misses[k]] == s
  }

  /** What planning means: a hit was already published in its slot; a resident copy is never
      missed; no unasked identity appears; a missed expert is no longer published; no locked
      slot is given up but to a miss; and no slot but the plan's is locked for its contents. */
  ghost predicate Planned(cfg: Config, c: Cache, d: Cache, p: Plan) {
    && Sized(cfg, c) && Ready(cfg, d, p)
    && (forall j :: 0 <= j < |p.slots| && j !in p.misses ==> c.expert[p.slots[j]] == p.experts[j])
    && (forall j, s: nat :: j in p.misses && s < cfg.slotCount && Holds(c, s, p.experts[j]) ==>
          exists i :: 0 <= i < |p.slots| && i !in p.misses && p.slots[i] == s)
    && (forall s: nat :: s < cfg.slotCount ==> d.expert[s] == c.expert[s] || d.expert[s] == FREE)
    && (forall j, s: nat :: j in p.misses && s < cfg.slotCount && d.expert[s] == p.experts[j] ==>
          exists i :: 0 <= i < |p.slots| && i !in p.misses && p.slots[i] == s)
    && (forall s: nat :: s < cfg.slotCount && c.tracked[s] == NonVolatile ==>
          d.tracked[s] == NonVolatile && (d.expert[s] == c.expert[s] || IsMissSlot(p, s)))
    && (forall s: nat :: s < cfg.slotCount && s !in p.slots && c.tracked[s] != NonVolatile ==>
          d.tracked[s] != NonVolatile || d.expert[s] == FREE)
  }

  lemma OnlyVictimsForgotten(
    cfg: Config, d: Cache, hits: seq<int>, p: Plan, reserved: set<nat>, e: Cache, s: nat)
    requires VictimPass(cfg, d, hits, p.experts, |p.experts|, p.slots, reserved, p.misses, e)
    requires s < cfg.slotCount && e.expert[s] != d.expert[s]
    ensures IsMissSlot(p, s)
  {
    var j :| 0 <= j < |p.slots| && p.slots[j] == s;
    assert hits[j] == FREE;
    assert j in p.misses;
  }

  lemma OthersAreNotLocked(
    cfg: Config, c: Cache, d: Cache, hits: seq<int>, hitSlots: set<nat>, p: Plan, reserved: set<nat>, e: Cache, s: nat)
    requires VictimPass(cfg, d, hits, p.experts, |p.experts|, p.slots, reserved, p.misses, e)
    requires OnlyHitsLocked(cfg, c, d, hitSlots) && forall t :: t in hitSlots ==> t in hits
    requires s < cfg.slotCount && s !in p.slots && c.tracked[s] != NonVolatile
    ensures e.tracked[s] != NonVolatile || e.expert[s] == FREE
  {
    forall i | 0 <= i < |hits| && hits[i] != FREE ensures hits[i] in p.slots {
      assert p.slots[i] == hits[i];
    }
    assert s !in hitSlots;
  }

  lemma PlanIsFinished(
    cfg: Config, c: Cache, d: Cache, hits: seq<int>, hitSlots: set<nat>, p: Plan, reserved: set<nat>, e: Cache)
    requires HitPass(cfg, c, d, p.experts, |p.experts|, hits, hitSlots)
    requires VictimPass(cfg, d, hits, p.experts, |p.experts|, p.slots, reserved, p.misses, e)
    requires OnlyHitsLocked(cfg, c, d, hitSlots)
    ensures Planned(cfg, c, e, p)
  {
    forall s: nat | s < cfg.slotCount && s !in p.slots && c.tracked[s] != NonVolatile
      ensures e.tracked[s] != NonVolatile || e.expert[s] == FREE
    {
      OthersAreNotLocked(cfg, c, d, hits, hitSlots, p, reserved, e, s);
    }
    forall j | 0 <= j < |p.slots| && j !in p.misses
      ensures Holds(e, p.slots[j], p.experts[j]) && c.expert[p.slots[j]] == p.experts[j]
    {
      assert hits[j] != FREE && hits[j] in hits;
      assert Holds(d, hits[j], p.experts[j]);
    }
    forall s: nat | s < cfg.slotCount
      ensures e.expert[s] == c.expert[s] || e.expert[s] == FREE
      ensures c.tracked[s] == NonVolatile ==> d.expert[s] == c.expert[s]
      ensures c.tracked[s] == NonVolatile ==>
                e.tracked[s] == NonVolatile && (e.expert[s] == c.expert[s] || IsMissSlot(p, s))
    {
      assert WeakenedAt(cfg, c, d, s);
      if e.expert[s] != d.expert[s] {
        OnlyVictimsForgotten(cfg, d, hits, p, reserved, e, s);
      }
    }
    forall j, s: nat |
      j in p.misses && s < cfg.slotCount && (Holds(c, s, p.experts[j]) || e.expert[s] == p.experts[j])
      ensures exists i :: 0 <= i < |p.slots| && i !in p.misses && p.slots[i] == s
    {
      assert d.expert[s] == p.experts[j] && s in hitSlots;
      var i :| 0 <= i < |hits| && hits[i] == s;
      assert p.slots[i] == s && i !in p.misses;
    }
  }

  /** With distinct requests, a missed expert is published nowhere. */
  lemma MissedExpertIsAbsent(cfg: Config, c: Cache, d: Cache, p: Plan, j: nat, s: nat)
    requires Planned(cfg, c, d, p) && Distinct(p.experts) && j in p.misses && s < cfg.slotCount
    ensures d.expert[s] != p.experts[j] && !Holds(c, s, p.experts[j])
  {
    if i :| 0 <= i < |p.slots| && i !in p.misses && p.slots[i] == s {
      assert Holds(d, p.slots[i], p.experts[i]);
      assert p.experts[i] != p.experts[j];
    }
  }

  // ----- Executing the plan --------------------------------------------------------

  /** The first n misses are in place. */
  ghost predicate Filled(cfg: Config, c: Cache, p: Plan, n: nat) {
    && Sized(cfg, c) && Shaped(cfg, p) && n <= |p.misses|
    && forall k :: 0 <= k < n ==> Holds(c, p.slots[p.misses[k]], p.experts[p.misses[k]])
  }

  ghost predicate IsMissed(p: Plan, x: int)
    requires Indices(p.misses, |p.experts|)
  {
    exists k :: 0 <= k < |p.misses| && p.experts[p.misses[k]] == x
  }

  /** Every slot that is not for a miss has the identity, the stamp and the lock it had, every
      expert that is not missed its count, and nothing was offered or discarded. */
  ghost predicate OthersKept(cfg: Config, c: Cache, d: Cache, p: Plan) {
    && Sized(cfg, c) && Sized(cfg, d) && Shaped(cfg, p)
    && (forall s: nat :: s < cfg.slotCount && !IsMissSlot(p, s) ==>
          d.expert[s] == c.expert[s] && d.tracked[s] == c.tracked[s] && d.lastUse[s] == c.lastUse[s])
    && (forall x: nat :: x < |c.useCount| && !IsMissed(p, x) ==> d.useCount[x] == c.useCount[x])
    && d.stats.volatileTransitions == c.stats.volatileTransitions
    && d.stats.explicitDiscards == c.stats.explicitDiscards
  }

  /** The misses are in place, and nothing else has changed. */
  ghost predicate Executed(cfg: Config, c: Cache, p: Plan, d: Cache) {
    OthersKept(cfg, c, d, p) && Filled(cfg, d, p, |p.misses|)
  }

  lemma FilledSurvives(cfg: Config, b: Cache, c: Cache, p: Plan, n: nat, s: nat, d: Cache, valid: bool)
    requires Filled(cfg, c, p, n) && OthersKept(cfg, b, c, p) && RelockStep(cfg, c, s, d, valid)
    requires IsMissSlot(p, s)
    ensures Filled(cfg, d, p, n) && OthersKept(cfg, b, d, p)
  {
    forall k | 0 <= k < n ensures Holds(d, p.slots[p.misses[k]], p.experts[p.misses[k]]) {
      assert Holds(c, p.slots[p.misses[k]], p.experts[p.misses[k]]);
      if p.slots[p.misses[k]] != s { assert OsOnlyAt(cfg, c, d, p.slots[p.misses[k]]); }
    }
    forall t: nat | t < cfg.slotCount && t != s
      ensures d.expert[t] == c.expert[t] && d.tracked[t] == c.tracked[t] && d.lastUse[t] == c.lastUse[t]
    {
      assert OsOnlyAt(cfg, c, d, t);
    }
  }

  lemma FilledGains(cfg: Config, b: Cache, c: Cache, p: Plan, n: nat, stamp: int, uses: int)
    requires Filled(cfg, c, p, n) && OthersKept(cfg, b, c, p) && n < |p.misses|
    requires Legal(cfg, c, Fill(p.slots[p.misses[n]], p.experts[p.misses[n]], stamp, uses))
    ensures
      var d := Apply(cfg, c, Fill(p.slots[p.misses[n]], p.experts[p.misses[n]], stamp, uses));
      Filled(cfg, d, p, n + 1) && OthersKept(cfg, b, d, p)
  {
    var m := p.misses[n];
    var d := Apply(cfg, c, Fill(p.slots[m], p.experts[m], stamp, uses));
    assert IsMissSlot(p, p.slots[m]) && IsMissed(p, p.experts[m]);
    forall k | 0 <= k < n + 1 ensures Holds(d, p.slots[p.misses[k]], p.experts[p.misses[k]]) {
      if k < n { assert Holds(c, p.slots[p.misses[k]], p.experts[p.misses[k]]); }
    }
  }

  lemma HitSlotIsNoMissSlot(cfg: Config, p: Plan, j: nat)
    requires Shaped(cfg, p) && j < |p.slots| && j !in p.misses
    ensures !IsMissSlot(p, p.slots[j])
  {
  }

  /** After a plan was executed, whatever happened since it was made, all its slots hold their
      experts exactly when all its hits did before. */
  lemma ExecutedHolds(cfg: Config, c: Cache, p: Plan, d: Cache)
    requires Executed(cfg, c, p, d)
    ensures AllHold(d, p) <==> HitsHold(c, p)
  {
    forall j | 0 <= j < |p.slots|
      ensures Holds(d, p.slots[j], p.experts[j]) <==> j in p.misses || Holds(c, p.slots[j], p.experts[j])
    {
      if j in p.misses {
        var k :| 0 <= k < |p.misses| && p.misses[k] == j;
      } else {
        HitSlotIsNoMissSlot(cfg, p, j);
      }
    }
  }

  /** What the command that executes the plan may read, slot by slot. */
  ghost function BoundBy(p: Plan): (bound: map<int, nat>)
    requires |p.slots| == |p.experts|
    requires forall i, j :: 0 <= i < j < |p.slots| ==> p.slots[i] != p.slots[j]
    ensures forall s :: s in bound ==> s in p.slots
    ensures forall j :: 0 <= j < |p.slots| ==> p.slots[j] in bound && bound[p.slots[j]] == p.experts[j]
  {
    map j | 0 <= j < |p.slots| :: p.slots[j] := p.experts[j]
  }

  // ----- Published identities stay distinct ----------------------------------------

  /** No missed expert from position n on is published, and the missed experts differ. */
  ghost predicate Unpublished(c: Cache, p: Plan, n: nat) {
    && (forall k :: 0 <= k < |p.misses| ==> p.misses[k] < |p.experts|)
    && (forall k, l :: 0 <= k < l < |p.misses| ==> p.experts[p.misses[k]] != p.experts[p.misses[l]])
    && (forall k, s :: n <= k < |p.misses| && 0 <= s < |c.expert| ==> c.expert[s] != p.experts[p.misses[k]])
  }

  lemma PlanLeavesMissesUnpublished(cfg: Config, c: Cache, d: Cache, p: Plan)
    requires Planned(cfg, c, d, p) && Distinct(p.experts)
    ensures Unpublished(d, p, 0) && (Unique(c) ==> Unique(d))
  {
    forall k, s: nat | 0 <= k < |p.misses| && s < |d.expert| ensures d.expert[s] != p.experts[p.misses[k]] {
      MissedExpertIsAbsent(cfg, c, d, p, p.misses[k], s);
    }
  }

  /** A relock before the read, and the publication after it, keep the later misses
      unpublished and publish nothing twice. */
  lemma FillIsApart(cfg: Config, c: Cache, d: Cache, p: Plan, n: nat, stamp: int, uses: int)
    requires Sized(cfg, d) && Shaped(cfg, p) && n < |p.misses|
    requires |c.expert| == |d.expert|
    requires forall s :: 0 <= s < |c.expert| ==> d.expert[s] == c.expert[s] || d.expert[s] == FREE
    requires Unpublished(c, p, n)
    requires Legal(cfg, d, Fill(p.slots[p.misses[n]], p.experts[p.misses[n]], stamp, uses))
    ensures
      var e := Fill(p.slots[p.misses[n]], p.experts[p.misses[n]], stamp, uses);
      && Apart(d, e) && Unpublished(Apply(cfg, d, e), p, n + 1)
      && (Unique(c) ==> Unique(Apply(cfg, d, e)))
  {
    var e := Fill(p.slots[p.misses[n]], p.experts[p.misses[n]], stamp, uses);
    if Unique(c) {
      LosingKeepsUnique(c, d);
      ApplyKeepsUnique(cfg, d, e);
    }
  }

  ghost predicate Loading(cfg: Config, c: Cache, p: Plan, n: nat, d: Cache) {
    && Filled(cfg, d, p, n) && OthersKept(cfg, c, d, p)
    && (Unpublished(c, p, 0) ==> Unpublished(d, p, n))
    && (Unpublished(c, p, 0) && Unique(c) ==> Unique(d))
  }

  /** The first n misses of a plan that was first in state c have been loaded; sealed. */
  ghost predicate InProgress(cfg: Config, c: Cache, p: Plan, n: nat, d: Cache) {
    && Shaped(cfg, p) && n <= |p.misses|
    && forall key {:trigger Unsealed(key)} :: Unsealed(key) ==> Loading(cfg, c, p, n, d)
  }

  lemma ProgressStarts(cfg: Config, c: Cache, p: Plan)
    requires Sized(cfg, c) && Shaped(cfg, p)
    ensures InProgress(cfg, c, p, 0, c)
  {
    assert Loading(cfg, c, p, 0, c);
  }

  lemma ProgressIs(cfg: Config, c: Cache, p: Plan, n: nat, d: Cache)
    requires InProgress(cfg, c, p, n, d)
    ensures Loading(cfg, c, p, n, d)
  {
    assert Unsealed(0);
  }

  lemma ProgressGoesOn(cfg: Config, c: Cache, p: Plan, n: nat, d: Cache)
    requires Loading(cfg, c, p, n, d)
    ensures InProgress(cfg, c, p, n, d)
  {
  }

  lemma ProgressEnds(cfg: Config, c: Cache, p: Plan, d: Cache)
    requires InProgress(cfg, c, p, |p.misses|, d)
    ensures Executed(cfg, c, p, d) && (Unpublished(c, p, 0) && Unique(c) ==> Unique(d))
  {
    ProgressIs(cfg, c, p, |p.misses|, d);
  }

  lemma RelockOnlyLoses(cfg: Config, c: Cache, s: nat, d: Cache, valid: bool)
    requires RelockStep(cfg, c, s, d, valid) && Coupled(cfg, c)
    ensures d.tracked[s] == NonVolatile
    ensures forall t :: 0 <= t < |c.expert| ==> d.expert[t] == c.expert[t] || d.expert[t] == FREE
    ensures Unique(c) ==> Unique(d)
  {
    assert CoupledSlot(cfg, c, s);
    forall t: nat | t < |c.expert| ensures d.expert[t] == c.expert[t] || d.expert[t] == FREE {
      if t != s { assert OsOnlyAt(cfg, c, d, t); }
    }
    if Unique(c) {
      LosingKeepsUnique(c, d);
    }
  }

  lemma HitsAreInRange(cfg: Config, c: Cache, p: Plan)
    requires Ready(cfg, c, p) && Coupled(cfg, c)
    ensures forall j :: 0 <= j < |p.experts| && j !in p.misses ==> p.experts[j] < |cfg.file|
    ensures (forall k :: 0 <= k < |p.misses| ==> p.experts[p.misses[k]] < |cfg.file|) <==>
            (forall j :: 0 <= j < |p.experts| ==> p.experts[j] < |cfg.file|)
  {
    forall j | 0 <= j < |p.experts| && j !in p.misses ensures p.experts[j] < |cfg.file| {
      assert Holds(c, p.slots[j], p.experts[j]) && CoupledSlot(cfg, c, p.slots[j]);
    }
    if forall k :: 0 <= k < |p.misses| ==> p.experts[p.misses[k]] < |cfg.file| {
      forall j | 0 <= j < |p.experts| ensures p.experts[j] < |cfg.file| {
        if j in p.misses {
          var k :| 0 <= k < |p.misses| && p.misses[k] == j;
        }
      }
    }
  }

  /** Every slot a command may read is physically nonvolatile and byte for byte the file's. */
  lemma BoundSlotsAreExact(cfg: Config, c: Cache, bound: map<int, nat>)
    requires Sized(cfg, c) && Coupled(cfg, c)
    requires forall s :: s in bound ==> Holds(c, s, bound[s])
    ensures forall s :: s in bound ==>
              && 0 <= s < cfg.slotCount && bound[s] < |cfg.file|
              && c.phys[s] == NonVolatile && c.bytes[s] == cfg.file[bound[s]]
  {
    forall s | s in bound
      ensures 0 <= s < cfg.slotCount && bound[s] < |cfg.file|
      ensures c.phys[s] == NonVolatile && c.bytes[s] == cfg.file[bound[s]]
    {
      assert Holds(c, s, bound[s]) && CoupledSlot(cfg, c, s);
    }
  }

  // ----- How long a plan stays ready -------------------------------------------------

  /** What a slot holds is lost by being offered, discarded or forgotten, or by another expert
      published there, and by nothing else. */
  lemma HoldsAfterEvent(cfg: Config, c: Cache, e: Event, s: nat, x: nat)
    requires Sized(cfg, c) && Coupled(cfg, c) && Legal(cfg, c, e) && Holds(c, s, x)
    ensures Holds(Apply(cfg, c, e), s, x) <==>
              !(e.slot == s && (e.Offer? || e.Discard? || e.Forget? || (e.Fill? && e.expert != x)))
  {
    assert CoupledSlot(cfg, c, s);
  }

  /** Whatever the system reclaims, a plan is as ready as before. */
  lemma OsKeepsReady(cfg: Config, c: Cache, d: Cache, p: Plan)
    requires OsOnly(cfg, c, d)
    ensures Ready(cfg, d, p) <==> Ready(cfg, c, p)
  {
    OsKeepsIdentities(cfg, c, d);
  }

  ghost predicate HitsAmong(p: Plan, hot: set<nat>) {
    forall j :: 0 <= j < |p.slots| && j !in p.misses ==> p.slots[j] in hot
  }

  /** A boundary call leaves a plan ready exactly when all its hits are hot. */
  lemma BoundaryKeepsReady(cfg: Config, c: Cache, hot: set<nat>, d: Cache, a: Action, p: Plan)
    requires BoundaryStep(cfg, c, hot, d, a) && Ready(cfg, c, p)
    ensures Ready(cfg, d, p) <==> HitsAmong(p, hot)
  {
    forall j | 0 <= j < |p.slots| && j !in p.misses
      ensures Holds(d, p.slots[j], p.experts[j]) <==> p.slots[j] in hot
    {
      assert Holds(c, p.slots[j], p.experts[j]) && BoundaryAt(cfg, c, d, hot, p.slots[j]);
    }
  }

  /** So does a discard call. */
  lemma DiscardKeepsReady(cfg: Config, c: Cache, hot: set<nat>, d: Cache, a: Action, p: Plan)
    requires DiscardStep(cfg, c, hot, d, a) && Ready(cfg, c, p)
    ensures Ready(cfg, d, p) <==> HitsAmong(p, hot)
  {
    forall j | 0 <= j < |p.slots| && j !in p.misses
      ensures Holds(d, p.slots[j], p.experts[j]) <==> p.slots[j] in hot
    {
      assert Holds(c, p.slots[j], p.experts[j]);
      assert DiscardAt(cfg, c, d, OccupiedSet(c) - hot, p.slots[j]);
    }
  }

  /** The plan puts another expert than x into slot s. */
  ghost predicate Takes(p: Plan, s: int, x: nat)
    requires |p.slots| == |p.experts| && Indices(p.misses, |p.experts|)
  {
    exists k :: 0 <= k < |p.misses| && p.slots[p.misses[k]] == s && p.experts[p.misses[k]] != x
  }

  /** A load with plan p took from slots exactly what it says. */
  ghost predicate LoadTakes(c: Cache, p: Plan, d: Cache) {
    && |p.slots| == |p.experts| && Indices(p.misses, |p.experts|)
    && forall s, x :: Holds(c, s, x) ==> (Holds(d, s, x) <==> !Takes(p, s, x))
  }

  /** The plan puts expert x into slot s, as a hit or as a miss. */
  ghost predicate Places(p: Plan, s: int, x: nat)
    requires |p.slots| == |p.experts|
  {
    exists j :: 0 <= j < |p.slots| && p.slots[j] == s && p.experts[j] == x
  }

  /** After a load with plan p, a slot holds what the plan puts there, and any other slot what
      it held before. */
  ghost predicate LoadPlaces(c: Cache, p: Plan, d: Cache) {
    && |p.slots| == |p.experts|
    && forall s, x :: Holds(d, s, x) <==> Places(p, s, x) || (Holds(c, s, x) && s !in p.slots)
  }

  lemma LoadPlacesItsPlan(cfg: Config, c: Cache, d: Cache, p: Plan, e: Cache)
    requires Planned(cfg, c, d, p) && Executed(cfg, d, p, e)
    ensures LoadPlaces(c, p, e)
  {
    ExecutedHolds(cfg, d, p, e);
    forall s, x ensures Holds(e, s, x) <==> Places(p, s, x) || (Holds(c, s, x) && s !in p.slots) {
      if s in p.slots {
        var j :| 0 <= j < |p.slots| && p.slots[j] == s;
        assert Holds(e, s, p.experts[j]);
      } else if 0 <= s < cfg.slotCount {
        assert !IsMissSlot(p, s);
        assert e.expert[s] == d.expert[s] && e.tracked[s] == d.tracked[s];
      }
    }
  }

  lemma LoadTakesMissSlots(cfg: Config, c: Cache, d: Cache, p: Plan, e: Cache)
    requires Planned(cfg, c, d, p) && Executed(cfg, d, p, e)
    ensures LoadTakes(c, p, e)
  {
    forall s, x | Holds(c, s, x) ensures Holds(e, s, x) <==> !Takes(p, s, x) {
      if IsMissSlot(p, s) {
        var k :| 0 <= k < |p.misses| && p.slots[p.misses[k]] == s;
        assert Holds(e, s, p.experts[p.misses[k]]);
      }
    }
  }

  /** A load with another plan leaves a plan ready exactly when it took none of its hits. */
  lemma LoadKeepsReady(cfg: Config, c: Cache, q: Plan, d: Cache, p: Plan)
    requires LoadTakes(c, q, d) && Sized(cfg, d) && Ready(cfg, c, p)
    ensures Ready(cfg, d, p) <==>
              forall j :: 0 <= j < |p.slots| && j !in p.misses ==> !Takes(q, p.slots[j], p.experts[j])
  {
    forall j | 0 <= j < |p.slots| && j !in p.misses
      ensures Holds(d, p.slots[j], p.experts[j]) <==> !Takes(q, p.slots[j], p.experts[j])
    {
      assert Holds(c, p.slots[j], p.experts[j]);
    }
  }

  /** A hit that was offered after planning may hold anything when the plan is executed. */
  lemma OfferedHitMayHoldAnything(cfg: Config, c: Cache, s: nat, x: nat, junk: Blob)
    requires Sized(cfg, c) && Coupled(cfg, c) && Holds(c, s, x)
    ensures
      var es := [Offer(s), Reclaim(s, junk)];
      && LegalRun(cfg, c, es) && Run(cfg, c, es).expert[s] == x && Run(cfg, c, es).bytes[s] == junk
  {
    assert CoupledSlot(cfg, c, s);
    assert [Offer(s), Reclaim(s, junk)] == [] + [Offer(s)] + [Reclaim(s, junk)];
    ExtendRun(cfg, c, [], Offer(s));
    ExtendRun(cfg, c, [] + [Offer(s)], Reclaim(s, junk));
  }

  /** What makes a plan just made good to execute, and what its execution takes. */
  lemma PlanIsExecutable(cfg: Config, c: Cache, d: Cache, p: Plan)
    requires Planned(cfg, c, d, p) && Coupled(cfg, d)
    ensures Shaped(cfg, p) && HitsHold(d, p)
    ensures (forall k :: 0 <= k < |p.misses| ==> p.experts[p.misses[k]] < |cfg.file|) <==>
            (forall j :: 0 <= j < |p.experts| ==> p.experts[j] < |cfg.file|)
    ensures Distinct(p.experts) ==> Unpublished(d, p, 0) && (Unique(c) ==> Unique(d))
    ensures forall e :: Executed(cfg, d, p, e) ==> LoadTakes(c, p, e) && LoadPlaces(c, p, e)
  {
    HitsAreInRange(cfg, d, p);
    if Distinct(p.experts) {
      PlanLeavesMissesUnpublished(cfg, c, d, p);
    }
    forall e | Executed(cfg, d, p, e) ensures LoadTakes(c, p, e) && LoadPlaces(c, p, e) {
      LoadTakesMissSlots(cfg, c, d, p, e);
      LoadPlacesItsPlan(cfg, c, d, p, e);
    }
  }

  // ----- Readiness over a sequence of calls -------------------------------------------

  /** What can happen to the cache between making a plan and executing it. */
  datatype Call =
    | Reclaims
    | Boundary(hot: set<nat>, action: Action)
    | Discards(hot: set<nat>, action: Action)
    | Load(plan: Plan)

  ghost predicate Happens(cfg: Config, c: Cache, call: Call, d: Cache) {
    match call
    case Reclaims => OsOnly(cfg, c, d)
    case Boundary(hot, a) => BoundaryStep(cfg, c, hot, d, a)
    case Discards(hot, a) => DiscardStep(cfg, c, hot, d, a)
    case Load(q) => Sized(cfg, c) && Sized(cfg, d) && LoadPlaces(c, q, d)
  }

  ghost predicate Trace(cfg: Config, states: seq<Cache>, calls: seq<Call>) {
    && |states| == |calls| + 1
    && forall i :: 0 <= i < |calls| ==> Happens(cfg, states[i], calls[i], states[i + 1])
  }

  /** After the call slot s holds x, whether it did before or not: the slot is hot, names x and
      is not found empty, or a load puts x there. */
  ghost predicate Gives(cfg: Config, c: Cache, call: Call, d: Cache, s: nat, x: nat)
    requires Happens(cfg, c, call, d)
  {
    match call
    case Reclaims => false
    case Boundary(hot, _) => s < cfg.slotCount && s in hot && c.expert[s] == x && s !in LostSlots(c, d)
    case Discards(_, _) => false
    case Load(q) => Places(q, s, x)
  }

  /** After the call slot s does not hold x: the slot is cold, or hot and not what was named, or
      a load puts another expert there. */
  ghost predicate Ends(cfg: Config, c: Cache, call: Call, d: Cache, s: nat, x: nat)
    requires Happens(cfg, c, call, d)
  {
    match call
    case Reclaims => false
    case Boundary(_, _) => !Gives(cfg, c, call, d, s, x)
    case Discards(hot, _) => s !in hot
    case Load(q) => s in q.slots && !Places(q, s, x)
  }

  lemma OneCall(cfg: Config, c: Cache, call: Call, d: Cache, s: nat, x: nat)
    requires Happens(cfg, c, call, d)
    ensures Holds(d, s, x) <==>
              Gives(cfg, c, call, d, s, x) || (Holds(c, s, x) && !Ends(cfg, c, call, d, s, x))
  {
    if s < |c.expert| {
      match call
      case Reclaims => assert OsOnlyAt(cfg, c, d, s);
      case Boundary(hot, _) => assert BoundaryAt(cfg, c, d, hot, s);
      case Discards(hot, _) => assert DiscardAt(cfg, c, d, OccupiedSet(c) - hot, s);
      case Load(_) =>
    }
  }

  /** Call number i gives slot s its expert x, or it held it at first (i is -1), and no later
      call ends that. */
  ghost predicate HeldSince(cfg: Config, states: seq<Cache>, calls: seq<Call>, s: nat, x: nat, i: int)
    requires Trace(cfg, states, calls) && -1 <= i < |calls|
  {
    && (if i < 0 then Holds(states[0], s, x) else Gives(cfg, states[i], calls[i], states[i + 1], s, x))
    && forall j :: i < j < |calls| ==> !Ends(cfg, states[j], calls[j], states[j + 1], s, x)
  }

  ghost predicate HeldAtEnd(cfg: Config, states: seq<Cache>, calls: seq<Call>, s: nat, x: nat)
    requires Trace(cfg, states, calls)
  {
    exists i :: -1 <= i < |calls| && HeldSince(cfg, states, calls, s, x, i)
  }

  lemma HeldSinceMore(cfg: Config, states: seq<Cache>, calls: seq<Call>, s: nat, x: nat, i: int)
    requires Trace(cfg, states, calls) && calls != [] && -1 <= i < |calls| - 1
    ensures
      var n := |calls| - 1;
      Trace(cfg, states[..n + 1], calls[..n]) &&
      (HeldSince(cfg, states, calls, s, x, i) <==>
        HeldSince(cfg, states[..n + 1], calls[..n], s, x, i) && !Ends(cfg, states[n], calls[n], states[n + 1], s, x))
  {
    var n := |calls| - 1;
    var before, earlier := states[..n + 1], calls[..n];
    if HeldSince(cfg, states, calls, s, x, i) {
      forall j | i < j < n ensures !Ends(cfg, before[j], earlier[j], before[j + 1], s, x) {
        assert !Ends(cfg, states[j], calls[j], states[j + 1], s, x);
      }
    }
    if HeldSince(cfg, before, earlier, s, x, i) && !Ends(cfg, states[n], calls[n], states[n + 1], s, x) {
      forall j | i < j < |calls| ensures !Ends(cfg, states[j], calls[j], states[j + 1], s, x) {
        if j < n {
          assert !Ends(cfg, before[j], earlier[j], before[j + 1], s, x);
        }
      }
    }
  }

  lemma HeldAtEndMore(cfg: Config, states: seq<Cache>, calls: seq<Call>, s: nat, x: nat)
    requires Trace(cfg, states, calls) && calls != []
    ensures
      var n := |calls| - 1;
      Trace(cfg, states[..n + 1], calls[..n]) &&
      (HeldAtEnd(cfg, states, calls, s, x) <==>
        || Gives(cfg, states[n], calls[n], states[n + 1], s, x)
        || (HeldAtEnd(cfg, states[..n + 1], calls[..n], s, x)
            && !Ends(cfg, states[n], calls[n], states[n + 1], s, x)))
  {
    var n := |calls| - 1;
    HeldSinceMore(cfg, states, calls, s, x, -1);
    assert HeldSince(cfg, states, calls, s, x, n) <==> Gives(cfg, states[n], calls[n], states[n + 1], s, x);
    if HeldAtEnd(cfg, states, calls, s, x) {
      var i :| -1 <= i < |calls| && HeldSince(cfg, states, calls, s, x, i);
      if i < n { HeldSinceMore(cfg, states, calls, s, x, i); }
    }
    if HeldAtEnd(cfg, states[..n + 1], calls[..n], s, x) && !Ends(cfg, states[n], calls[n], states[n + 1], s, x) {
      var i :| -1 <= i < n && HeldSince(cfg, states[..n + 1], calls[..n], s, x, i);
      HeldSinceMore(cfg, states, calls, s, x, i);
    }
  }

  /** Over any sequence of calls: a slot holds an expert at the end exactly when some call gave
      it, or it held it at first, and no later call ended that. */
  lemma {:induction false} SlotAfterCalls(cfg: Config, states: seq<Cache>, calls: seq<Call>, s: nat, x: nat)
    requires Trace(cfg, states, calls)
    ensures Holds(states[|calls|], s, x) <==> HeldAtEnd(cfg, states, calls, s, x)
    decreases |calls|
  {
    if calls == [] {
      assert HeldSince(cfg, states, calls, s, x, -1) <==> Holds(states[0], s, x);
    } else {
      var n := |calls| - 1;
      HeldAtEndMore(cfg, states, calls, s, x);
      SlotAfterCalls(cfg, states[..n + 1], calls[..n], s, x);
      OneCall(cfg, states[n], calls[n], states[n + 1], s, x);
    }
  }

  /** So for a plan, however old, and whatever state it was made in. */
  lemma ReadyAfterCalls(cfg: Config, states: seq<Cache>, calls: seq<Call>, p: Plan)
    requires Trace(cfg, states, calls) && Shaped(cfg, p) && Sized(cfg, states[|calls|])
    ensures Ready(cfg, states[|calls|], p) <==>
              forall j :: 0 <= j < |p.slots| && j !in p.misses ==>
                HeldAtEnd(cfg, states, calls, p.slots[j], p.experts[j])
  {
    forall j | 0 <= j < |p.slots|
      ensures Holds(states[|calls|], p.slots[j], p.experts[j]) <==>
                HeldAtEnd(cfg, states, calls, p.slots[j], p.experts[j])
    {
      SlotAfterCalls(cfg, states, calls, p.slots[j], p.experts[j]);
    }
  }

  /** What one boundary call offered, a later one gives back exactly to the hits that are hot
      then and not found empty. */
  lemma SecondBoundaryGivesBack(
    cfg: Config, c: Cache, hot: set<nat>, d: Cache, a: Action, hot': set<nat>, e: Cache, b: Action, p: Plan)
    requires Ready(cfg, c, p) && BoundaryStep(cfg, c, hot, d, a) && BoundaryStep(cfg, d, hot', e, b)
    ensures Ready(cfg, e, p) <==>
              forall j :: 0 <= j < |p.slots| && j !in p.misses ==>
                p.slots[j] in hot' && p.slots[j] !in LostSlots(d, e)
  {
    forall j | 0 <= j < |p.slots| && j !in p.misses
      ensures Holds(e, p.slots[j], p.experts[j]) <==> p.slots[j] in hot' && p.slots[j] !in LostSlots(d, e)
    {
      assert Holds(c, p.slots[j], p.experts[j]) && BoundaryAt(cfg, c, d, hot, p.slots[j]);
      OneCall(cfg, d, Boundary(hot', b), e, p.slots[j], p.experts[j]);
    }
  }
}
