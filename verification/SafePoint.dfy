/** What one call at a GPU-safe boundary does to the cache, stated slot by slot, and what
    follows for the hot set, for repeated calls and for explicit discards. */
module SafePoint {
  import opened Collections
  import opened ExpertCache
  import opened HotSet

  datatype Action = Action(occupiedSlots: nat, keptSlots: nat, transitionedSlots: nat, affectedBytes: nat)

  // ----- The operating system acting alone ---------------------------------------

  ghost predicate OsOnlyAt(cfg: Config, c: Cache, d: Cache, s: nat)
    requires Sized(cfg, c) && Sized(cfg, d) && s < cfg.slotCount
  {
    && d.expert[s] == c.expert[s] && d.lastUse[s] == c.lastUse[s] && d.tracked[s] == c.tracked[s]
    && ((d.phys[s] == c.phys[s] && d.bytes[s] == c.bytes[s]) ||
        (c.phys[s] == Volatile && d.phys[s] == Empty))
  }

  /** d is c after any number of reclaims. */
  ghost predicate OsOnly(cfg: Config, c: Cache, d: Cache) {
    && Sized(cfg, c) && Sized(cfg, d)
    && d.useCount == c.useCount && d.stats == c.stats
    && forall s: nat :: s < cfg.slotCount ==> OsOnlyAt(cfg, c, d, s)
  }

  // ----- One relock --------------------------------------------------------------

  ghost predicate Retained(cfg: Config, c: Cache, d: Cache, s: nat)
    requires Sized(cfg, c) && Sized(cfg, d) && s < cfg.slotCount
  {
    && c.tracked[s] == Volatile && c.phys[s] == Volatile
    && d.tracked[s] == NonVolatile && d.phys[s] == NonVolatile
    && d.expert[s] == c.expert[s] && d.lastUse[s] == c.lastUse[s] && d.bytes[s] == c.bytes[s]
  }

  ghost predicate Recovered(cfg: Config, c: Cache, d: Cache, s: nat)
    requires Sized(cfg, c) && Sized(cfg, d) && s < cfg.slotCount
  {
    && c.tracked[s] != NonVolatile
    && d.tracked[s] == NonVolatile && d.phys[s] == NonVolatile
    && d.expert[s] == FREE
    && d.lastUse[s] == (if c.expert[s] >= 0 then 0 else c.lastUse[s])
  }

  ghost predicate RelockAt(cfg: Config, c: Cache, s: nat, d: Cache, valid: bool)
    requires Sized(cfg, c) && Sized(cfg, d) && s < cfg.slotCount
  {
    if c.tracked[s] == NonVolatile then
      valid && OsOnlyAt(cfg, c, d, s) && d.stats == c.stats
    else if valid then
      && Retained(cfg, c, d, s)
      && d.stats == c.stats.(revalidations := c.stats.revalidations + 1,
                             retained := c.stats.retained + 1)
    else
      && Recovered(cfg, c, d, s)
      && d.stats == c.stats.(
           revalidations := c.stats.revalidations + 1,
           emptyRecoveries := c.stats.emptyRecoveries + 1,
           reclaimedBytes := c.stats.reclaimedBytes + cfg.slotSize,
           invalidatedSlots := c.stats.invalidatedSlots + (if c.expert[s] >= 0 then 1 else 0))
  }

  /** One call of ensureSlotNonVolatileLocked on slot s, the OS acting around it. */
  ghost predicate RelockStep(cfg: Config, c: Cache, s: nat, d: Cache, valid: bool)
  {
    && Sized(cfg, c) && Sized(cfg, d) && s < cfg.slotCount
    && d.useCount == c.useCount
    && RelockAt(cfg, c, s, d, valid)
    && forall t: nat :: t < cfg.slotCount && t != s ==> OsOnlyAt(cfg, c, d, t)
  }

  lemma RelockIsAStep(cfg: Config, c: Cache, d: Cache, s: nat)
    requires OsOnly(cfg, c, d) && Coupled(cfg, d) && Coupled(cfg, c) && s < cfg.slotCount
    ensures Sized(cfg, Relocked(cfg, d, s))
    ensures RelockStep(cfg, c, s, Relocked(cfg, d, s), d.tracked[s] == NonVolatile || !FoundEmpty(d, s))
  {
    assert OsOnlyAt(cfg, c, d, s) && CoupledSlot(cfg, d, s) && CoupledSlot(cfg, c, s);
    forall t: nat | t < cfg.slotCount && t != s ensures OsOnlyAt(cfg, c, Relocked(cfg, d, s), t) {
      assert OsOnlyAt(cfg, c, d, t);
    }
  }

  // ----- makeColdSlotsVolatile ---------------------------------------------------

  ghost predicate Offered(cfg: Config, c: Cache, d: Cache, s: nat)
    requires Sized(cfg, c) && Sized(cfg, d) && s < cfg.slotCount
  {
    && c.tracked[s] == NonVolatile && d.tracked[s] == Volatile
    && d.expert[s] == c.expert[s] && d.lastUse[s] == c.lastUse[s]
    && ((d.phys[s] == Volatile && d.bytes[s] == c.bytes[s]) || d.phys[s] == Empty)
  }

  ghost predicate BoundaryAt(cfg: Config, c: Cache, d: Cache, hot: set<nat>, s: nat)
    requires Sized(cfg, c) && Sized(cfg, d) && s < cfg.slotCount
  {
    if s in hot && c.tracked[s] != NonVolatile then
      Retained(cfg, c, d, s) || Recovered(cfg, c, d, s)
    else if s !in hot && c.expert[s] >= 0 && c.tracked[s] == NonVolatile then
      Offered(cfg, c, d, s)
    else
      OsOnlyAt(cfg, c, d, s)
  }

  ghost function OfferedSlots(c: Cache, hot: set<nat>): set<nat>
    requires |c.tracked| == |c.expert|
  {
    set s | s in OccupiedSet(c) && s !in hot && c.tracked[s] == NonVolatile
  }

  ghost function RelockedSlots(c: Cache, hot: set<nat>): set<nat> {
    set s | s in hot && s < |c.tracked| && c.tracked[s] != NonVolatile
  }

  /** Slots whose published identity is gone. */
  ghost function LostSlots(c: Cache, d: Cache): set<nat>
    requires |c.expert| == |d.expert|
  {
    set s | s in OccupiedSet(c) && d.expert[s] < 0
  }

  ghost function AfterBoundary(cfg: Config, t: Stats, offered: nat, kept: nat, lost: nat): Stats {
    t.(volatileTransitions := t.volatileTransitions + offered,
       revalidations := t.revalidations + kept + lost,
       retained := t.retained + kept,
       emptyRecoveries := t.emptyRecoveries + lost,
       invalidatedSlots := t.invalidatedSlots + lost,
       reclaimedBytes := t.reclaimedBytes + SlotBytes(cfg.slotSize, lost))
  }

  /** One whole call with hot set `hot`, including whatever the OS did during it. */
  ghost predicate BoundaryStep(cfg: Config, c: Cache, hot: set<nat>, d: Cache, a: Action) {
    && Sized(cfg, c) && Sized(cfg, d)
    && d.useCount == c.useCount
    && (forall s: nat :: s < cfg.slotCount ==> BoundaryAt(cfg, c, d, hot, s))
    && a.occupiedSlots == |OccupiedSet(c)|
    && a.keptSlots == |hot|
    && a.transitionedSlots == |OfferedSlots(c, hot)|
    && a.affectedBytes == SlotBytes(cfg.slotSize, a.transitionedSlots)
    && d.stats == AfterBoundary(cfg, c.stats, |OfferedSlots(c, hot)|,
                                |RelockedSlots(c, hot) - LostSlots(c, d)|, |LostSlots(c, d)|)
  }

  // The same call part way: the slots in `done` have been dealt with.

  ghost predicate SlotsPass(cfg: Config, c: Cache, hot: set<nat>, done: set<nat>, d: Cache)
    requires Sized(cfg, c) && Sized(cfg, d)
  {
    forall s: nat :: s < cfg.slotCount ==>
      if s in done then BoundaryAt(cfg, c, d, hot, s) else OsOnlyAt(cfg, c, d, s)
  }

  ghost predicate BoundaryPass(cfg: Config, c: Cache, hot: set<nat>, done: set<nat>, d: Cache) {
    && Sized(cfg, c) && Sized(cfg, d)
    && d.useCount == c.useCount
    && SlotsPass(cfg, c, hot, done, d)
    && d.stats == Counters(cfg, c, hot, done, LostSlots(c, d))
  }

  lemma OsOnlyThenOsOnly(cfg: Config, c: Cache, d: Cache, e: Cache, hot: set<nat>, s: nat)
    requires Sized(cfg, c) && Sized(cfg, d) && Sized(cfg, e) && s < cfg.slotCount
    requires OsOnlyAt(cfg, d, e, s)
    ensures OsOnlyAt(cfg, c, d, s) ==> OsOnlyAt(cfg, c, e, s)
    ensures BoundaryAt(cfg, c, d, hot, s) ==> BoundaryAt(cfg, c, e, hot, s)
  {
  }

  lemma BoundaryStarts(cfg: Config, c: Cache, hot: set<nat>)
    requires Sized(cfg, c)
    ensures BoundaryPass(cfg, c, hot, {}, c)
  {
    assert OfferedSlots(c, hot) * {} == {} && RelockedSlots(c, hot) * {} - LostSlots(c, c) == {};
    assert LostSlots(c, c) == {};
  }

  /** One more slot is dealt with; the rest see only the OS. */
  lemma SlotsAdvance(cfg: Config, c: Cache, hot: set<nat>, done: set<nat>, d: Cache, s: nat, e: Cache)
    requires Sized(cfg, c) && Sized(cfg, d) && Sized(cfg, e) && s < cfg.slotCount
    requires SlotsPass(cfg, c, hot, done, d) && BoundaryAt(cfg, c, e, hot, s)
    requires forall t: nat :: t < cfg.slotCount && t != s ==> OsOnlyAt(cfg, d, e, t)
    ensures SlotsPass(cfg, c, hot, done + {s}, e)
    ensures LostSlots(c, e) - {s} == LostSlots(c, d) - {s}
  {
    forall t: nat | t < cfg.slotCount && t != s
      ensures if t in done then BoundaryAt(cfg, c, e, hot, t) else OsOnlyAt(cfg, c, e, t)
      ensures e.expert[t] == d.expert[t]
    {
      assert OsOnlyAt(cfg, d, e, t);
      OsOnlyThenOsOnly(cfg, c, d, e, hot, t);
    }
  }

  lemma OneMore(x: set<nat>, done: set<nat>, s: nat)
    requires s !in done
    ensures |x * (done + {s})| == |x * done| + (if s in x then 1 else 0)
  {
    assert x * (done + {s}) == x * done + (if s in x then {s} else {});
  }

  lemma LostOneMore(x: set<nat>, done: set<nat>, s: nat, lost: set<nat>, lost': set<nat>)
    requires s !in done && s !in lost && lost' - {s} == lost - {s}
    ensures |lost'| == |lost| + (if s in lost' then 1 else 0)
    ensures |x * (done + {s}) - lost'| == |x * done - lost| + (if s in x && s !in lost' then 1 else 0)
  {
    assert lost - {s} == lost;
    if s in lost' {
      assert lost' == (lost' - {s}) + {s};
      assert x * (done + {s}) - lost' == x * done - lost;
    } else {
      assert lost' == lost' - {s};
      assert x * (done + {s}) - lost == x * done - lost + (if s in x then {s} else {});
    }
  }

  /** The counters a call has reached when the slots in `done` have been dealt with. */
  ghost function Counters(cfg: Config, c: Cache, hot: set<nat>, done: set<nat>, lost: set<nat>): Stats
    requires |c.tracked| == |c.expert|
  {
    AfterBoundary(cfg, c.stats, |OfferedSlots(c, hot) * done|,
                  |RelockedSlots(c, hot) * done - lost|, |lost|)
  }

  lemma CountersAdvance(
    cfg: Config, c: Cache, hot: set<nat>, done: set<nat>, s: nat, lost: set<nat>, lost': set<nat>)
    requires |c.tracked| == |c.expert|
    requires s !in done && s !in lost && lost' - {s} == lost - {s}
    requires s in lost' ==> s in RelockedSlots(c, hot)
    ensures
      var t := Counters(cfg, c, hot, done, lost);
      Counters(cfg, c, hot, done + {s}, lost') ==
        if s in OfferedSlots(c, hot) then
          t.(volatileTransitions := t.volatileTransitions + 1)
        else if s !in RelockedSlots(c, hot) then
          t
        else if s !in lost' then
          t.(revalidations := t.revalidations + 1, retained := t.retained + 1)
        else
          t.(revalidations := t.revalidations + 1,
             emptyRecoveries := t.emptyRecoveries + 1,
             invalidatedSlots := t.invalidatedSlots + 1,
             reclaimedBytes := t.reclaimedBytes + cfg.slotSize)
  {
    OneMore(OfferedSlots(c, hot), done, s);
    LostOneMore(RelockedSlots(c, hot), done, s, lost, lost');
  }

  lemma RelockCounters(
    cfg: Config, c: Cache, hot: set<nat>, done: set<nat>, d: Cache, s: nat, e: Cache, valid: bool)
    requires Sized(cfg, c) && Sized(cfg, d) && Sized(cfg, e) && s < cfg.slotCount
    requires s in hot && s !in done && c.expert[s] >= 0
    requires d.tracked[s] == c.tracked[s] && d.expert[s] == c.expert[s]
    requires d.stats == Counters(cfg, c, hot, done, LostSlots(c, d))
    requires LostSlots(c, e) - {s} == LostSlots(c, d) - {s}
    requires RelockAt(cfg, d, s, e, valid)
    ensures e.stats == Counters(cfg, c, hot, done + {s}, LostSlots(c, e))
  {
    CountersAdvance(cfg, c, hot, done, s, LostSlots(c, d), LostSlots(c, e));
  }

  lemma BoundaryRelocks(
    cfg: Config, c: Cache, hot: set<nat>, done: set<nat>, d: Cache, s: nat, e: Cache, valid: bool)
    requires BoundaryPass(cfg, c, hot, done, d)
    requires s in hot && s !in done && s in OccupiedSet(c)
    requires RelockStep(cfg, d, s, e, valid)
    ensures BoundaryPass(cfg, c, hot, done + {s}, e)
  {
    assert OsOnlyAt(cfg, c, d, s);
    assert BoundaryAt(cfg, c, e, hot, s);
    SlotsAdvance(cfg, c, hot, done, d, s, e);
    RelockCounters(cfg, c, hot, done, d, s, e, valid);
  }

  /** A cold slot still nonvolatile is offered, after the OS acted. */
  lemma BoundaryOffers(
    cfg: Config, c: Cache, hot: set<nat>, done: set<nat>, d: Cache, s: nat, o: Cache)
    requires BoundaryPass(cfg, c, hot, done, d)
    requires s !in hot && s !in done && s in OccupiedSet(c)
    requires OsOnly(cfg, d, o) && o.tracked[s] == NonVolatile == o.phys[s]
    ensures Legal(cfg, o, Offer(s)) && BoundaryPass(cfg, c, hot, done + {s}, Apply(cfg, o, Offer(s)))
  {
    assert OsOnlyAt(cfg, c, d, s) && OsOnlyAt(cfg, d, o, s);
    var e := Apply(cfg, o, Offer(s));
    forall t: nat | t < cfg.slotCount && t != s ensures OsOnlyAt(cfg, d, e, t) {
      assert OsOnlyAt(cfg, d, o, t);
    }
    SlotsAdvance(cfg, c, hot, done, d, s, e);
    CountersAdvance(cfg, c, hot, done, s, LostSlots(c, d), LostSlots(c, e));
  }

  /** A cold slot already offered is left alone. */
  lemma BoundarySkips(
    cfg: Config, c: Cache, hot: set<nat>, done: set<nat>, d: Cache, s: nat, o: Cache)
    requires BoundaryPass(cfg, c, hot, done, d)
    requires s !in hot && s !in done && s in OccupiedSet(c)
    requires OsOnly(cfg, d, o) && o.tracked[s] != NonVolatile
    ensures BoundaryPass(cfg, c, hot, done + {s}, o)
  {
    assert OsOnlyAt(cfg, c, d, s) && OsOnlyAt(cfg, d, o, s);
    SlotsAdvance(cfg, c, hot, done, d, s, o);
    CountersAdvance(cfg, c, hot, done, s, LostSlots(c, d), LostSlots(c, o));
  }

  lemma BoundaryEnds(cfg: Config, c: Cache, hot: set<nat>, d: Cache, a: Action)
    requires BoundaryPass(cfg, c, hot, OccupiedSet(c), d) && hot <= OccupiedSet(c)
    requires a.occupiedSlots == |OccupiedSet(c)| && a.keptSlots == |hot|
    requires a.transitionedSlots == d.stats.volatileTransitions - c.stats.volatileTransitions
    requires a.affectedBytes == SlotBytes(cfg.slotSize, a.transitionedSlots)
    ensures BoundaryStep(cfg, c, hot, d, a)
  {
    assert OfferedSlots(c, hot) * OccupiedSet(c) == OfferedSlots(c, hot);
    assert RelockedSlots(c, hot) * OccupiedSet(c) == RelockedSlots(c, hot);
    forall s: nat | s < cfg.slotCount ensures BoundaryAt(cfg, c, d, hot, s) {
    }
  }

  // What follows for the hot set.

  ghost function Resident(c: Cache): set<nat>
    requires |c.tracked| == |c.expert|
  {
    set s | s in OccupiedSet(c) && c.tracked[s] == NonVolatile
  }

  lemma LostSlotsAreHot(cfg: Config, c: Cache, hot: set<nat>, d: Cache, a: Action)
    requires BoundaryStep(cfg, c, hot, d, a) && hot <= OccupiedSet(c)
    ensures LostSlots(c, d) <= RelockedSlots(c, hot) <= hot
    ensures OccupiedSet(d) == OccupiedSet(c) - LostSlots(c, d)
    ensures forall s :: s in OccupiedSet(d) ==> d.expert[s] == c.expert[s] && d.lastUse[s] == c.lastUse[s]
  {
    forall s: nat | s < cfg.slotCount
      ensures (d.expert[s] == c.expert[s] && d.lastUse[s] == c.lastUse[s]) ||
              (s in RelockedSlots(c, hot) && d.expert[s] == FREE)
    {
      assert BoundaryAt(cfg, c, d, hot, s);
    }
  }

  /** After the call, the occupied nonvolatile slots are exactly the hot slots that still
      hold their contents; they number keptSlots less the ones found empty, never above k. */
  lemma ResidentAfterBoundary(cfg: Config, c: Cache, k: int, hot: set<nat>, d: Cache, a: Action)
    requires BoundaryStep(cfg, c, hot, d, a) && IsHotSet(c, k, hot)
    ensures Resident(d) == hot - LostSlots(c, d)
    ensures |Resident(d)| == a.keptSlots - |LostSlots(c, d)|
    ensures |Resident(d)| <= if k < 0 then 0 else k
  {
    LostSlotsAreHot(cfg, c, hot, d, a);
    forall s | s in OccupiedSet(d) ensures s in Resident(d) <==> s in hot {
      assert BoundaryAt(cfg, c, d, hot, s);
    }
    assert Resident(d) == hot - LostSlots(c, d);
    assert hot == Resident(d) + LostSlots(c, d);
  }

  lemma OsKeepsIdentities(cfg: Config, c: Cache, d: Cache)
    requires OsOnly(cfg, c, d)
    ensures d.expert == c.expert && d.lastUse == c.lastUse && d.tracked == c.tracked
  {
    forall s: nat | s < cfg.slotCount
      ensures d.expert[s] == c.expert[s] && d.lastUse[s] == c.lastUse[s] && d.tracked[s] == c.tracked[s]
    {
      assert OsOnlyAt(cfg, c, d, s);
    }
  }

  /** A boundary call publishes nothing. */
  lemma BoundaryKeepsUnique(cfg: Config, c: Cache, hot: set<nat>, d: Cache, a: Action)
    requires BoundaryStep(cfg, c, hot, d, a) && Unique(c)
    ensures Unique(d)
  {
    forall s: nat | s < cfg.slotCount ensures d.expert[s] == c.expert[s] || d.expert[s] == FREE {
      assert BoundaryAt(cfg, c, d, hot, s);
    }
    LosingKeepsUnique(c, d);
  }

  /** The OS cannot change which slots are hot. */
  lemma OsKeepsHotSet(cfg: Config, c: Cache, d: Cache, k: int, hot: set<nat>)
    requires OsOnly(cfg, c, d) && IsHotSet(c, k, hot)
    ensures IsHotSet(d, k, hot) && OccupiedSet(d) == OccupiedSet(c)
  {
    OsKeepsIdentities(cfg, c, d);
    assert OccupiedSet(d) == OccupiedSet(c);
    forall x, y | x in hot && y in OccupiedSet(d) - hot ensures Hotter(d, x, y) {
      Outranks(c, hot, x, y);
    }
  }

  lemma SameIdentitiesSameSets(c: Cache, d: Cache, hot: set<nat>)
    requires |c.tracked| == |c.expert| && d.expert == c.expert && d.tracked == c.tracked
    ensures OccupiedSet(d) == OccupiedSet(c) && Resident(d) == Resident(c)
    ensures OfferedSlots(d, hot) == Resident(d) - hot
  {
  }

  /** Boundary stability: with no access in between, a second call with the same k moves no
      slot to volatile, whatever the OS reclaimed meanwhile. */
  lemma SecondBoundaryOffersNothing(
    cfg: Config, c: Cache, k: int, hot: set<nat>, d: Cache, a: Action,
    e: Cache, hot': set<nat>, f: Cache, b: Action)
    requires BoundaryStep(cfg, c, hot, d, a) && IsHotSet(c, k, hot)
    requires OsOnly(cfg, d, e)
    requires BoundaryStep(cfg, e, hot', f, b) && IsHotSet(e, k, hot')
    ensures b.transitionedSlots == 0 && b.affectedBytes == 0
  {
    SurvivorsAreHotAgain(cfg, c, k, hot, d, a, e, hot');
    SameIdentitiesSameSets(e, e, hot');
    assert OfferedSlots(e, hot') == {};
  }

  lemma SurvivorsAreHotAgain(
    cfg: Config, c: Cache, k: int, hot: set<nat>, d: Cache, a: Action, e: Cache, hot': set<nat>)
    requires BoundaryStep(cfg, c, hot, d, a) && IsHotSet(c, k, hot)
    requires OsOnly(cfg, d, e)
    requires IsHotSet(e, k, hot')
    ensures Resident(e) == hot - LostSlots(c, d) <= hot'
    ensures OccupiedSet(e) == OccupiedSet(c) - LostSlots(c, d)
  {
    LostSlotsAreHot(cfg, c, hot, d, a);
    ResidentAfterBoundary(cfg, c, k, hot, d, a);
    OsKeepsIdentities(cfg, d, e);
    SameIdentitiesSameSets(d, e, {});
    SurvivorsStayHot(c, e, k, hot, hot', LostSlots(c, d));
  }

  /** If moreover the first call found no hot slot empty, the second changes no slot and no
      counter: what is left between them is only the OS acting alone. */
  lemma SecondBoundaryIsIdle(
    cfg: Config, c: Cache, k: int, hot: set<nat>, d: Cache, a: Action,
    e: Cache, hot': set<nat>, f: Cache, b: Action)
    requires BoundaryStep(cfg, c, hot, d, a) && IsHotSet(c, k, hot) && LostSlots(c, d) == {}
    requires OsOnly(cfg, d, e)
    requires BoundaryStep(cfg, e, hot', f, b) && IsHotSet(e, k, hot')
    ensures hot' == hot && OsOnly(cfg, e, f)
  {
    SurvivorsAreHotAgain(cfg, c, k, hot, d, a, e, hot');
    assert OccupiedSet(e) == OccupiedSet(c);
    SubsetOfSameSizeIsEqual(hot, hot');
    NothingToDo(cfg, e, hot', f, b);
  }

  lemma SubsetOfSameSizeIsEqual(x: set<nat>, y: set<nat>)
    requires x <= y && |x| == |y|
    ensures x == y
  {
    if x != y { ProperSubsetIsSmaller(x, y); }
  }

  /** When exactly the hot slots are resident, a call has nothing to do. */
  lemma NothingToDo(cfg: Config, e: Cache, hot: set<nat>, f: Cache, b: Action)
    requires BoundaryStep(cfg, e, hot, f, b) && Resident(e) == hot
    ensures OsOnly(cfg, e, f)
  {
    forall s: nat | s < cfg.slotCount ensures OsOnlyAt(cfg, e, f, s) {
      assert BoundaryAt(cfg, e, f, hot, s);
      assert s in hot <==> s in Resident(e);
    }
    assert RelockedSlots(e, hot) - LostSlots(e, f) == {} by {
      assert forall s :: s in hot ==> s in Resident(e);
    }
    assert OfferedSlots(e, hot) == Resident(e) - hot;
    assert LostSlots(e, f) == {} by {
      OsAtLosesNothing(cfg, e, f);
    }
  }

  lemma OsAtLosesNothing(cfg: Config, e: Cache, f: Cache)
    requires Sized(cfg, e) && Sized(cfg, f)
    requires forall s: nat :: s < cfg.slotCount ==> OsOnlyAt(cfg, e, f, s)
    ensures LostSlots(e, f) == {}
  {
    forall s: nat | s < cfg.slotCount ensures f.expert[s] == e.expert[s] {
      assert OsOnlyAt(cfg, e, f, s);
    }
  }

  // ----- discardColdSlots --------------------------------------------------------

  ghost predicate DiscardAt(cfg: Config, c: Cache, d: Cache, cold: set<nat>, s: nat)
    requires Sized(cfg, c) && Sized(cfg, d) && s < cfg.slotCount
  {
    if s in cold then
      d.tracked[s] == Empty && d.phys[s] == Empty && d.expert[s] == FREE && d.lastUse[s] == 0
    else
      OsOnlyAt(cfg, c, d, s)
  }

  ghost predicate DiscardStep(cfg: Config, c: Cache, hot: set<nat>, d: Cache, a: Action) {
    var cold := OccupiedSet(c) - hot;
    && Sized(cfg, c) && Sized(cfg, d)
    && d.useCount == c.useCount
    && (forall s: nat :: s < cfg.slotCount ==> DiscardAt(cfg, c, d, cold, s))
    && a.occupiedSlots == |OccupiedSet(c)|
    && a.keptSlots == |hot|
    && a.transitionedSlots == |cold|
    && a.affectedBytes == SlotBytes(cfg.slotSize, a.transitionedSlots)
    && d.stats == c.stats.(explicitDiscards := c.stats.explicitDiscards + |cold|,
                           invalidatedSlots := c.stats.invalidatedSlots + |cold|)
  }

  // The same call part way.

  ghost predicate DiscardPass(cfg: Config, c: Cache, hot: set<nat>, done: set<nat>, d: Cache) {
    && Sized(cfg, c) && Sized(cfg, d)
    && d.useCount == c.useCount
    && (forall s: nat :: s < cfg.slotCount ==> DiscardAt(cfg, c, d, done, s))
    && d.stats == c.stats.(explicitDiscards := c.stats.explicitDiscards + |done|,
                           invalidatedSlots := c.stats.invalidatedSlots + |done|)
  }

  lemma DiscardStarts(cfg: Config, c: Cache, hot: set<nat>)
    requires Sized(cfg, c)
    ensures DiscardPass(cfg, c, hot, {}, c)
  {
  }

  lemma DiscardOneMore(
    cfg: Config, c: Cache, hot: set<nat>, done: set<nat>, d: Cache, s: nat, o: Cache, junk: Blob)
    requires DiscardPass(cfg, c, hot, done, d)
    requires s !in done && s in OccupiedSet(c) && OsOnly(cfg, d, o)
    ensures Legal(cfg, o, Discard(s, junk))
    ensures DiscardPass(cfg, c, hot, done + {s}, Apply(cfg, o, Discard(s, junk)))
  {
    assert DiscardAt(cfg, c, d, done, s) && OsOnlyAt(cfg, d, o, s);
    var e := Apply(cfg, o, Discard(s, junk));
    forall t: nat | t < cfg.slotCount ensures DiscardAt(cfg, c, e, done + {s}, t) {
      assert DiscardAt(cfg, c, d, done, t) && OsOnlyAt(cfg, d, o, t);
    }
  }

  /** Nor does a discard call. */
  lemma DiscardKeepsUnique(cfg: Config, c: Cache, hot: set<nat>, d: Cache, a: Action)
    requires DiscardStep(cfg, c, hot, d, a) && Unique(c)
    ensures Unique(d)
  {
    forall s: nat | s < cfg.slotCount ensures d.expert[s] == c.expert[s] || d.expert[s] == FREE {
      assert DiscardAt(cfg, c, d, OccupiedSet(c) - hot, s);
    }
    LosingKeepsUnique(c, d);
  }

  /** Exactly the hot slots stay published, and a second discard finds nothing cold. */
  lemma OnlyHotSurvivesDiscard(
    cfg: Config, c: Cache, k: int, hot: set<nat>, d: Cache, a: Action,
    e: Cache, hot': set<nat>, f: Cache, b: Action)
    requires DiscardStep(cfg, c, hot, d, a) && IsHotSet(c, k, hot)
    requires OsOnly(cfg, d, e)
    requires DiscardStep(cfg, e, hot', f, b) && IsHotSet(e, k, hot')
    ensures OccupiedSet(d) == hot
    ensures a.transitionedSlots == a.occupiedSlots - a.keptSlots
    ensures b.transitionedSlots == 0 && OsOnly(cfg, e, f)
  {
    var cold := OccupiedSet(c) - hot;
    forall s: nat | s < cfg.slotCount ensures s in OccupiedSet(d) <==> s in hot {
      assert DiscardAt(cfg, c, d, cold, s);
    }
    assert OccupiedSet(d) == hot;
    assert OccupiedSet(c) == cold + hot;
    OsKeepsIdentities(cfg, d, e);
    assert OccupiedSet(e) == hot;
    SubsetIsNoLarger(hot, OccupiedSet(c));
    SubsetOfSameSizeIsEqual(hot', OccupiedSet(e));
    assert OccupiedSet(e) - hot' == {};
    forall s: nat | s < cfg.slotCount ensures OsOnlyAt(cfg, e, f, s) {
      assert DiscardAt(cfg, e, f, {}, s);
    }
  }
}
