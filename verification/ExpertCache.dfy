/** The slot cache of one routed-expert layer, as an event system on values.

  A slot has an identity and a recency stamp, a residency the cache tracks, and a hidden
  physical side: the purgeable state of its Metal buffer and the bytes in it. Everything
  that can happen to the cache, including what the operating system does on its own, is
  one `Event`. The class in PreadExpertStreamer.dfy is proved to perform only legal runs
  of these events, so what is proved here of every legal run holds of every use of it. */
module ExpertCache {
  import opened Seals

  newtype byte = x: int | 0 <= x < 256

  type Blob = seq<byte>

  /** Both the tracked residency and the purgeable state Metal reports. */
  datatype Residency = NonVolatile | Volatile | Empty

  /** The immutable side: the bytes of each expert in the layer file, the number of
      slots, and the allocation size of one slot. */
  datatype Config = Config(file: seq<Blob>, slotCount: nat, slotSize: nat)

  datatype Stats = Stats(
    volatileTransitions: nat,
    revalidations: nat,
    retained: nat,
    emptyRecoveries: nat,
    explicitDiscards: nat,
    invalidatedSlots: nat,
    reclaimedBytes: nat)

  /** The size of n slots: n times the allocation size (see SlotBytesIsProduct). */
  function SlotBytes(slotSize: nat, n: nat): nat {
    if n == 0 then 0 else SlotBytes(slotSize, n - 1) + slotSize
  }

  lemma {:induction false} SlotBytesIsProduct(slotSize: nat, n: nat)
    ensures SlotBytes(slotSize, n) == n * slotSize
  {
    if n > 0 { SlotBytesIsProduct(slotSize, n - 1); }
  }

  /** No counter has ever moved. */
  predicate NoActivity(t: Stats) {
    t.volatileTransitions + t.revalidations + t.retained + t.emptyRecoveries
    + t.explicitDiscards + t.invalidatedSlots + t.reclaimedBytes == 0
  }

  const FREE: int := -1

  datatype Cache = Cache(
    expert: seq<int>,
    lastUse: seq<int>,
    useCount: seq<int>,
    tracked: seq<Residency>,
    phys: seq<Residency>,
    bytes: seq<Blob>,
    stats: Stats)

  ghost predicate Sized(cfg: Config, c: Cache) {
    && |c.expert| == |c.lastUse| == |c.tracked| == |c.phys| == |c.bytes| == cfg.slotCount
    && |c.useCount| == (if |cfg.file| == 0 then 1 else |cfg.file|)
  }

  /** A new cache: every slot free and nonvolatile, with whatever bytes were allocated. */
  ghost predicate Fresh(cfg: Config, c: Cache) {
    && Sized(cfg, c)
    && c.stats == Stats(0, 0, 0, 0, 0, 0, 0)
    && (forall s :: 0 <= s < cfg.slotCount ==>
        c.expert[s] == FREE && c.tracked[s] == NonVolatile && c.phys[s] == NonVolatile)
  }

  // ----- Events -----------------------------------------------------------------

  datatype Event =
    | Reclaim(slot: nat, junk: Blob)                          // the OS empties a volatile buffer
    | Relock(slot: nat)                                       // ensureSlotNonVolatileLocked
    | Offer(slot: nat)                                        // a cold slot becomes volatile
    | Discard(slot: nat, junk: Blob)                          // a cold slot is emptied outright
    | Forget(slot: nat)                                       // planning drops a victim's identity
    | Touch(slot: nat, stamp: int, uses: int)                 // recency and LFU update of a hit
    | Fill(slot: nat, expert: nat, stamp: int, uses: int)     // complete read, then publication

  ghost predicate Legal(cfg: Config, c: Cache, e: Event)
    requires Sized(cfg, c)
  {
    && e.slot < cfg.slotCount
    && match e
       case Reclaim(s, _) => c.phys[s] == Volatile
       case Relock(_) => true
       case Offer(s) => c.expert[s] >= 0 && c.tracked[s] == NonVolatile
       case Discard(s, _) => c.expert[s] >= 0
       case Forget(_) => true
       case Touch(s, _, _) => 0 <= c.expert[s] < |cfg.file| && c.tracked[s] == NonVolatile
       case Fill(s, x, _, _) => x < |cfg.file| && c.tracked[s] == NonVolatile
  }

  /** Whether a relock finds that the slot's contents are gone. */
  predicate FoundEmpty(c: Cache, s: nat)
    requires s < |c.tracked| && s < |c.phys|
  {
    c.tracked[s] == Empty || c.phys[s] == Empty
  }

  function Relocked(cfg: Config, c: Cache, s: nat): Cache
    requires Sized(cfg, c) && s < cfg.slotCount
  {
    if c.tracked[s] == NonVolatile then
      c
    else
      var locked := c.(
        tracked := c.tracked[s := NonVolatile],
        phys := c.phys[s := NonVolatile],
        stats := c.stats.(revalidations := c.stats.revalidations + 1));
      if !FoundEmpty(c, s) then
        locked.(stats := locked.stats.(retained := c.stats.retained + 1))
      else
        var recovered := locked.(stats := locked.stats.(
          emptyRecoveries := c.stats.emptyRecoveries + 1,
          reclaimedBytes := c.stats.reclaimedBytes + cfg.slotSize));
        if c.expert[s] >= 0 then
          recovered.(
            expert := c.expert[s := FREE],
            lastUse := c.lastUse[s := 0],
            stats := recovered.stats.(invalidatedSlots := c.stats.invalidatedSlots + 1))
        else
          recovered
  }

  function Apply(cfg: Config, c: Cache, e: Event): Cache
    requires Sized(cfg, c) && Legal(cfg, c, e)
  {
    match e
    case Reclaim(s, junk) =>
      c.(phys := c.phys[s := Empty], bytes := c.bytes[s := junk])
    case Relock(s) =>
      Relocked(cfg, c, s)
    case Offer(s) =>
      c.(phys := c.phys[s := Volatile],
         tracked := c.tracked[s := Volatile],
         stats := c.stats.(volatileTransitions := c.stats.volatileTransitions + 1))
    case Discard(s, junk) =>
      c.(phys := c.phys[s := Empty],
         bytes := c.bytes[s := junk],
         tracked := c.tracked[s := Empty],
         expert := c.expert[s := FREE],
         lastUse := c.lastUse[s := 0],
         stats := c.stats.(explicitDiscards := c.stats.explicitDiscards + 1,
                           invalidatedSlots := c.stats.invalidatedSlots + 1))
    case Forget(s) =>
      c.(expert := c.expert[s := FREE])
    case Touch(s, stamp, uses) =>
      c.(lastUse := c.lastUse[s := stamp], useCount := c.useCount[c.expert[s] := uses])
    case Fill(s, x, stamp, uses) =>
      c.(bytes := c.bytes[s := cfg.file[x]],
         expert := c.expert[s := x],
         lastUse := c.lastUse[s := stamp],
         useCount := c.useCount[x := uses])
  }

  /** A legal run, and the cache it ends in. */
  ghost predicate LegalRun(cfg: Config, c: Cache, es: seq<Event>)
    requires Sized(cfg, c)
    decreases |es|, 0
  {
    es == [] ||
    (LegalRun(cfg, c, es[..|es| - 1]) &&
     Legal(cfg, Run(cfg, c, es[..|es| - 1]), es[|es| - 1]))
  }

  ghost function Run(cfg: Config, c: Cache, es: seq<Event>): (r: Cache)
    requires Sized(cfg, c) && LegalRun(cfg, c, es)
    ensures Sized(cfg, r)
    decreases |es|, 1
  {
    if es == [] then c
    else Apply(cfg, Run(cfg, c, es[..|es| - 1]), es[|es| - 1])
  }

  lemma ExtendRun(cfg: Config, c: Cache, es: seq<Event>, e: Event)
    requires Sized(cfg, c) && LegalRun(cfg, c, es) && Legal(cfg, Run(cfg, c, es), e)
    ensures LegalRun(cfg, c, es + [e])
    ensures Run(cfg, c, es + [e]) == Apply(cfg, Run(cfg, c, es), e)
  {
    assert (es + [e])[..|es + [e]| - 1] == es;
  }

  // ----- What every step keeps ---------------------------------------------------

  /** What a plain, uncached read of the requested experts returns. */
  function FileBytes(cfg: Config, experts: seq<nat>): (blobs: seq<Blob>)
    requires forall i :: 0 <= i < |experts| ==> experts[i] < |cfg.file|
  {
    seq(|experts|, i requires 0 <= i < |experts| => cfg.file[experts[i]])
  }

  /** The bytes of slot s are the published expert's bytes in the file. */
  ghost predicate Exact(cfg: Config, c: Cache, s: nat)
    requires Sized(cfg, c) && s < cfg.slotCount
  {
    c.expert[s] >= 0 ==> c.expert[s] < |cfg.file| && c.bytes[s] == cfg.file[c.expert[s]]
  }

  /** How the tracked residency of a slot ties its identity to its physical side. */
  ghost predicate CoupledSlot(cfg: Config, c: Cache, s: nat)
    requires Sized(cfg, c) && s < cfg.slotCount
  {
    && c.expert[s] >= FREE
    && match c.tracked[s]
       case NonVolatile => c.phys[s] == NonVolatile && Exact(cfg, c, s)
       case Volatile =>
         && c.phys[s] != NonVolatile
         && c.expert[s] < |cfg.file|
         && (c.phys[s] == Volatile ==> Exact(cfg, c, s))
       case Empty => c.expert[s] == FREE && c.phys[s] == Empty
  }

  ghost predicate Coupled(cfg: Config, c: Cache)
    requires Sized(cfg, c)
  {
    forall s: nat :: s < cfg.slotCount ==> CoupledSlot(cfg, c, s)
  }

  lemma ApplyKeepsCoupling(cfg: Config, c: Cache, e: Event)
    requires Sized(cfg, c) && Coupled(cfg, c) && Legal(cfg, c, e)
    ensures Sized(cfg, Apply(cfg, c, e)) && Coupled(cfg, Apply(cfg, c, e))
  {
    var d := Apply(cfg, c, e);
    forall s: nat | s < cfg.slotCount ensures CoupledSlot(cfg, d, s) {
      assert CoupledSlot(cfg, c, s);
    }
  }

  lemma {:induction false} RunKeepsCoupling(cfg: Config, c: Cache, es: seq<Event>)
    requires Sized(cfg, c) && Coupled(cfg, c) && LegalRun(cfg, c, es)
    ensures Coupled(cfg, Run(cfg, c, es))
  {
    if es != [] {
      RunKeepsCoupling(cfg, c, es[..|es| - 1]);
      ApplyKeepsCoupling(cfg, Run(cfg, c, es[..|es| - 1]), es[|es| - 1]);
    }
  }

  /** No expert is published in two slots. */
  ghost predicate Unique(c: Cache) {
    forall s, t :: 0 <= s < t < |c.expert| && c.expert[s] >= 0 ==> c.expert[s] != c.expert[t]
  }

  /** No other slot names the expert this event publishes, if it publishes one. */
  ghost predicate Apart(c: Cache, e: Event) {
    e.Fill? ==> forall t :: 0 <= t < |c.expert| && t != e.slot ==> c.expert[t] != e.expert
  }

  /** Publishing an expert that another slot names is the only step that can end uniqueness,
      and it always does. */
  lemma ApplyKeepsUnique(cfg: Config, c: Cache, e: Event)
    requires Sized(cfg, c) && Legal(cfg, c, e) && Unique(c)
    ensures Unique(Apply(cfg, c, e)) <==> Apart(c, e)
  {
    var d := Apply(cfg, c, e);
    if t :| e.Fill? && 0 <= t < |c.expert| && t != e.slot && c.expert[t] == e.expert {
      assert d.expert[t] == d.expert[e.slot] == e.expert;
    }
  }

  lemma LosingKeepsUnique(c: Cache, d: Cache)
    requires Unique(c) && |c.expert| == |d.expert|
    requires forall s :: 0 <= s < |c.expert| ==> d.expert[s] == c.expert[s] || d.expert[s] == FREE
    ensures Unique(d)
  {
  }

  ghost predicate NeverPurges(es: seq<Event>) {
    forall i :: 0 <= i < |es| ==> !es[i].Offer? && !es[i].Discard?
  }

  ghost predicate RunLeadsTo(cfg: Config, c0: Cache, es: seq<Event>, c: Cache, apart: bool, purged: bool) {
    && Fresh(cfg, c0) && LegalRun(cfg, c0, es) && c == Run(cfg, c0, es)
    && (apart ==> Unique(c)) && (purged <==> !NeverPurges(es))
  }

  /** c is where the legal run es leads from the fresh cache c0, its identities distinct if
      all that was published was apart; purged says whether a slot was ever offered or discarded.
      The run is sealed, so that proofs about the class do not unfold it; UnsealRun gives it back. */
  ghost predicate Reached(cfg: Config, c0: Cache, es: seq<Event>, c: Cache, apart: bool, purged: bool) {
    && Sized(cfg, c) && Coupled(cfg, c)
    && forall key {:trigger Unsealed(key)} :: Unsealed(key) ==> RunLeadsTo(cfg, c0, es, c, apart, purged)
  }

  lemma UnsealRun(cfg: Config, c0: Cache, es: seq<Event>, c: Cache, apart: bool, purged: bool)
    requires Reached(cfg, c0, es, c, apart, purged)
    ensures Fresh(cfg, c0) && LegalRun(cfg, c0, es) && c == Run(cfg, c0, es)
    ensures (apart ==> Unique(c)) && (purged <==> !NeverPurges(es))
  {
    assert Unsealed(0);
  }

  lemma StartRun(cfg: Config, c0: Cache)
    requires Fresh(cfg, c0)
    ensures Reached(cfg, c0, [], c0, true, false)
  {
    forall s: nat | s < cfg.slotCount ensures CoupledSlot(cfg, c0, s) {
    }
  }

  lemma PurgesMore(es: seq<Event>, e: Event)
    ensures NeverPurges(es + [e]) <==> NeverPurges(es) && !e.Offer? && !e.Discard?
  {
    assert (es + [e])[|es|] == e && forall i :: 0 <= i < |es| ==> (es + [e])[i] == es[i];
    if NeverPurges(es + [e]) {
      forall i | 0 <= i < |es| ensures !es[i].Offer? && !es[i].Discard? {
        assert (es + [e])[i] == es[i];
      }
    }
  }

  /** A run goes one event further, and stays apart if that event is. */
  lemma Advance(
    cfg: Config, c0: Cache, es: seq<Event>, c: Cache, apart: bool, purged: bool, e: Event, apart': bool, purged': bool)
    requires Reached(cfg, c0, es, c, apart, purged) && Legal(cfg, c, e)
    requires (apart' ==> apart && Apart(c, e)) && (purged' <==> purged || e.Offer? || e.Discard?)
    ensures Reached(cfg, c0, es + [e], Apply(cfg, c, e), apart', purged')
  {
    UnsealRun(cfg, c0, es, c, apart, purged);
    ExtendRun(cfg, c0, es, e);
    ApplyKeepsCoupling(cfg, c, e);
    PurgesMore(es, e);
    if apart' {
      ApplyKeepsUnique(cfg, c, e);
    }
  }

  // ----- Reload correctness ------------------------------------------------------

  ghost predicate OnlyReclaims(es: seq<Event>) {
    forall i :: 0 <= i < |es| ==> es[i].Reclaim?
  }

  /** A locked slot is out of the operating system's reach, however long it acts. */
  lemma {:induction false} LockedSlotSurvivesReclaims(cfg: Config, c: Cache, es: seq<Event>, s: nat)
    requires Sized(cfg, c) && Coupled(cfg, c) && LegalRun(cfg, c, es) && OnlyReclaims(es)
    requires s < cfg.slotCount && c.tracked[s] == NonVolatile
    ensures
      var d := Run(cfg, c, es);
      && d.tracked[s] == NonVolatile && d.phys[s] == NonVolatile
      && d.expert[s] == c.expert[s] && d.bytes[s] == c.bytes[s]
  {
    assert CoupledSlot(cfg, c, s);
    if es != [] {
      var prefix := es[..|es| - 1];
      LockedSlotSurvivesReclaims(cfg, c, prefix, s);
      assert es[|es| - 1].Reclaim?;
    }
  }

  /** Reload correctness of a hit. Take any legal run of a fresh cache, in which the OS may
      have emptied any offered slot at any moment. If relocking a slot that names expert x
      reports its contents valid, then x's exact file bytes are what the GPU reads, whatever
      the OS does before it reads them. If it reports them gone, the slot names no expert. */
  lemma RelockedHitReadsFileBytes(
    cfg: Config, c: Cache, es: seq<Event>, s: nat, later: seq<Event>)
    requires Fresh(cfg, c) && LegalRun(cfg, c, es)
    requires s < cfg.slotCount && Run(cfg, c, es).expert[s] >= 0
    requires OnlyReclaims(later) && LegalRun(cfg, Relocked(cfg, Run(cfg, c, es), s), later)
    ensures
      var d := Run(cfg, c, es);
      var x := d.expert[s];
      var used := Run(cfg, Relocked(cfg, d, s), later);
      && x < |cfg.file|
      && (d.tracked[s] == NonVolatile || !FoundEmpty(d, s) ==>
            used.expert[s] == x && used.phys[s] == NonVolatile && used.bytes[s] == cfg.file[x])
      && (d.tracked[s] != NonVolatile && FoundEmpty(d, s) ==> used.expert[s] == FREE)
  {
    RunKeepsCoupling(cfg, c, es);
    var d := Run(cfg, c, es);
    assert CoupledSlot(cfg, d, s);
    assert Legal(cfg, d, Relock(s)) && Apply(cfg, d, Relock(s)) == Relocked(cfg, d, s);
    ApplyKeepsCoupling(cfg, d, Relock(s));
    LockedSlotSurvivesReclaims(cfg, Relocked(cfg, d, s), later, s);
  }

  // ----- Telemetry conservation --------------------------------------------------

  ghost function Tracking(c: Cache, r: Residency): nat {
    multiset(c.tracked)[r]
  }

  ghost predicate HitsNonVolatile(c: Cache, e: Event) {
    e.Discard? && e.slot < |c.tracked| && c.tracked[e.slot] == NonVolatile
  }

  ghost predicate RecoversForgotten(c: Cache, e: Event) {
    && e.Relock? && e.slot < |c.tracked| == |c.phys| == |c.expert|
    && c.tracked[e.slot] == Volatile && c.phys[e.slot] == Empty && c.expert[e.slot] == FREE
  }

  /** Discards that hit a slot still nonvolatile, counted over a run. */
  ghost function NonVolatileDiscards(cfg: Config, c: Cache, es: seq<Event>): nat
    requires Sized(cfg, c) && LegalRun(cfg, c, es)
  {
    if es == [] then 0
    else
      var prefix := es[..|es| - 1];
      NonVolatileDiscards(cfg, c, prefix) +
      (if HitsNonVolatile(Run(cfg, c, prefix), es[|es| - 1]) then 1 else 0)
  }

  /** Relocks that find an emptied volatile slot whose identity planning had dropped. */
  ghost function ForgottenRecoveries(cfg: Config, c: Cache, es: seq<Event>): nat
    requires Sized(cfg, c) && LegalRun(cfg, c, es)
  {
    if es == [] then 0
    else
      var prefix := es[..|es| - 1];
      ForgottenRecoveries(cfg, c, prefix) +
      (if RecoversForgotten(Run(cfg, c, prefix), es[|es| - 1]) then 1 else 0)
  }

  /** The balance of the counters in every reachable state. */
  ghost predicate Balanced(cfg: Config, c: Cache, nonVolatileDiscards: nat, forgotten: nat) {
    var t := c.stats;
    && t.revalidations == t.retained + t.emptyRecoveries
    && t.reclaimedBytes == SlotBytes(cfg.slotSize, t.emptyRecoveries)
    && t.explicitDiscards <= t.invalidatedSlots
    && t.invalidatedSlots + forgotten == t.emptyRecoveries + Tracking(c, Empty)
    && Tracking(c, Volatile) + Tracking(c, Empty) + t.revalidations
       == t.volatileTransitions + nonVolatileDiscards
  }

  lemma TrackingUpdate(c: Cache, d: Cache, s: nat, r: Residency)
    requires s < |c.tracked| && d.tracked == c.tracked[s := r]
    ensures forall q ::
      Tracking(d, q) == Tracking(c, q) + (if q == r then 1 else 0) - (if q == c.tracked[s] then 1 else 0)
  {
    assert multiset(d.tracked) == multiset(c.tracked) - multiset{c.tracked[s]} + multiset{r};
    assert c.tracked[s] in multiset(c.tracked);
  }

  lemma ApplyKeepsBalance(cfg: Config, c: Cache, e: Event, discards: nat, forgotten: nat)
    requires Sized(cfg, c) && Coupled(cfg, c) && Legal(cfg, c, e)
    requires Balanced(cfg, c, discards, forgotten)
    ensures Balanced(cfg, Apply(cfg, c, e),
                     discards + (if HitsNonVolatile(c, e) then 1 else 0),
                     forgotten + (if RecoversForgotten(c, e) then 1 else 0))
  {
    var s, d := e.slot, Apply(cfg, c, e);
    assert CoupledSlot(cfg, c, s);
    if d.tracked != c.tracked {
      TrackingUpdate(c, d, s, d.tracked[s]);
    }
  }

  lemma {:induction false} EveryRunBalances(cfg: Config, c: Cache, es: seq<Event>)
    requires Fresh(cfg, c) && LegalRun(cfg, c, es)
    ensures Balanced(cfg, Run(cfg, c, es),
                     NonVolatileDiscards(cfg, c, es), ForgottenRecoveries(cfg, c, es))
  {
    if es == [] {
      assert forall r | r != NonVolatile :: r !in c.tracked;
    } else {
      var prefix := es[..|es| - 1];
      EveryRunBalances(cfg, c, prefix);
      RunKeepsCoupling(cfg, c, prefix);
      ApplyKeepsBalance(cfg, Run(cfg, c, prefix), es[|es| - 1],
                        NonVolatileDiscards(cfg, c, prefix), ForgottenRecoveries(cfg, c, prefix));
    }
  }

  // ----- Fixed residency ---------------------------------------------------------

  /** The new state machine has never been entered. */
  ghost predicate FullyResident(cfg: Config, c: Cache)
    requires Sized(cfg, c)
  {
    && NoActivity(c.stats)
    && forall s: nat :: s < cfg.slotCount ==> c.tracked[s] == NonVolatile && c.phys[s] == NonVolatile
  }

  lemma StepStaysResident(cfg: Config, c: Cache, e: Event)
    requires Sized(cfg, c) && FullyResident(cfg, c) && Legal(cfg, c, e) && !e.Offer? && !e.Discard?
    ensures !e.Reclaim? && Sized(cfg, Apply(cfg, c, e)) && FullyResident(cfg, Apply(cfg, c, e))
  {
  }

  lemma PrefixNeverPurges(es: seq<Event>)
    requires NeverPurges(es) && es != []
    ensures NeverPurges(es[..|es| - 1]) && !es[|es| - 1].Offer? && !es[|es| - 1].Discard?
  {
  }

  ghost predicate NoReclaims(es: seq<Event>) {
    forall i :: 0 <= i < |es| ==> !es[i].Reclaim?
  }

  lemma NoReclaimsGrow(es: seq<Event>)
    requires es != [] && NoReclaims(es[..|es| - 1]) && !es[|es| - 1].Reclaim?
    ensures NoReclaims(es)
  {
  }

  /** Without offers and discards every slot stays nonvolatile, no counter moves, and there is
      nothing the operating system may take. */
  lemma {:induction false} FixedRunStaysResident(cfg: Config, c: Cache, es: seq<Event>)
    requires Fresh(cfg, c) && LegalRun(cfg, c, es) && NeverPurges(es)
    ensures Sized(cfg, Run(cfg, c, es)) && FullyResident(cfg, Run(cfg, c, es)) && NoReclaims(es)
  {
    if es != [] {
      PrefixNeverPurges(es);
      FixedRunStaysResident(cfg, c, es[..|es| - 1]);
      StepStaysResident(cfg, Run(cfg, c, es[..|es| - 1]), es[|es| - 1]);
      NoReclaimsGrow(es);
    }
  }
}
