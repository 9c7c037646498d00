/** Whole generations: many layers, prefill chunks and decode steps, with the residency policy
    applied at the two safe points.

    The router is any function of everything the GPU has read so far. `Uncached` is the same
    generation on a machine with no cache at all, where every request is read from the file.
    A generation over the cache is proved to observe exactly what the uncached one observes,
    whatever the residency policy, the victims chosen and the memory the OS takes. */
module ForwardRunner {
  import opened Options
  import opened Seals
  import opened ExpertCache
  import opened HotSet
  import opened SafePoint
  import opened ExpertPlan
  import opened ExpertTally
  import opened Streamer

  /** What the GPU has read, one entry a request; ok is false after a failed read. */
  datatype Outcome = Outcome(log: seq<seq<Blob>>, ok: bool)

  type Router = seq<seq<Blob>> -> seq<nat>

  /** The experts a layer is asked for once the GPU has read all this. */
  function Routed(router: Router, log: seq<seq<Blob>>): seq<nat> {
    router(log)
  }

  predicate InFile(cfg: Config, experts: seq<nat>) {
    forall i :: 0 <= i < |experts| ==> experts[i] < |cfg.file|
  }

  // ----- The reference: no cache at all --------------------------------------------

  function ReadOne(layers: seq<Config>, router: Router, o: Outcome, layer: nat): Outcome
    requires layer < |layers|
  {
    if o.ok && InFile(layers[layer], Routed(router, o.log)) then
      Outcome(o.log + [FileBytes(layers[layer], Routed(router, o.log))], true)
    else
      o.(ok := false)
  }

  /** One request to each layer of `order` in turn. */
  ghost function Uncached(layers: seq<Config>, router: Router, o: Outcome, order: seq<nat>): Outcome
    requires forall i :: 0 <= i < |order| ==> order[i] < |layers|
  {
    if order == [] then o
    else ReadOne(layers, router, Uncached(layers, router, o, order[..|order| - 1]), order[|order| - 1])
  }

  ghost predicate LayerOrder(order: seq<nat>, n: nat) {
    forall i :: 0 <= i < |order| ==> order[i] < n
  }

  lemma {:induction false} UncachedInTurn(
    layers: seq<Config>, router: Router, o: Outcome, first: seq<nat>, second: seq<nat>)
    requires LayerOrder(first, |layers|) && LayerOrder(second, |layers|)
    ensures LayerOrder(first + second, |layers|)
    ensures Uncached(layers, router, o, first + second)
         == Uncached(layers, router, Uncached(layers, router, o, first), second)
  {
    var both := first + second;
    if second == [] {
      assert both == first;
    } else {
      UncachedInTurn(layers, router, o, first, second[..|second| - 1]);
      assert both[..|both| - 1] == first + second[..|second| - 1];
    }
  }

  lemma {:induction false} FailureIsFinal(layers: seq<Config>, router: Router, o: Outcome, order: seq<nat>)
    requires LayerOrder(order, |layers|) && !o.ok
    ensures Uncached(layers, router, o, order) == o
  {
    if order != [] {
      FailureIsFinal(layers, router, o, order[..|order| - 1]);
    }
  }

  /** Once a prefix of the work has failed, the rest adds nothing. */
  lemma FailedPrefix(layers: seq<Config>, router: Router, o: Outcome, first: seq<nat>, second: seq<nat>)
    requires LayerOrder(first, |layers|) && LayerOrder(second, |layers|)
    requires !Uncached(layers, router, o, first).ok
    ensures LayerOrder(first + second, |layers|)
    ensures Uncached(layers, router, o, first + second) == Uncached(layers, router, o, first)
  {
    UncachedInTurn(layers, router, o, first, second);
    FailureIsFinal(layers, router, Uncached(layers, router, o, first), second);
  }

  /** n requests to one layer. */
  ghost function Tiles(layer: nat, n: nat): (order: seq<nat>)
    ensures |order| == n && forall i :: 0 <= i < n ==> order[i] == layer
  {
    seq(n, i => layer)
  }

  /** One more tile of a layer, or the failure of all of them. */
  lemma TileOutcome(
    layers: seq<Config>, router: Router, start: Outcome, layer: nat, tiles: nat, t: nat, o: Outcome, r: Outcome)
    requires layer < |layers| && t < tiles && o == Uncached(layers, router, start, Tiles(layer, t))
    requires r == ReadOne(layers, router, o, layer)
    ensures r == Uncached(layers, router, start, Tiles(layer, if r.ok then t + 1 else tiles))
  {
    assert Tiles(layer, t + 1)[..t] == Tiles(layer, t);
    if !r.ok {
      FailedPrefix(layers, router, start, Tiles(layer, t + 1), Tiles(layer, tiles - t - 1));
      assert Tiles(layer, t + 1) + Tiles(layer, tiles - t - 1) == Tiles(layer, tiles);
    }
  }

  /** One prefill chunk: layer by layer, each with its tiles. */
  ghost function ChunkOrder(tiles: seq<nat>): (order: seq<nat>)
    ensures LayerOrder(order, |tiles|)
  {
    if tiles == [] then []
    else ChunkOrder(tiles[..|tiles| - 1]) + Tiles(|tiles| - 1, tiles[|tiles| - 1])
  }

  /** One decode step: each layer once. */
  ghost function StepOrder(n: nat): (order: seq<nat>)
    ensures LayerOrder(order, n)
  {
    seq(n, i requires 0 <= i < n => i)
  }

  ghost function PrefillOrder(chunks: seq<seq<nat>>, n: nat): (order: seq<nat>)
    requires forall i :: 0 <= i < |chunks| ==> |chunks[i]| == n
    ensures LayerOrder(order, n)
  {
    if chunks == [] then []
    else PrefillOrder(chunks[..|chunks| - 1], n) + ChunkOrder(chunks[|chunks| - 1])
  }

  ghost function DecodeOrder(steps: nat, n: nat): (order: seq<nat>)
    ensures LayerOrder(order, n)
  {
    if steps == 0 then [] else DecodeOrder(steps - 1, n) + StepOrder(n)
  }

  lemma ChunkGrows(layers: seq<Config>, router: Router, o: Outcome, tiles: seq<nat>, n: nat)
    requires n < |tiles| <= |layers|
    ensures LayerOrder(ChunkOrder(tiles[..n]), |layers|) && LayerOrder(ChunkOrder(tiles[..n + 1]), |layers|)
    ensures Uncached(layers, router, o, ChunkOrder(tiles[..n + 1]))
         == Uncached(layers, router, Uncached(layers, router, o, ChunkOrder(tiles[..n])), Tiles(n, tiles[n]))
  {
    assert tiles[..n + 1][..n] == tiles[..n];
    assert LayerOrder(ChunkOrder(tiles[..n]), n);
    UncachedInTurn(layers, router, o, ChunkOrder(tiles[..n]), Tiles(n, tiles[n]));
  }

  lemma {:induction false} ChunkFailsEarly(
    layers: seq<Config>, router: Router, o: Outcome, tiles: seq<nat>, n: nat)
    requires n <= |tiles| <= |layers|
    requires LayerOrder(ChunkOrder(tiles[..n]), |layers|) && LayerOrder(ChunkOrder(tiles), |layers|)
    requires !Uncached(layers, router, o, ChunkOrder(tiles[..n])).ok
    ensures Uncached(layers, router, o, ChunkOrder(tiles)) == Uncached(layers, router, o, ChunkOrder(tiles[..n]))
  {
    if n == |tiles| {
      assert tiles[..n] == tiles;
    } else {
      var m := |tiles| - 1;
      assert tiles[..m][..n] == tiles[..n];
      assert LayerOrder(ChunkOrder(tiles[..m]), m);
      ChunkFailsEarly(layers, router, o, tiles[..m], n);
      FailedPrefix(layers, router, o, ChunkOrder(tiles[..m]), Tiles(m, tiles[m]));
    }
  }

  lemma StepGrows(layers: seq<Config>, router: Router, o: Outcome, n: nat)
    requires n < |layers|
    ensures
      var order := StepOrder(|layers|);
      Uncached(layers, router, o, order[..n + 1])
        == ReadOne(layers, router, Uncached(layers, router, o, order[..n]), n)
  {
    var order := StepOrder(|layers|);
    assert order[..n + 1][..n] == order[..n];
  }

  lemma StepFailsEarly(layers: seq<Config>, router: Router, o: Outcome, n: nat)
    requires n <= |layers| && !Uncached(layers, router, o, StepOrder(|layers|)[..n]).ok
    ensures Uncached(layers, router, o, StepOrder(|layers|)) == Uncached(layers, router, o, StepOrder(|layers|)[..n])
  {
    var order := StepOrder(|layers|);
    FailedPrefix(layers, router, o, order[..n], order[n..]);
    assert order[..n] + order[n..] == order;
  }

  lemma StepFails(layers: seq<Config>, router: Router, o: Outcome, n: nat, r: Outcome)
    requires n <= |layers| && !r.ok && r == Uncached(layers, router, o, StepOrder(|layers|)[..n])
    ensures r == Uncached(layers, router, o, StepOrder(|layers|)[..|layers|])
  {
    StepFailsEarly(layers, router, o, n);
    assert StepOrder(|layers|)[..|layers|] == StepOrder(|layers|);
  }

  /** The outcome of the first n reads of a decode step on the uncached machine; sealed. */
  ghost predicate StepReads(layers: seq<Config>, router: Router, start: Outcome, n: nat, r: Outcome) {
    && n <= |layers|
    && forall key {:trigger StepUnsealed(key)} :: StepUnsealed(key) ==>
         r == Uncached(layers, router, start, StepOrder(|layers|)[..n])
  }

  /** One more layer of a step, or the failure of the whole step. */
  lemma StepOutcome(layers: seq<Config>, router: Router, start: Outcome, n: nat, o: Outcome, r: Outcome)
    requires n < |layers| && StepReads(layers, router, start, n, o)
    requires r == ReadOne(layers, router, o, n)
    ensures StepReads(layers, router, start, if r.ok then n + 1 else |layers|, r)
  {
    assert StepUnsealed(0);
    StepGrows(layers, router, start, n);
    if !r.ok {
      StepFails(layers, router, start, n + 1, r);
    }
  }

  lemma StepStarts(layers: seq<Config>, router: Router, start: Outcome)
    ensures StepReads(layers, router, start, 0, start)
  {
  }

  lemma StepEnds(layers: seq<Config>, router: Router, start: Outcome, r: Outcome)
    requires StepReads(layers, router, start, |layers|, r)
    ensures r == Uncached(layers, router, start, StepOrder(|layers|))
  {
    assert StepUnsealed(0) && StepOrder(|layers|)[..|layers|] == StepOrder(|layers|);
  }

  lemma PrefillGrows(layers: seq<Config>, router: Router, o: Outcome, chunks: seq<seq<nat>>, n: nat)
    requires n < |chunks| && forall i :: 0 <= i < |chunks| ==> |chunks[i]| == |layers|
    ensures Uncached(layers, router, o, PrefillOrder(chunks[..n + 1], |layers|))
         == Uncached(layers, router, Uncached(layers, router, o, PrefillOrder(chunks[..n], |layers|)),
                     ChunkOrder(chunks[n]))
  {
    assert chunks[..n + 1][..n] == chunks[..n];
    UncachedInTurn(layers, router, o, PrefillOrder(chunks[..n], |layers|), ChunkOrder(chunks[n]));
  }

  lemma {:induction false} PrefillFailsEarly(
    layers: seq<Config>, router: Router, o: Outcome, chunks: seq<seq<nat>>, n: nat)
    requires n <= |chunks| && forall i :: 0 <= i < |chunks| ==> |chunks[i]| == |layers|
    requires !Uncached(layers, router, o, PrefillOrder(chunks[..n], |layers|)).ok
    ensures Uncached(layers, router, o, PrefillOrder(chunks, |layers|))
         == Uncached(layers, router, o, PrefillOrder(chunks[..n], |layers|))
  {
    if n == |chunks| {
      assert chunks[..n] == chunks;
    } else {
      var m := |chunks| - 1;
      assert chunks[..m][..n] == chunks[..n];
      PrefillFailsEarly(layers, router, o, chunks[..m], n);
      FailedPrefix(layers, router, o, PrefillOrder(chunks[..m], |layers|), ChunkOrder(chunks[m]));
    }
  }

  lemma DecodeGrows(layers: seq<Config>, router: Router, o: Outcome, n: nat)
    ensures Uncached(layers, router, o, DecodeOrder(n + 1, |layers|))
         == Uncached(layers, router, Uncached(layers, router, o, DecodeOrder(n, |layers|)), StepOrder(|layers|))
  {
    UncachedInTurn(layers, router, o, DecodeOrder(n, |layers|), StepOrder(|layers|));
  }

  lemma {:induction false} DecodeFailsEarly(
    layers: seq<Config>, router: Router, o: Outcome, steps: nat, n: nat)
    requires n <= steps
    requires !Uncached(layers, router, o, DecodeOrder(n, |layers|)).ok
    ensures Uncached(layers, router, o, DecodeOrder(steps, |layers|))
         == Uncached(layers, router, o, DecodeOrder(n, |layers|))
  {
    if n < steps {
      DecodeFailsEarly(layers, router, o, steps - 1, n);
      FailedPrefix(layers, router, o, DecodeOrder(steps - 1, |layers|), StepOrder(|layers|));
    }
  }

  /** The outcome of so many decode steps on the uncached machine; sealed. */
  ghost predicate Decoded(layers: seq<Config>, router: Router, start: Outcome, steps: nat, r: Outcome) {
    forall key {:trigger StepUnsealed(key)} :: StepUnsealed(key) ==>
      r == Uncached(layers, router, start, DecodeOrder(steps, |layers|))
  }

  /** One more step, or the failure of all of them. */
  lemma DecodedOneMore(
    layers: seq<Config>, router: Router, start: Outcome, s: nat, steps: nat, o: Outcome, r: Outcome)
    requires s < steps && Decoded(layers, router, start, s, o)
    requires r == Uncached(layers, router, o, StepOrder(|layers|))
    ensures Decoded(layers, router, start, if r.ok then s + 1 else steps, r)
  {
    assert StepUnsealed(0);
    DecodeGrows(layers, router, start, s);
    if !r.ok {
      DecodeFailsEarly(layers, router, start, steps, s + 1);
    }
  }

  lemma FailedBefore(layers: seq<Config>, router: Router, o: Outcome, steps: nat)
    requires !o.ok
    ensures Decoded(layers, router, o, steps, o)
  {
    FailureIsFinal(layers, router, o, DecodeOrder(steps, |layers|));
  }

  lemma BothPhases(
    layers: seq<Config>, router: Router, start: Outcome, chunks: seq<seq<nat>>, steps: nat, r: Outcome)
    requires forall i :: 0 <= i < |chunks| ==> |chunks[i]| == |layers|
    requires Decoded(layers, router, Uncached(layers, router, start, PrefillOrder(chunks, |layers|)), steps, r)
    ensures r == Uncached(layers, router, start, PrefillOrder(chunks, |layers|) + DecodeOrder(steps, |layers|))
  {
    assert StepUnsealed(0);
    UncachedInTurn(layers, router, start, PrefillOrder(chunks, |layers|), DecodeOrder(steps, |layers|));
  }

  // ----- Counters summed over layers -----------------------------------------------

  function Plus(a: Stats, b: Stats): Stats {
    Stats(a.volatileTransitions + b.volatileTransitions,
          a.revalidations + b.revalidations,
          a.retained + b.retained,
          a.emptyRecoveries + b.emptyRecoveries,
          a.explicitDiscards + b.explicitDiscards,
          a.invalidatedSlots + b.invalidatedSlots,
          a.reclaimedBytes + b.reclaimedBytes)
  }

  /** The relations between counters that do not mention the slots themselves. */
  ghost predicate Additive(slotSize: nat, t: Stats) {
    && t.revalidations == t.retained + t.emptyRecoveries
    && t.reclaimedBytes == SlotBytes(slotSize, t.emptyRecoveries)
    && t.explicitDiscards <= t.invalidatedSlots
  }

  ghost function Sum(parts: seq<Stats>): Stats {
    if parts == [] then Stats(0, 0, 0, 0, 0, 0, 0)
    else Plus(Sum(parts[..|parts| - 1]), parts[|parts| - 1])
  }

  /** The additive relations survive the sum over layers. */
  lemma {:induction false} SumKeepsBalance(slotSize: nat, parts: seq<Stats>)
    requires forall i :: 0 <= i < |parts| ==> Additive(slotSize, parts[i])
    ensures Additive(slotSize, Sum(parts))
  {
    if parts != [] {
      SumKeepsBalance(slotSize, parts[..|parts| - 1]);
      PlusIsAdditive(slotSize, Sum(parts[..|parts| - 1]), parts[|parts| - 1]);
    }
  }

  lemma TotalIsAdditive(layers: seq<Config>, parts: seq<Stats>)
    requires |parts| == |layers| && forall i :: 0 <= i < |parts| ==> Additive(layers[i].slotSize, parts[i])
    ensures forall slotSize: nat :: (forall i :: 0 <= i < |layers| ==> layers[i].slotSize == slotSize) ==>
              Additive(slotSize, Sum(parts))
  {
    forall slotSize: nat | forall i :: 0 <= i < |layers| ==> layers[i].slotSize == slotSize
      ensures Additive(slotSize, Sum(parts))
    {
      SumKeepsBalance(slotSize, parts);
    }
  }

  /** Layers that were never purged contribute nothing. */
  lemma {:induction false} SumOfNothing(parts: seq<Stats>)
    requires forall i :: 0 <= i < |parts| ==> NoActivity(parts[i])
    ensures NoActivity(Sum(parts))
  {
    if parts != [] {
      SumOfNothing(parts[..|parts| - 1]);
    }
  }

  lemma PlusIsAdditive(slotSize: nat, a: Stats, b: Stats)
    requires Additive(slotSize, a) && Additive(slotSize, b)
    ensures Additive(slotSize, Plus(a, b))
  {
    SlotBytesOfSum(slotSize, a.emptyRecoveries, b.emptyRecoveries);
  }

  lemma {:induction false} SlotBytesOfSum(slotSize: nat, m: nat, n: nat)
    ensures SlotBytes(slotSize, m + n) == SlotBytes(slotSize, m) + SlotBytes(slotSize, n)
  {
    if n > 0 { SlotBytesOfSum(slotSize, m, n - 1); }
  }

  /** One layer went through a boundary call. Sealed like `Reached`, so that loops over layers
      do not unfold it. */
  ghost predicate Bounded(cfg: Config, k: int, before: Cache, hot: set<nat>, after: Cache, a: Action) {
    forall key {:trigger Unsealed(key)} :: Unsealed(key) ==>
      && Sized(cfg, before) && IsHotSet(before, k, hot) && UsedMost(before, k, hot)
      && BoundaryStep(cfg, before, hot, after, a)
  }

  /** One layer went through a discard call. */
  ghost predicate Discarded(cfg: Config, k: int, before: Cache, hot: set<nat>, after: Cache, a: Action) {
    forall key {:trigger Unsealed(key)} :: Unsealed(key) ==>
      && Sized(cfg, before) && IsHotSet(before, k, hot) && UsedMost(before, k, hot)
      && DiscardStep(cfg, before, hot, after, a)
  }

  function PlusAction(a: Action, b: Action): Action {
    Action(a.occupiedSlots + b.occupiedSlots, a.keptSlots + b.keptSlots,
           a.transitionedSlots + b.transitionedSlots, a.affectedBytes + b.affectedBytes)
  }

  ghost function SumOfActions(parts: seq<Action>): Action {
    if parts == [] then Action(0, 0, 0, 0)
    else PlusAction(SumOfActions(parts[..|parts| - 1]), parts[|parts| - 1])
  }

  lemma OneMoreAction(parts: seq<Action>, a: Action)
    ensures SumOfActions(parts + [a]) == PlusAction(SumOfActions(parts), a)
  {
    assert (parts + [a])[..|parts|] == parts;
  }

  // Which number of a layer goes into which number of the total.

  datatype Counter =
    | VolatileTransitions | Revalidations | Retained | EmptyRecoveries
    | ExplicitDiscards | InvalidatedSlots | ReclaimedBytes

  ghost function Count(t: Stats, counter: Counter): int {
    match counter
    case VolatileTransitions => t.volatileTransitions
    case Revalidations => t.revalidations
    case Retained => t.retained
    case EmptyRecoveries => t.emptyRecoveries
    case ExplicitDiscards => t.explicitDiscards
    case InvalidatedSlots => t.invalidatedSlots
    case ReclaimedBytes => t.reclaimedBytes
  }

  datatype Entry = OccupiedSlots | KeptSlots | TransitionedSlots | AffectedBytes

  ghost function Number(a: Action, entry: Entry): int {
    match entry
    case OccupiedSlots => a.occupiedSlots
    case KeptSlots => a.keptSlots
    case TransitionedSlots => a.transitionedSlots
    case AffectedBytes => a.affectedBytes
  }

  ghost function Added(xs: seq<int>): int {
    if xs == [] then 0 else xs[0] + Added(xs[1..])
  }

  lemma {:induction false} AddedAtEnd(xs: seq<int>, x: int)
    ensures Added(xs + [x]) == Added(xs) + x
  {
    if xs != [] {
      assert (xs + [x])[1..] == xs[1..] + [x];
      AddedAtEnd(xs[1..], x);
    }
  }

  ghost function Counts(parts: seq<Stats>, counter: Counter): seq<int> {
    seq(|parts|, i requires 0 <= i < |parts| => Count(parts[i], counter))
  }

  ghost function Numbers(parts: seq<Action>, entry: Entry): seq<int> {
    seq(|parts|, i requires 0 <= i < |parts| => Number(parts[i], entry))
  }

  /** Each counter of the total is the sum of that counter over the layers. */
  lemma {:induction false} SumAddsCounters(parts: seq<Stats>, counter: Counter)
    ensures Count(Sum(parts), counter) == Added(Counts(parts, counter))
  {
    if parts != [] {
      var n := |parts| - 1;
      SumAddsCounters(parts[..n], counter);
      AddedAtEnd(Counts(parts[..n], counter), Count(parts[n], counter));
      assert Counts(parts, counter) == Counts(parts[..n], counter) + [Count(parts[n], counter)];
    }
  }

  /** And each number of a summed report is the sum of that number over the layers' reports. */
  lemma {:induction false} SumAddsReports(parts: seq<Action>, entry: Entry)
    ensures Number(SumOfActions(parts), entry) == Added(Numbers(parts, entry))
  {
    if parts != [] {
      var n := |parts| - 1;
      SumAddsReports(parts[..n], entry);
      AddedAtEnd(Numbers(parts[..n], entry), Number(parts[n], entry));
      assert Numbers(parts, entry) == Numbers(parts[..n], entry) + [Number(parts[n], entry)];
    }
  }

  // ----- What a layer goes through ---------------------------------------------------

  /** The requests a layer gets while the log grows from length `from`, n of them. */
  ghost function Asked(router: Router, log: seq<seq<Blob>>, from: nat, n: nat): (reqs: seq<seq<nat>>)
    requires from + n <= |log|
  {
    seq(n, t requires 0 <= t < n => Routed(router, log[..from + t]))
  }

  lemma AskedStays(router: Router, log: seq<seq<Blob>>, later: seq<seq<Blob>>, from: nat, n: nat)
    requires from + n <= |log| && log <= later
    ensures Asked(router, later, from, n) == Asked(router, log, from, n)
  {
    forall t | 0 <= t < n ensures Asked(router, later, from, n)[t] == Asked(router, log, from, n)[t] {
      assert later[..from + t] == log[..from + t];
    }
  }

  lemma AskedOneMore(router: Router, log: seq<seq<Blob>>, observed: seq<Blob>, from: nat, n: nat)
    requires from + n == |log|
    ensures Asked(router, log + [observed], from, n + 1) == Asked(router, log, from, n) + [Routed(router, log)]
  {
    AskedStays(router, log, log + [observed], from, n);
    assert (log + [observed])[..from + n] == log;
    var more, less := Asked(router, log + [observed], from, n + 1), Asked(router, log + [observed], from, n);
    assert more == less + [Routed(router, log)];
  }

  /** One request after the other. */
  ghost predicate ServesAll(cfg: Config, c: Cache, reqs: seq<seq<nat>>, d: Cache) {
    if reqs == [] then d == c
    else exists mid :: ServesAll(cfg, c, reqs[..|reqs| - 1], mid) && ServedLast(cfg, mid, reqs, d)
  }

  ghost predicate ServedLast(cfg: Config, mid: Cache, reqs: seq<seq<nat>>, d: Cache)
    requires reqs != []
  {
    d in ServedFrom(cfg, mid, reqs[|reqs| - 1])
  }

  /** Where serving these requests in turn can lead. */
  ghost function AfterAll(cfg: Config, c: Cache, reqs: seq<seq<nat>>): iset<Cache> {
    iset d | forall key {:trigger PartUnsealed(key)} :: PartUnsealed(key) ==> ServesAll(cfg, c, reqs, d)
  }

  lemma ServedOneMore(cfg: Config, c: Cache, reqs: seq<seq<nat>>, mid: Cache, req: seq<nat>, d: Cache)
    requires mid in AfterAll(cfg, c, reqs) && d in ServedFrom(cfg, mid, req)
    ensures d in AfterAll(cfg, c, reqs + [req])
  {
    assert PartUnsealed(0);
    assert (reqs + [req])[..|reqs|] == reqs && ServedLast(cfg, mid, reqs + [req], d);
  }

  /** One more tile: the log has grown by what its request observed. */
  lemma TileServed(
    cfg: Config, router: Router, log: seq<seq<Blob>>, later: seq<seq<Blob>>, from: nat, n: nat,
    c: Cache, mid: Cache, d: Cache)
    requires log <= later && |later| == |log| + 1 && from + n == |log|
    requires mid in AfterAll(cfg, c, Asked(router, log, from, n)) && d in ServedFrom(cfg, mid, Routed(router, log))
    ensures d in AfterAll(cfg, c, Asked(router, later, from, n + 1))
  {
    assert later == log + [later[|log|]];
    AskedOneMore(router, log, later[|log|], from, n);
    ServedOneMore(cfg, c, Asked(router, log, from, n), mid, Routed(router, log), d);
  }

  /** The residency policy at a safe point: no policy, no change. */
  ghost predicate PolicyApplied(cfg: Config, policy: Option<int>, c: Cache, d: Cache) {
    match policy
    case None => d == c
    case Some(k) => exists hot, a :: Bounded(cfg, k, c, hot, d, a)
  }

  ghost predicate DoesPart(cfg: Config, policy: Option<int>, c: Cache, reqs: seq<seq<nat>>, d: Cache) {
    exists served :: served in AfterAll(cfg, c, reqs) && PolicyApplied(cfg, policy, served, d)
  }

  /** Where a layer's part of a chunk or a step can lead: its requests, and then the policy. */
  ghost function AfterPart(cfg: Config, policy: Option<int>, c: Cache, reqs: seq<seq<nat>>): iset<Cache> {
    iset d | forall key {:trigger PartUnsealed(key)} :: PartUnsealed(key) ==> DoesPart(cfg, policy, c, reqs, d)
  }

  lemma LayerIsDone(
    cfg: Config, policy: Option<int>, c: Cache, reqs: seq<seq<nat>>, served: Cache, d: Cache)
    requires served in AfterAll(cfg, c, reqs) && PolicyApplied(cfg, policy, served, d)
    ensures d in AfterPart(cfg, policy, c, reqs)
  {
  }

  /** Under a policy, the occupied slots that macOS may not take are no more than the policy says. */
  ghost predicate WithinPolicy(policy: Option<int>, c: Cache) {
    policy.Some? ==>
      |set s: nat | s < |c.expert| && s < |c.tracked| && c.expert[s] >= 0 && c.tracked[s] == NonVolatile|
        <= if policy.value < 0 then 0 else policy.value
  }

  lemma PolicyHolds(cfg: Config, policy: Option<int>, c: Cache, d: Cache)
    requires PolicyApplied(cfg, policy, c, d)
    ensures WithinPolicy(policy, d)
  {
    if policy.Some? {
      var hot, a :| Bounded(cfg, policy.value, c, hot, d, a);
      assert Unsealed(0);
      ResidentAfterBoundary(cfg, c, policy.value, hot, d, a);
      assert Resident(d)
          == set s: nat | s < |d.expert| && s < |d.tracked| && d.expert[s] >= 0 && d.tracked[s] == NonVolatile;
    }
  }

  lemma DoneIsWithinPolicy(cfg: Config, policy: Option<int>, c: Cache, reqs: seq<seq<nat>>, d: Cache)
    requires d in AfterPart(cfg, policy, c, reqs)
    ensures WithinPolicy(policy, d)
  {
    assert PartUnsealed(0);
    var served :| served in AfterAll(cfg, c, reqs) && PolicyApplied(cfg, policy, served, d);
    PolicyHolds(cfg, policy, served, d);
  }

  // The same for all layers at once, sealed so that loops over layers do not unfold it.

  /** The first n layers have done their part of one chunk or step. */
  ghost predicate DoParts(
    layers: seq<Config>, policy: Option<int>, before: seq<Cache>, asked: seq<seq<seq<nat>>>, after: seq<Cache>, n: nat)
  {
    && |before| == |after| == |layers| && n <= |asked| && n <= |layers|
    && forall i :: 0 <= i < n ==> after[i] in AfterPart(layers[i], policy, before[i], asked[i])
  }

  ghost function AfterParts(
    layers: seq<Config>, policy: Option<int>, before: seq<Cache>, asked: seq<seq<seq<nat>>>, n: nat): iset<seq<Cache>>
  {
    iset after | forall key {:trigger StepUnsealed(key)} :: StepUnsealed(key) ==>
      DoParts(layers, policy, before, asked, after, n)
  }

  lemma PartsDoneOneMore(
    layers: seq<Config>, policy: Option<int>, before: seq<Cache>, asked: seq<seq<seq<nat>>>, after: seq<Cache>, n: nat,
    reqs: seq<seq<nat>>, d: Cache)
    requires |before| == |after| == |layers| && n == |asked| < |layers|
    requires after in AfterParts(layers, policy, before, asked, n)
    requires d in AfterPart(layers[n], policy, before[n], reqs)
    ensures after[n := d] in AfterParts(layers, policy, before, asked + [reqs], n + 1)
  {
    assert StepUnsealed(0);
    var more, later := asked + [reqs], after[n := d];
    forall i | 0 <= i < n + 1 ensures later[i] in AfterPart(layers[i], policy, before[i], more[i]) {
      if i < n {
        assert more[i] == asked[i] && later[i] == after[i];
      }
    }
  }

  ghost predicate OneRound(
    layers: seq<Config>, policy: Option<int>, mid: seq<Cache>, asked: seq<seq<seq<nat>>>, after: seq<Cache>)
  {
    forall key {:trigger StepUnsealed(key)} :: StepUnsealed(key) ==>
      after in AfterParts(layers, policy, mid, asked, |layers|)
  }

  ghost predicate RunsTo(
    layers: seq<Config>, policy: Option<int>, before: seq<Cache>, n: nat, after: seq<Cache>)
  {
    if n == 0 then after == before
    else
      exists mid, asked ::
        RunsTo(layers, policy, before, n - 1, mid) && OneRound(layers, policy, mid, asked, after)
  }

  /** Where n chunks or steps can lead, all layers doing their part of each; sealed. */
  ghost function RunsFrom(layers: seq<Config>, policy: Option<int>, before: seq<Cache>, n: nat): iset<seq<Cache>> {
    iset after | forall key {:trigger RunUnsealed(key)} :: RunUnsealed(key) ==> RunsTo(layers, policy, before, n, after)
  }

  lemma NoRun(layers: seq<Config>, policy: Option<int>, before: seq<Cache>)
    ensures before in RunsFrom(layers, policy, before, 0)
  {
  }

  lemma RunsOneMore(
    layers: seq<Config>, policy: Option<int>, before: seq<Cache>, n: nat, mid: seq<Cache>,
    asked: seq<seq<seq<nat>>>, after: seq<Cache>)
    requires mid in RunsFrom(layers, policy, before, n) && after in AfterParts(layers, policy, mid, asked, |layers|)
    ensures after in RunsFrom(layers, policy, before, n + 1)
  {
    assert StepUnsealed(0) && RunUnsealed(0);
    assert OneRound(layers, policy, mid, asked, after);
  }

  lemma {:induction false} RunsInTurn(
    layers: seq<Config>, policy: Option<int>, before: seq<Cache>, m: nat, mid: seq<Cache>, n: nat, after: seq<Cache>)
    requires RunsTo(layers, policy, before, m, mid) && RunsTo(layers, policy, mid, n, after)
    ensures RunsTo(layers, policy, before, m + n, after)
  {
    if n > 0 {
      var b, asked :|
        RunsTo(layers, policy, mid, n - 1, b) && OneRound(layers, policy, b, asked, after);
      RunsInTurn(layers, policy, before, m, mid, n - 1, b);
    }
  }

  lemma RunsSum(
    layers: seq<Config>, policy: Option<int>, before: seq<Cache>, m: nat, mid: seq<Cache>, n: nat, after: seq<Cache>)
    requires mid in RunsFrom(layers, policy, before, m) && after in RunsFrom(layers, policy, mid, n)
    ensures after in RunsFrom(layers, policy, before, m + n)
  {
    assert StepUnsealed(0) && RunUnsealed(0);
    RunsInTurn(layers, policy, before, m, mid, n, after);
  }

  ghost predicate EachWithinPolicy(policy: Option<int>, states: seq<Cache>) {
    forall i :: 0 <= i < |states| ==> WithinPolicy(policy, states[i])
  }

  lemma EachIsWithinPolicy(
    layers: seq<Config>, policy: Option<int>, before: seq<Cache>, n: nat, after: seq<Cache>)
    requires after in RunsFrom(layers, policy, before, n) && n > 0
    ensures EachWithinPolicy(policy, after)
  {
    assert StepUnsealed(0) && RunUnsealed(0);
    var mid, asked :|
      RunsTo(layers, policy, before, n - 1, mid) && OneRound(layers, policy, mid, asked, after);
    forall i | 0 <= i < |layers| ensures WithinPolicy(policy, after[i]) {
      DoneIsWithinPolicy(layers[i], policy, mid[i], asked[i], after[i]);
    }
  }

  lemma RunsEnd(
    layers: seq<Config>, policy: Option<int>, before: seq<Cache>, m: nat, mid: seq<Cache>, n: nat, after: seq<Cache>)
    requires mid in RunsFrom(layers, policy, before, m) && after in RunsFrom(layers, policy, mid, n)
    ensures after in RunsFrom(layers, policy, before, m + n)
    ensures m + n > 0 ==> EachWithinPolicy(policy, after)
  {
    RunsSum(layers, policy, before, m, mid, n, after);
    if m + n > 0 {
      EachIsWithinPolicy(layers, policy, before, m + n, after);
    }
  }

  /** What the first n layers are asked in a chunk that starts when the log has length `from`. */
  ghost predicate ChunkAsked(
    router: Router, log: seq<seq<Blob>>, from: nat, tiles: seq<nat>, asked: seq<seq<seq<nat>>>, n: nat)
  {
    && n == |asked| <= |tiles|
    && forall key {:trigger PartUnsealed(key)} :: PartUnsealed(key) ==>
         forall i :: 0 <= i < n ==> LayerAsked(router, log, from, tiles, i, asked[i])
  }

  ghost predicate LayerAsked(
    router: Router, log: seq<seq<Blob>>, from: nat, tiles: seq<nat>, i: nat, reqs: seq<seq<nat>>)
    requires i < |tiles|
  {
    var start := from + |ChunkOrder(tiles[..i])|;
    start + tiles[i] <= |log| && reqs == Asked(router, log, start, tiles[i])
  }

  lemma ChunkLength(tiles: seq<nat>, n: nat)
    requires n < |tiles|
    ensures |ChunkOrder(tiles[..n + 1])| == |ChunkOrder(tiles[..n])| + tiles[n]
  {
    assert tiles[..n + 1][..n] == tiles[..n];
  }

  lemma ChunkAskedOneMore(
    router: Router, log: seq<seq<Blob>>, later: seq<seq<Blob>>, from: nat, tiles: seq<nat>,
    asked: seq<seq<seq<nat>>>, n: nat)
    requires ChunkAsked(router, log, from, tiles, asked, n) && n < |tiles| && log <= later
    requires |log| == from + |ChunkOrder(tiles[..n])| && |later| == |log| + tiles[n]
    ensures ChunkAsked(router, later, from, tiles, asked + [Asked(router, later, |log|, tiles[n])], n + 1)
    ensures |later| == from + |ChunkOrder(tiles[..n + 1])|
  {
    assert PartUnsealed(0);
    ChunkLength(tiles, n);
    var more := asked + [Asked(router, later, |log|, tiles[n])];
    forall i | 0 <= i < n + 1 ensures LayerAsked(router, later, from, tiles, i, more[i]) {
      if i < n {
        assert LayerAsked(router, log, from, tiles, i, asked[i]) && more[i] == asked[i];
        AskedStays(router, log, later, from + |ChunkOrder(tiles[..i])|, tiles[i]);
      }
    }
  }

  /** Layer i has served its request of a decode step that starts when the log has length `from`. */
  ghost predicate ServedAt(
    layers: seq<Config>, router: Router, log: seq<seq<Blob>>, from: nat, before: seq<Cache>, after: seq<Cache>, i: nat)
  {
    && i < |layers| == |before| == |after| && from + i <= |log|
    && after[i] in ServedFrom(layers[i], before[i], Routed(router, log[..from + i]))
  }

  ghost predicate ReadAll(
    layers: seq<Config>, router: Router, log: seq<seq<Blob>>, from: nat, before: seq<Cache>, after: seq<Cache>, n: nat)
  {
    && n <= |layers| == |before| == |after| && from + n <= |log|
    && forall i: nat :: i < n ==> ServedAt(layers, router, log, from, before, after, i)
  }

  /** Where the first n layers' requests of one decode step can lead. */
  ghost function AfterReads(
    layers: seq<Config>, router: Router, log: seq<seq<Blob>>, from: nat, before: seq<Cache>, n: nat): iset<seq<Cache>>
  {
    iset after | forall key {:trigger PartUnsealed(key)} :: PartUnsealed(key) ==>
      ReadAll(layers, router, log, from, before, after, n)
  }

  lemma ServedAtStays(
    layers: seq<Config>, router: Router, log: seq<seq<Blob>>, later: seq<seq<Blob>>, from: nat,
    before: seq<Cache>, after: seq<Cache>, i: nat, now: seq<Cache>)
    requires ServedAt(layers, router, log, from, before, after, i) && log <= later
    requires |now| == |after| && now[i] == after[i]
    ensures ServedAt(layers, router, later, from, before, now, i)
  {
    assert later[..from + i] == log[..from + i];
  }

  lemma ServedAtEnd(
    layers: seq<Config>, router: Router, log: seq<seq<Blob>>, later: seq<seq<Blob>>, from: nat,
    before: seq<Cache>, n: nat, now: seq<Cache>)
    requires n < |layers| == |before| == |now| && log <= later && |log| == from + n
    requires now[n] in ServedFrom(layers[n], before[n], Routed(router, log))
    ensures ServedAt(layers, router, later, from, before, now, n)
  {
    assert later[..from + n] == log;
  }

  lemma EachServedOneMore(
    layers: seq<Config>, router: Router, log: seq<seq<Blob>>, later: seq<seq<Blob>>, from: nat,
    before: seq<Cache>, after: seq<Cache>, n: nat, d: Cache)
    requires n < |layers| == |before| == |after|
    requires after in AfterReads(layers, router, log, from, before, n)
    requires log <= later && |log| == from + n && |later| == |log| + 1
    requires d in ServedFrom(layers[n], before[n], Routed(router, log))
    ensures after[n := d] in AfterReads(layers, router, later, from, before, n + 1)
  {
    assert PartUnsealed(0);
    var now := after[n := d];
    forall i: nat | i < n + 1 ensures ServedAt(layers, router, later, from, before, now, i) {
      if i < n {
        ServedAtStays(layers, router, log, later, from, before, after, i, now);
      } else {
        ServedAtEnd(layers, router, log, later, from, before, n, now);
      }
    }
  }

  ghost predicate EachApplied(layers: seq<Config>, policy: Option<int>, before: seq<Cache>, after: seq<Cache>) {
    && |layers| == |before| == |after|
    && forall key {:trigger PartUnsealed(key)} :: PartUnsealed(key) ==>
         forall i :: 0 <= i < |layers| ==> PolicyApplied(layers[i], policy, before[i], after[i])
  }

  lemma BoundedIsApplied(
    layers: seq<Config>, k: int, before: seq<Cache>, hots: seq<set<nat>>, after: seq<Cache>, parts: seq<Action>)
    requires |layers| == |before| == |after| == |hots| == |parts|
    requires forall i :: 0 <= i < |layers| ==> Bounded(layers[i], k, before[i], hots[i], after[i], parts[i])
    ensures EachApplied(layers, Some(k), before, after)
  {
    forall i | 0 <= i < |layers| ensures PolicyApplied(layers[i], Some(k), before[i], after[i]) {
      assert Bounded(layers[i], k, before[i], hots[i], after[i], parts[i]);
    }
  }

  /** What each layer is asked in a decode step. */
  ghost function StepAsked(router: Router, log: seq<seq<Blob>>, from: nat, n: nat): (asked: seq<seq<seq<nat>>>)
    requires from + n <= |log|
    ensures |asked| == n && forall i :: 0 <= i < n ==> asked[i] == [Routed(router, log[..from + i])]
  {
    seq(n, i requires 0 <= i < n => [Routed(router, log[..from + i])])
  }

  lemma ServedOnce(cfg: Config, c: Cache, req: seq<nat>, d: Cache)
    requires d in ServedFrom(cfg, c, req)
    ensures d in AfterAll(cfg, c, [req])
  {
    ServedOneMore(cfg, c, [], c, req, d);
    assert [] + [req] == [req];
  }

  lemma StepIsDone(
    layers: seq<Config>, policy: Option<int>, router: Router, log: seq<seq<Blob>>, from: nat,
    before: seq<Cache>, served: seq<Cache>, after: seq<Cache>)
    requires |before| == |after| == |layers| && from + |layers| <= |log|
    requires served in AfterReads(layers, router, log, from, before, |layers|)
    requires EachApplied(layers, policy, served, after)
    ensures after in AfterParts(layers, policy, before, StepAsked(router, log, from, |layers|), |layers|)
  {
    assert PartUnsealed(0) && StepUnsealed(0);
    var asked := StepAsked(router, log, from, |layers|);
    forall i | 0 <= i < |layers| ensures after[i] in AfterPart(layers[i], policy, before[i], asked[i]) {
      assert ServedAt(layers, router, log, from, before, served, i);
      ServedOnce(layers[i], before[i], Routed(router, log[..from + i]), served[i]);
      LayerIsDone(layers[i], policy, before[i], asked[i], served[i], after[i]);
    }
  }

  /** The routers whose every request fits every layer's cache, and asks for no expert twice if
      `apart`. */
  ghost function Fitting(layers: seq<Config>, apart: bool): iset<Router> {
    iset router: Router | Fits(layers, apart, router)
  }

  ghost predicate Fits(layers: seq<Config>, apart: bool, router: Router) {
    forall key {:trigger Unsealed(key)} :: Unsealed(key) ==>
      && (forall l, i :: 0 <= i < |layers| ==> |Routed(router, l)| <= layers[i].slotCount)
      && (apart ==> forall l :: Distinct(Routed(router, l)))
  }

  lemma RequestFits(layers: seq<Config>, apart: bool, router: Router, l: seq<seq<Blob>>, i: nat)
    requires router in Fitting(layers, apart) && i < |layers|
    ensures |Routed(router, l)| <= layers[i].slotCount && (apart ==> Distinct(Routed(router, l)))
  {
    assert Unsealed(0);
  }

  // ----- The runner ----------------------------------------------------------------

  class RealForwardRunner {
    const layers: seq<Config>
    const streamers: seq<PreadExpertStreamer>
    const router: Router
    var expertResidencyHotSlots: Option<int>
    var log: seq<seq<Blob>>

    /** No request asks for one expert twice, and none did before this runner. */
    ghost const apart: bool

    ghost predicate Shape()
    {
      && |streamers| == |layers|
      && (forall i :: 0 <= i < |layers| ==> streamers[i].cfg == layers[i])
      && (forall i, j :: 0 <= i < j < |streamers| ==> streamers[i] != streamers[j])
      && router in Fitting(layers, apart)
    }

    ghost predicate Valid()
      reads streamers
    {
      Shape() && forall i :: 0 <= i < |streamers| ==> streamers[i].Valid() && (apart ==> streamers[i].apart)
    }

    ghost predicate EveryLayerIsUnique()
      reads streamers
    {
      forall i :: 0 <= i < |streamers| ==> Unique(streamers[i].State())
    }

    /** No GPU command is in flight on the layers from n on. */
    ghost predicate IdleFrom(n: nat)
      reads streamers
    {
      forall i :: n <= i < |streamers| ==> streamers[i].bound == map[]
    }

    ghost predicate NeverPurged()
      reads streamers
    {
      forall i :: 0 <= i < |streamers| ==> !streamers[i].purged
    }

    constructor (streamers: seq<PreadExpertStreamer>, router: Router, hotSlots: Option<int>)
      requires forall i, j :: 0 <= i < j < |streamers| ==> streamers[i] != streamers[j]
      requires forall i :: 0 <= i < |streamers| ==> streamers[i].Valid() && streamers[i].bound == map[]
      requires forall l, i :: 0 <= i < |streamers| ==> |Routed(router, l)| <= streamers[i].cfg.slotCount
      ensures Valid() && IdleFrom(0)
      ensures this.streamers == streamers && this.router == router && log == []
      ensures expertResidencyHotSlots == hotSlots
      ensures apart <==>
        && (forall l :: Distinct(Routed(router, l)))
        && forall i :: 0 <= i < |streamers| ==> streamers[i].apart
      ensures layers == seq(|streamers|, i requires 0 <= i < |streamers| => streamers[i].cfg)
    {
      this.streamers := streamers;
      this.layers := seq(|streamers|, i requires 0 <= i < |streamers| => streamers[i].cfg);
      this.router := router;
      this.expertResidencyHotSlots := hotSlots;
      this.log := [];
      this.apart :=
        && (forall l :: Distinct(Routed(router, l)))
        && forall i :: 0 <= i < |streamers| ==> streamers[i].apart;
    }

    /** One routed request to one layer: load, then the command's own reads. The command may
        still be in flight when the call returns. */
    method RoutedExperts(layer: nat) returns (ok: bool)
      requires Valid() && layer < |layers| && streamers[layer].bound == map[]
      modifies this`log, streamers[layer]
      ensures Valid() && layer < |layers|
      ensures Outcome(log, ok) == ReadOne(layers, router, Outcome(old(log), true), layer)
      ensures ok ==>
        streamers[layer].State() in ServedFrom(layers[layer], old(streamers[layer].State()), Routed(router, old(log)))
      ensures streamers[layer].purged == old(streamers[layer].purged)
    {
      RequestFits(layers, apart, router, log, layer);
      var streamer := streamers[layer];
      var experts := Routed(router, log);
      var observed;
      ok, observed := streamer.RunCommand(experts);
      if ok {
        log := log + [observed];
      }
    }

    ghost function States(): (states: seq<Cache>)
      reads streamers
      ensures |states| == |streamers| && forall i :: 0 <= i < |streamers| ==> states[i] == streamers[i].State()
    {
      seq(|streamers|, i requires 0 <= i < |streamers| reads streamers => streamers[i].State())
    }

    /** Where only layer i moved, that is what happened to the states. */
    twostate lemma OnlyLayer(i: nat)
      requires i < |streamers|
      requires forall j :: 0 <= j < |streamers| && j != i ==> unchanged(streamers[j])
      ensures States() == old(States())[i := streamers[i].State()]
      ensures streamers[i].purged == old(streamers[i].purged) && old(NeverPurged()) ==> NeverPurged()
    {
    }

    method BoundLayer(i: nat, k: int) returns (action: Action, ghost hot: set<nat>)
      requires Valid() && i < |layers| && streamers[i].bound == map[]
      modifies streamers[i]
      ensures Valid() && i < |layers| && streamers[i].bound == map[]
      ensures Bounded(layers[i], k, old(streamers[i].State()), hot, streamers[i].State(), action)
      ensures States() == old(States())[i := streamers[i].State()] && (old(IdleFrom(0)) ==> IdleFrom(0))
    {
      var streamer := streamers[i];
      action, hot := streamer.MakeColdSlotsVolatile(k);
    }

    method DiscardLayer(i: nat, k: int) returns (action: Action, ghost hot: set<nat>)
      requires Valid() && i < |layers| && streamers[i].bound == map[]
      modifies streamers[i]
      ensures Valid() && i < |layers| && streamers[i].bound == map[]
      ensures Discarded(layers[i], k, old(streamers[i].State()), hot, streamers[i].State(), action)
      ensures States() == old(States())[i := streamers[i].State()] && (old(IdleFrom(0)) ==> IdleFrom(0))
    {
      var streamer := streamers[i];
      action, hot := streamer.DiscardColdSlots(k);
    }

    /** The safe point after one prefill layer. A layer that does not exist is left alone. */
    method MakeLayerColdSlotsVolatile(layer: int, keepingHotSlots: int)
      returns (action: Action, ghost hot: set<nat>)
      requires Valid() && (0 <= layer < |streamers| ==> streamers[layer].bound == map[])
      modifies if 0 <= layer < |streamers| then {streamers[layer]} else {}
      ensures Valid()
      ensures 0 <= layer < |streamers| ==>
                && streamers[layer].bound == map[]
                && Bounded(layers[layer], keepingHotSlots, old(streamers[layer].State()), hot,
                           streamers[layer].State(), action)
      ensures !(0 <= layer < |streamers|) ==> action == Action(0, 0, 0, 0)
    {
      hot := {};
      if !(0 <= layer < |streamers|) {
        return Action(0, 0, 0, 0), {};
      }
      action, hot := BoundLayer(layer, keepingHotSlots);
    }

    /** The safe point after a decode step: every layer goes through its own boundary call, and
        the report is the sum of theirs. */
    method MakeColdSlotsVolatile(keepingHotSlotsPerLayer: int)
      returns (result: Action, ghost parts: seq<Action>, ghost hots: seq<set<nat>>)
      requires Valid() && IdleFrom(0)
      modifies streamers
      ensures Valid() && IdleFrom(0)
      ensures |parts| == |hots| == |streamers| && result == SumOfActions(parts)
      ensures forall i :: 0 <= i < |streamers| ==>
                Bounded(layers[i], keepingHotSlotsPerLayer, old(States())[i], hots[i], States()[i], parts[i])
    {
      result, parts, hots := Action(0, 0, 0, 0), [], [];
      ghost var before, now := States(), States();
      for i := 0 to |streamers|
        invariant Valid() && IdleFrom(0) && States() == now
        invariant |parts| == |hots| == i && result == SumOfActions(parts)
        invariant forall j :: i <= j < |streamers| ==> now[j] == before[j]
        invariant forall j :: 0 <= j < i ==>
                    Bounded(layers[j], keepingHotSlotsPerLayer, before[j], hots[j], now[j], parts[j])
      {
        ghost var hot;
        var a;
        a, hot := BoundLayer(i, keepingHotSlotsPerLayer);
        OneMoreAction(parts, a);
        result := PlusAction(result, a);
        parts, hots, now := parts + [a], hots + [hot], now[i := streamers[i].State()];
      }
    }

    /** Under critical pressure: every layer discards its cold slots outright. */
    method DiscardColdSlots(keepingHotSlotsPerLayer: int)
      returns (result: Action, ghost parts: seq<Action>, ghost hots: seq<set<nat>>)
      requires Valid() && IdleFrom(0)
      modifies streamers
      ensures Valid() && IdleFrom(0)
      ensures |parts| == |hots| == |streamers| && result == SumOfActions(parts)
      ensures forall i :: 0 <= i < |streamers| ==>
                Discarded(layers[i], keepingHotSlotsPerLayer, old(States())[i], hots[i], States()[i], parts[i])
    {
      result, parts, hots := Action(0, 0, 0, 0), [], [];
      ghost var before, now := States(), States();
      for i := 0 to |streamers|
        invariant Valid() && IdleFrom(0) && States() == now
        invariant |parts| == |hots| == i && result == SumOfActions(parts)
        invariant forall j :: i <= j < |streamers| ==> now[j] == before[j]
        invariant forall j :: 0 <= j < i ==>
                    Discarded(layers[j], keepingHotSlotsPerLayer, before[j], hots[j], now[j], parts[j])
      {
        ghost var hot;
        var a;
        a, hot := DiscardLayer(i, keepingHotSlotsPerLayer);
        OneMoreAction(parts, a);
        result := PlusAction(result, a);
        parts, hots, now := parts + [a], hots + [hot], now[i := streamers[i].State()];
      }
    }

    /** One tile: a request whose command is awaited before the next. */
    method Tile(layer: nat) returns (ok: bool)
      requires Valid() && layer < |layers| && IdleFrom(0)
      modifies this`log, streamers[layer]
      ensures Valid() && (ok ==> IdleFrom(0)) && layer < |layers|
      ensures Outcome(log, ok) == ReadOne(layers, router, Outcome(old(log), true), layer)
      ensures ok ==>
        streamers[layer].State() in ServedFrom(layers[layer], old(streamers[layer].State()), Routed(router, old(log)))
      ensures streamers[layer].purged == old(streamers[layer].purged)
    {
      ok := RoutedExperts(layer);
      if ok {
        streamers[layer].CommandCompleted();
      }
    }

    /** The routed tiles of one prefill layer. */
    method PrefillTiles(layer: nat, tiles: nat) returns (ok: bool)
      requires Valid() && layer < |layers| && IdleFrom(0)
      modifies this`log, streamers[layer]
      ensures Valid() && (ok ==> IdleFrom(0)) && layer < |layers|
      ensures Outcome(log, ok) == Uncached(layers, router, Outcome(old(log), true), Tiles(layer, tiles))
      ensures ok ==> old(log) <= log && |log| == |old(log)| + tiles
      ensures ok ==> streamers[layer].State() in AfterAll(layers[layer], old(streamers[layer].State()),
                                                          Asked(router, log, |old(log)|, tiles))
      ensures streamers[layer].purged == old(streamers[layer].purged)
    {
      ghost var start, c := Outcome(log, true), streamers[layer].State();
      ok := true;
      for t := 0 to tiles
        invariant Valid() && IdleFrom(0) && ok
        invariant old(log) <= log && |log| == |old(log)| + t
        invariant streamers[layer].State() in AfterAll(layers[layer], c, Asked(router, log, |old(log)|, t))
        invariant Outcome(log, true) == Uncached(layers, router, start, Tiles(layer, t))
        invariant streamers[layer].purged == old(streamers[layer].purged)
      {
        ghost var mid, o := streamers[layer].State(), Outcome(log, true);
        ok := Tile(layer);
        TileOutcome(layers, router, start, layer, tiles, t, o, Outcome(log, ok));
        if !ok {
          return;
        }
        TileServed(layers[layer], router, o.log, log, |old(log)|, t, c, mid, streamers[layer].State());
      }
    }

    /** The residency policy of a finished prefill layer, if there is one. */
    method ApplyLayerPolicy(layer: nat)
      requires Valid() && IdleFrom(0) && layer < |layers|
      modifies streamers[layer]
      ensures Valid() && IdleFrom(0)
      ensures PolicyApplied(layers[layer], expertResidencyHotSlots, old(streamers[layer].State()),
                            streamers[layer].State())
      ensures expertResidencyHotSlots.None? ==> streamers[layer].purged == old(streamers[layer].purged)
    {
      if expertResidencyHotSlots.Some? {
        ghost var hot;
        var action;
        action, hot := MakeLayerColdSlotsVolatile(layer, expertResidencyHotSlots.value);
      }
    }

    /** One prefill layer. The policy runs on it after its tiles and its tail command. */
    method PrefillLayer(layer: nat, tiles: nat) returns (ok: bool)
      requires Valid() && layer < |layers| && IdleFrom(0)
      modifies this`log, streamers[layer]
      ensures Valid() && (ok ==> IdleFrom(0)) && layer < |layers|
      ensures Outcome(log, ok) == Uncached(layers, router, Outcome(old(log), true), Tiles(layer, tiles))
      ensures ok ==> old(log) <= log && |log| == |old(log)| + tiles
      ensures ok ==>
        streamers[layer].State() in AfterPart(layers[layer], expertResidencyHotSlots, old(streamers[layer].State()),
                                              Asked(router, log, |old(log)|, tiles))
      ensures expertResidencyHotSlots.None? ==> streamers[layer].purged == old(streamers[layer].purged)
    {
      ghost var c := streamers[layer].State();
      ok := PrefillTiles(layer, tiles);
      if ok {
        ghost var served := streamers[layer].State();
        ApplyLayerPolicy(layer);
        LayerIsDone(layers[layer], expertResidencyHotSlots, c, Asked(router, log, |old(log)|, tiles), served,
                    streamers[layer].State());
      }
    }

    /** Layer number `layer` of a chunk that started at `start`. */
    method PrefillPart(tiles: seq<nat>, layer: nat, ghost start: Outcome) returns (ok: bool)
      requires Valid() && IdleFrom(0) && layer < |layers| == |tiles|
      requires LayerOrder(ChunkOrder(tiles[..layer]), |layers|)
      requires Outcome(log, true) == Uncached(layers, router, start, ChunkOrder(tiles[..layer]))
      modifies this`log, streamers[layer]
      ensures Valid() && (ok ==> IdleFrom(0)) && layer < |layers| == |tiles|
      ensures ok ==> LayerOrder(ChunkOrder(tiles[..layer + 1]), |layers|)
      ensures ok ==> Outcome(log, true) == Uncached(layers, router, start, ChunkOrder(tiles[..layer + 1]))
      ensures !ok ==> Outcome(log, false) == Uncached(layers, router, start, ChunkOrder(tiles))
      ensures ok ==> old(log) <= log && |log| == |old(log)| + tiles[layer]
      ensures ok ==>
        streamers[layer].State() in AfterPart(layers[layer], expertResidencyHotSlots, old(streamers[layer].State()),
                                              Asked(router, log, |old(log)|, tiles[layer]))
      ensures expertResidencyHotSlots.None? ==> streamers[layer].purged == old(streamers[layer].purged)
    {
      ok := PrefillLayer(layer, tiles[layer]);
      ChunkGrows(layers, router, start, tiles, layer);
      if !ok {
        ChunkFailsEarly(layers, router, start, tiles, layer + 1);
      }
    }

    /** The layers from n on have not been touched since `before`. */
    ghost predicate UntouchedFrom(n: nat, before: seq<Cache>)
      reads streamers
    {
      |before| == |streamers| && forall i :: n <= i < |streamers| ==> streamers[i].State() == before[i]
    }

    /** The same with what the layers have been asked so far, and where that led them. */
    method PrefillNext(
      tiles: seq<nat>, layer: nat, ghost start: Outcome, ghost before: seq<Cache>, ghost asked: seq<seq<seq<nat>>>)
      returns (ok: bool, ghost more: seq<seq<seq<nat>>>)
      requires Valid() && IdleFrom(0) && layer < |layers| == |tiles| && UntouchedFrom(layer, before)
      requires |log| == |start.log| + |ChunkOrder(tiles[..layer])|
      requires ChunkAsked(router, log, |start.log|, tiles, asked, layer)
      requires States() in AfterParts(layers, expertResidencyHotSlots, before, asked, layer)
      requires LayerOrder(ChunkOrder(tiles[..layer]), |layers|)
      requires Outcome(log, true) == Uncached(layers, router, start, ChunkOrder(tiles[..layer]))
      modifies this`log, streamers[layer]
      ensures Valid() && (ok ==> IdleFrom(0)) && layer < |layers| == |tiles| && UntouchedFrom(layer + 1, before)
      ensures ok ==> |log| == |start.log| + |ChunkOrder(tiles[..layer + 1])|
      ensures ok ==> ChunkAsked(router, log, |start.log|, tiles, more, layer + 1)
      ensures ok ==> States() in AfterParts(layers, expertResidencyHotSlots, before, more, layer + 1)
      ensures ok ==> LayerOrder(ChunkOrder(tiles[..layer + 1]), |layers|)
      ensures ok ==> Outcome(log, true) == Uncached(layers, router, start, ChunkOrder(tiles[..layer + 1]))
      ensures !ok ==> Outcome(log, false) == Uncached(layers, router, start, ChunkOrder(tiles))
      ensures old(NeverPurged()) && expertResidencyHotSlots.None? ==> NeverPurged()
    {
      ghost var earlier, now := log, States();
      ok := PrefillPart(tiles, layer, start);
      more := asked;
      OnlyLayer(layer);
      if ok {
        more := asked + [Asked(router, log, |earlier|, tiles[layer])];
        ChunkAskedOneMore(router, earlier, log, |start.log|, tiles, asked, layer);
        PartsDoneOneMore(layers, expertResidencyHotSlots, before, asked, now, layer,
                         Asked(router, log, |earlier|, tiles[layer]), streamers[layer].State());
      }
    }

    /** One prefill chunk. */
    method PrefillChunk(tiles: seq<nat>) returns (ok: bool, ghost asked: seq<seq<seq<nat>>>)
      requires Valid() && IdleFrom(0) && |tiles| == |layers|
      modifies this`log, streamers
      ensures Valid() && (ok ==> IdleFrom(0)) && |tiles| == |layers|
      ensures Outcome(log, ok) == Uncached(layers, router, Outcome(old(log), true), ChunkOrder(tiles))
      ensures ok ==> ChunkAsked(router, log, |old(log)|, tiles, asked, |layers|)
      ensures ok ==> States() in AfterParts(layers, expertResidencyHotSlots, old(States()), asked, |layers|)
      ensures old(NeverPurged()) && expertResidencyHotSlots.None? ==> NeverPurged()
    {
      ghost var never := NeverPurged() && expertResidencyHotSlots.None?;
      ghost var start, before := Outcome(log, true), States();
      assert tiles[..|layers|] == tiles;
      asked := [];
      ok := true;
      for layer := 0 to |layers|
        invariant Valid() && IdleFrom(0) && ok && UntouchedFrom(layer, before)
        invariant |log| == |start.log| + |ChunkOrder(tiles[..layer])|
        invariant ChunkAsked(router, log, |start.log|, tiles, asked, layer)
        invariant States() in AfterParts(layers, expertResidencyHotSlots, before, asked, layer)
        invariant LayerOrder(ChunkOrder(tiles[..layer]), |layers|)
        invariant Outcome(log, true) == Uncached(layers, router, start, ChunkOrder(tiles[..layer]))
        invariant never ==> NeverPurged()
      {
        ok, asked := PrefillNext(tiles, layer, start, before, asked);
        if !ok {
          return;
        }
      }
    }

    /** One layer's read in a decode step that started at `start`. */
    method DecodeRead(layer: nat, ghost start: Outcome) returns (ok: bool)
      requires Valid() && layer < |layers| && IdleFrom(layer)
      requires StepReads(layers, router, start, layer, Outcome(log, true))
      modifies this`log, streamers[layer]
      ensures Valid() && IdleFrom(layer + 1)
      ensures StepReads(layers, router, start, if ok then layer + 1 else |layers|, Outcome(log, ok))
      ensures ok ==> old(log) <= log && |log| == |old(log)| + 1
      ensures ok ==>
        streamers[layer].State() in ServedFrom(layers[layer], old(streamers[layer].State()), Routed(router, old(log)))
      ensures streamers[layer].purged == old(streamers[layer].purged)
    {
      ghost var before := Outcome(log, true);
      ok := RoutedExperts(layer);
      StepOutcome(layers, router, start, layer, before, Outcome(log, ok));
    }

    /** Layer number `layer` of a decode step that started at `start`, with the layers as `before`. */
    method DecodeLayer(layer: nat, ghost start: Outcome, ghost before: seq<Cache>) returns (ok: bool)
      requires Valid() && layer < |layers| && IdleFrom(layer) && UntouchedFrom(layer, before)
      requires start.log <= log && |log| == |start.log| + layer
      requires States() in AfterReads(layers, router, log, |start.log|, before, layer)
      requires StepReads(layers, router, start, layer, Outcome(log, true))
      modifies this`log, streamers[layer]
      ensures Valid() && IdleFrom(layer + 1) && UntouchedFrom(layer + 1, before)
      ensures ok ==> start.log <= log && |log| == |start.log| + layer + 1
      ensures ok ==> States() in AfterReads(layers, router, log, |start.log|, before, layer + 1)
      ensures StepReads(layers, router, start, if ok then layer + 1 else |layers|, Outcome(log, ok))
      ensures old(NeverPurged()) ==> NeverPurged()
    {
      ghost var earlier, now := log, States();
      ok := DecodeRead(layer, start);
      OnlyLayer(layer);
      if ok {
        EachServedOneMore(layers, router, earlier, log, |start.log|, before, now, layer, streamers[layer].State());
      }
    }

    /** The layers of one decode step. All their commands may still be in flight at the end. */
    method DecodeLayers() returns (ok: bool)
      requires Valid() && IdleFrom(0)
      modifies this`log, streamers
      ensures Valid()
      ensures StepReads(layers, router, Outcome(old(log), true), |layers|, Outcome(log, ok))
      ensures ok ==> old(log) <= log && |log| == |old(log)| + |layers|
      ensures ok ==> States() in AfterReads(layers, router, log, |old(log)|, old(States()), |layers|)
      ensures old(NeverPurged()) ==> NeverPurged()
    {
      ghost var never := NeverPurged();
      ghost var start, before := Outcome(log, true), States();
      StepStarts(layers, router, start);
      ok := true;
      var layer := 0;
      while ok && layer < |layers|
        invariant Valid() && layer <= |layers| && IdleFrom(layer) && UntouchedFrom(layer, before)
        invariant ok ==> start.log <= log && |log| == |start.log| + layer
        invariant ok ==> States() in AfterReads(layers, router, log, |start.log|, before, layer)
        invariant StepReads(layers, router, start, if ok then layer else |layers|, Outcome(log, ok))
        invariant never ==> NeverPurged()
      {
        ok := DecodeLayer(layer, start, before);
        layer := layer + 1;
      }
    }

    /** The step's command buffers finish. */
    method AwaitCommands()
      requires Valid()
      modifies streamers
      ensures Valid() && IdleFrom(0)
      ensures States() == old(States())
      ensures old(NeverPurged()) ==> NeverPurged()
    {
      ghost var never := NeverPurged();
      for i := 0 to |streamers|
        invariant Valid() && States() == old(States())
        invariant forall j :: 0 <= j < i ==> streamers[j].bound == map[]
        invariant never ==> NeverPurged()
      {
        streamers[i].CommandCompleted();
      }
    }

    /** The residency policy of a finished decode step, if there is one. */
    method ApplyPolicy()
      requires Valid() && IdleFrom(0)
      modifies streamers
      ensures Valid() && IdleFrom(0)
      ensures EachApplied(layers, expertResidencyHotSlots, old(States()), States())
      ensures old(NeverPurged()) && expertResidencyHotSlots.None? ==> NeverPurged()
    {
      if expertResidencyHotSlots.Some? {
        ghost var parts, hots;
        var action;
        ghost var before := States();
        action, parts, hots := MakeColdSlotsVolatile(expertResidencyHotSlots.value);
        BoundedIsApplied(layers, expertResidencyHotSlots.value, before, hots, States(), parts);
      }
    }

    /** One decode step. The policy runs on all layers once the whole step has finished. */
    method DecodeStep() returns (ok: bool, ghost asked: seq<seq<seq<nat>>>)
      requires Valid() && IdleFrom(0)
      modifies this`log, streamers
      ensures Valid() && (ok ==> IdleFrom(0))
      ensures Outcome(log, ok) == Uncached(layers, router, Outcome(old(log), true), StepOrder(|layers|))
      ensures ok ==> |log| == |old(log)| + |layers|
      ensures ok ==> asked == StepAsked(router, log, |old(log)|, |layers|)
      ensures ok ==> States() in AfterParts(layers, expertResidencyHotSlots, old(States()), asked, |layers|)
      ensures old(NeverPurged()) && expertResidencyHotSlots.None? ==> NeverPurged()
    {
      ghost var before, from, start := States(), |log|, Outcome(log, true);
      asked := [];
      ok := DecodeLayers();
      StepEnds(layers, router, start, Outcome(log, ok));
      if ok {
        AwaitCommands();
        ghost var served := States();
        ApplyPolicy();
        asked := StepAsked(router, log, from, |layers|);
        StepIsDone(layers, expertResidencyHotSlots, router, log, from, before, served, States());
      }
    }

    /** Chunk number c of a generation that started at `start`. */
    method PrefillStep(chunks: seq<seq<nat>>, c: nat, ghost start: Outcome, ghost before: seq<Cache>)
      returns (ok: bool)
      requires Valid() && IdleFrom(0) && c < |chunks|
      requires forall i :: 0 <= i < |chunks| ==> |chunks[i]| == |layers|
      requires Outcome(log, true) == Uncached(layers, router, start, PrefillOrder(chunks[..c], |layers|))
      requires States() in RunsFrom(layers, expertResidencyHotSlots, before, c)
      modifies this`log, streamers
      ensures Valid() && (ok ==> IdleFrom(0))
      ensures forall i :: 0 <= i < |chunks| ==> |chunks[i]| == |layers|
      ensures ok ==> Outcome(log, true) == Uncached(layers, router, start, PrefillOrder(chunks[..c + 1], |layers|))
      ensures !ok ==> Outcome(log, false) == Uncached(layers, router, start, PrefillOrder(chunks, |layers|))
      ensures ok ==> States() in RunsFrom(layers, expertResidencyHotSlots, before, c + 1)
      ensures old(NeverPurged()) && expertResidencyHotSlots.None? ==> NeverPurged()
    {
      ghost var asked, mid := [], States();
      ok, asked := PrefillChunk(chunks[c]);
      PrefillGrows(layers, router, start, chunks, c);
      if ok {
        RunsOneMore(layers, expertResidencyHotSlots, before, c, mid, asked, States());
      } else {
        PrefillFailsEarly(layers, router, start, chunks, c + 1);
      }
    }

    method Prefill(chunks: seq<seq<nat>>) returns (ok: bool)
      requires Valid() && IdleFrom(0)
      requires forall i :: 0 <= i < |chunks| ==> |chunks[i]| == |layers|
      modifies this`log, streamers
      ensures Valid() && (ok ==> IdleFrom(0))
      ensures forall i :: 0 <= i < |chunks| ==> |chunks[i]| == |layers|
      ensures Outcome(log, ok) == Uncached(layers, router, Outcome(old(log), true), PrefillOrder(chunks, |layers|))
      ensures ok ==> States() in RunsFrom(layers, expertResidencyHotSlots, old(States()), |chunks|)
      ensures old(NeverPurged()) && expertResidencyHotSlots.None? ==> NeverPurged()
    {
      ghost var never := NeverPurged() && expertResidencyHotSlots.None?;
      ghost var start, before := Outcome(log, true), States();
      ok := true;
      NoRun(layers, expertResidencyHotSlots, before);
      for c := 0 to |chunks|
        invariant Valid() && IdleFrom(0) && ok
        invariant States() in RunsFrom(layers, expertResidencyHotSlots, before, c)
        invariant Outcome(log, true) == Uncached(layers, router, start, PrefillOrder(chunks[..c], |layers|))
        invariant never ==> NeverPurged()
      {
        ok := PrefillStep(chunks, c, start, before);
        if !ok {
          return;
        }
      }
      assert chunks[..|chunks|] == chunks;
    }

    /** Decode step number s of a generation that started at `start`. */
    method DecodeNext(ghost start: Outcome, ghost s: nat, ghost steps: nat, ghost before: seq<Cache>)
      returns (ok: bool)
      requires Valid() && IdleFrom(0) && s < steps
      requires Decoded(layers, router, start, s, Outcome(log, true))
      requires States() in RunsFrom(layers, expertResidencyHotSlots, before, s)
      modifies this`log, streamers
      ensures Valid() && (ok ==> IdleFrom(0))
      ensures ok ==> Decoded(layers, router, start, s + 1, Outcome(log, true))
      ensures !ok ==> Decoded(layers, router, start, steps, Outcome(log, false))
      ensures ok ==> States() in RunsFrom(layers, expertResidencyHotSlots, before, s + 1)
      ensures old(NeverPurged()) && expertResidencyHotSlots.None? ==> NeverPurged()
    {
      ghost var asked, mid, o := [], States(), Outcome(log, true);
      ok, asked := DecodeStep();
      DecodedOneMore(layers, router, start, s, steps, o, Outcome(log, ok));
      if ok {
        RunsOneMore(layers, expertResidencyHotSlots, before, s, mid, asked, States());
      }
    }

    method Decode(steps: nat) returns (ok: bool)
      requires Valid() && IdleFrom(0)
      modifies this`log, streamers
      ensures Valid()
      ensures Decoded(layers, router, Outcome(old(log), true), steps, Outcome(log, ok))
      ensures ok ==> States() in RunsFrom(layers, expertResidencyHotSlots, old(States()), steps)
      ensures old(NeverPurged()) && expertResidencyHotSlots.None? ==> NeverPurged()
    {
      ghost var never := NeverPurged() && expertResidencyHotSlots.None?;
      ghost var start, before := Outcome(log, true), States();
      ok := true;
      NoRun(layers, expertResidencyHotSlots, before);
      for s := 0 to steps
        invariant Valid() && IdleFrom(0) && ok
        invariant States() in RunsFrom(layers, expertResidencyHotSlots, before, s)
        invariant Decoded(layers, router, start, s, Outcome(log, true))
        invariant never ==> NeverPurged()
      {
        ok := DecodeNext(start, s, steps, before);
        if !ok {
          return;
        }
      }
    }

    /** Prefill, then decode, unless prefill fails. */
    method Phases(chunks: seq<seq<nat>>, steps: nat, ghost start: Outcome)
      returns (ok: bool, ghost mid: seq<Cache>)
      requires Valid() && IdleFrom(0) && start == Outcome(log, true)
      requires forall i :: 0 <= i < |chunks| ==> |chunks[i]| == |layers|
      modifies this`log, streamers
      ensures Valid()
      ensures forall i :: 0 <= i < |chunks| ==> |chunks[i]| == |layers|
      ensures Decoded(layers, router, Uncached(layers, router, start, PrefillOrder(chunks, |layers|)), steps,
                      Outcome(log, ok))
      ensures ok ==> mid in RunsFrom(layers, expertResidencyHotSlots, old(States()), |chunks|)
      ensures ok ==> States() in RunsFrom(layers, expertResidencyHotSlots, mid, steps)
      ensures old(NeverPurged()) && expertResidencyHotSlots.None? ==> NeverPurged()
    {
      ghost var never := NeverPurged() && expertResidencyHotSlots.None?;
      ok := Prefill(chunks);
      mid := States();
      if ok {
        ok := Decode(steps);
      } else {
        FailedBefore(layers, router, Outcome(log, false), steps);
      }
    }

    /** The same, with all its rounds in one run. */
    method Rounds(chunks: seq<seq<nat>>, steps: nat, ghost start: Outcome) returns (ok: bool)
      requires Valid() && IdleFrom(0) && start == Outcome(log, true)
      requires forall i :: 0 <= i < |chunks| ==> |chunks[i]| == |layers|
      modifies this`log, streamers
      ensures Valid()
      ensures forall i :: 0 <= i < |chunks| ==> |chunks[i]| == |layers|
      ensures Decoded(layers, router, Uncached(layers, router, start, PrefillOrder(chunks, |layers|)), steps,
                      Outcome(log, ok))
      ensures ok ==> States() in RunsFrom(layers, expertResidencyHotSlots, old(States()), |chunks| + steps)
      ensures ok && |chunks| + steps > 0 ==> EachWithinPolicy(expertResidencyHotSlots, States())
      ensures old(NeverPurged()) && expertResidencyHotSlots.None? ==> NeverPurged()
    {
      ghost var before, mid := States(), [];
      ok, mid := Phases(chunks, steps, start);
      if ok {
        RunsEnd(layers, expertResidencyHotSlots, before, |chunks|, mid, steps, States());
      }
    }

    /** A whole generation: prefill in chunks, then decode steps, stopping at a failed read. */
    method Generate(chunks: seq<seq<nat>>, steps: nat) returns (ok: bool)
      requires Valid() && IdleFrom(0)
      requires forall i :: 0 <= i < |chunks| ==> |chunks[i]| == |layers|
      modifies this`log, streamers
      ensures Valid()
      ensures forall i :: 0 <= i < |chunks| ==> |chunks[i]| == |layers|
      ensures Outcome(log, ok) == Uncached(layers, router, Outcome(old(log), true),
                                           PrefillOrder(chunks, |layers|) + DecodeOrder(steps, |layers|))
      ensures ok ==> States() in RunsFrom(layers, expertResidencyHotSlots, old(States()), |chunks| + steps)
      ensures ok && |chunks| + steps > 0 ==> EachWithinPolicy(expertResidencyHotSlots, States())
      ensures old(NeverPurged()) && expertResidencyHotSlots.None? ==> NeverPurged()
      ensures apart ==> EveryLayerIsUnique()
    {
      ghost var start := Outcome(log, true);
      ok := Rounds(chunks, steps, start);
      BothPhases(layers, router, start, chunks, steps, Outcome(log, ok));
      if apart {
        ApartLayersAreUnique(this);
      }
    }

    /** The counters of one layer: additive, and all zero if nothing was ever purged. */
    method LayerStats(layer: nat) returns (t: Stats)
      requires Valid() && layer < |streamers|
      ensures t == streamers[layer].residency && Additive(layers[layer].slotSize, t)
      ensures !streamers[layer].purged ==> NoActivity(t)
    {
      var streamer := streamers[layer];
      t := streamer.ExpertCacheResidencyStats();
    }

    ghost function LayerCounters(): (parts: seq<Stats>)
      reads streamers
      ensures |parts| == |streamers| && forall i :: 0 <= i < |parts| ==> parts[i] == streamers[i].residency
    {
      seq(|streamers|, i requires 0 <= i < |streamers| reads streamers => streamers[i].residency)
    }

    ghost function Quiet(): (quiet: seq<bool>)
      reads streamers
      ensures |quiet| == |streamers|
      ensures forall i :: 0 <= i < |quiet| ==> quiet[i] == !streamers[i].purged
    {
      seq(|streamers|, i requires 0 <= i < |streamers| reads streamers => !streamers[i].purged)
    }

    /** The per-layer counters, summed, with what they satisfy one by one. */
    method CollectStats() returns (total: Stats)
      requires Valid()
      ensures total == Sum(LayerCounters()) && Collected(layers, LayerCounters(), Quiet(), |layers|)
    {
      ghost var parts, quiet := LayerCounters(), Quiet();
      assert parts[..|streamers|] == parts;
      total := Stats(0, 0, 0, 0, 0, 0, 0);
      for i := 0 to |streamers|
        invariant total == Sum(parts[..i]) && Collected(layers, parts, quiet, i)
      {
        var t := LayerStats(i);
        CollectedOneMore(layers, parts, quiet, i);
        total := Plus(total, t);
      }
    }

    /** The per-layer counters, summed. */
    method RoutedExpertCacheResidencyStats() returns (total: Stats)
      requires Valid()
      ensures total == Sum(LayerCounters())
      ensures forall slotSize: nat :: (forall i :: 0 <= i < |layers| ==> layers[i].slotSize == slotSize) ==>
                Additive(slotSize, total)
      ensures NeverPurged() ==> NoActivity(total)
    {
      total := CollectStats();
      CollectedAll(layers, LayerCounters(), Quiet());
    }
  }

  /** What the counters of the first n layers satisfy. */
  ghost predicate Collected(layers: seq<Config>, parts: seq<Stats>, quiet: seq<bool>, n: nat) {
    && n <= |layers| == |parts| == |quiet|
    && forall key {:trigger PartUnsealed(key)} :: PartUnsealed(key) ==>
         forall j :: 0 <= j < n ==> Additive(layers[j].slotSize, parts[j]) && (quiet[j] ==> NoActivity(parts[j]))
  }

  lemma CollectedOneMore(layers: seq<Config>, parts: seq<Stats>, quiet: seq<bool>, n: nat)
    requires Collected(layers, parts, quiet, n) && n < |layers|
    requires Additive(layers[n].slotSize, parts[n]) && (quiet[n] ==> NoActivity(parts[n]))
    ensures Collected(layers, parts, quiet, n + 1) && Sum(parts[..n + 1]) == Plus(Sum(parts[..n]), parts[n])
  {
    assert PartUnsealed(0) && parts[..n + 1][..n] == parts[..n];
  }

  lemma CollectedAll(layers: seq<Config>, parts: seq<Stats>, quiet: seq<bool>)
    requires Collected(layers, parts, quiet, |layers|)
    ensures forall slotSize: nat :: (forall i :: 0 <= i < |layers| ==> layers[i].slotSize == slotSize) ==>
              Additive(slotSize, Sum(parts))
    ensures (forall i :: 0 <= i < |quiet| ==> quiet[i]) ==> NoActivity(Sum(parts))
  {
    assert PartUnsealed(0);
    TotalIsAdditive(layers, parts);
    if forall i :: 0 <= i < |quiet| ==> quiet[i] {
      SumOfNothing(parts);
    }
  }

  /** Residency is invisible. What a generation observes is a function of the layer files,
      the router and the work alone: runners that differ in policy, slot counts, slot sizes
      and in what the OS took from them observe the same bytes in the same order. */
  lemma {:induction false} SameFilesSameReads(
    a: seq<Config>, b: seq<Config>, router: Router, o: Outcome, order: seq<nat>)
    requires |a| == |b| && LayerOrder(order, |a|)
    requires forall i :: 0 <= i < |a| ==> a[i].file == b[i].file
    ensures Uncached(a, router, o, order) == Uncached(b, router, o, order)
  {
    if order != [] {
      SameFilesSameReads(a, b, router, o, order[..|order| - 1]);
    }
  }

  /** With a router that never asks for one expert twice, no layer ever names an expert in two
      slots, between any two steps of any generation. */
  lemma ApartLayersAreUnique(r: RealForwardRunner)
    requires r.Valid() && r.apart
    ensures r.EveryLayerIsUnique()
  {
    forall i | 0 <= i < |r.streamers| ensures Unique(r.streamers[i].State()) {
      ApartIsUnique(r.streamers[i]);
    }
  }

  ghost predicate SameFiles(a: RealForwardRunner, b: RealForwardRunner) {
    |a.layers| == |b.layers| && forall i :: 0 <= i < |a.layers| ==> a.layers[i].file == b.layers[i].file
  }

  /** No streamer belongs to both runners. */
  ghost predicate Separate(a: RealForwardRunner, b: RealForwardRunner) {
    && a != b
    && forall i, j :: 0 <= i < |a.streamers| && 0 <= j < |b.streamers| ==> a.streamers[i] != b.streamers[j]
  }

  /** What leaves a runner's streamers alone leaves it as it was. */
  twostate lemma StaysValid(r: RealForwardRunner)
    requires old(r.Valid()) && forall i :: 0 <= i < |r.streamers| ==> unchanged(r.streamers[i])
    ensures r.Valid() && (old(r.NeverPurged()) ==> r.NeverPurged()) && (old(r.IdleFrom(0)) ==> r.IdleFrom(0))
  {
  }

  /** A generation beside another runner, which stays as it was. */
  method GenerateBeside(r: RealForwardRunner, other: RealForwardRunner, chunks: seq<seq<nat>>, steps: nat)
    returns (ok: bool)
    requires r.Valid() && r.IdleFrom(0) && other.Valid() && Separate(r, other)
    requires forall i :: 0 <= i < |chunks| ==> |chunks[i]| == |r.layers|
    modifies r`log, r.streamers
    ensures r.Valid() && forall i :: 0 <= i < |chunks| ==> |chunks[i]| == |r.layers|
    ensures Outcome(r.log, ok) == Uncached(r.layers, r.router, Outcome(old(r.log), true),
                                           PrefillOrder(chunks, |r.layers|) + DecodeOrder(steps, |r.layers|))
    ensures old(r.NeverPurged()) && r.expertResidencyHotSlots.None? ==> r.NeverPurged()
    ensures other.Valid() && (old(other.NeverPurged()) ==> other.NeverPurged())
    ensures old(other.IdleFrom(0)) ==> other.IdleFrom(0)
  {
    ok := r.Generate(chunks, steps);
    StaysValid(other);
  }

  /** Two runners on machines of their own, with any policies (none is one) and slot counts:
      the same files, router and work give the same reads and the same verdict. */
  method GenerateTwice(a: RealForwardRunner, b: RealForwardRunner, chunks: seq<seq<nat>>, steps: nat)
    returns (okA: bool, okB: bool)
    requires a.Valid() && a.IdleFrom(0) && b.Valid() && b.IdleFrom(0)
    requires Separate(a, b)
    requires SameFiles(a, b) && a.router == b.router && a.log == b.log
    requires forall i :: 0 <= i < |chunks| ==> |chunks[i]| == |a.layers|
    modifies a`log, a.streamers, b`log, b.streamers
    ensures a.Valid() && b.Valid()
    ensures okA == okB && a.log == b.log && old(a.log) <= a.log
    ensures old(a.NeverPurged()) && a.expertResidencyHotSlots.None? ==> a.NeverPurged()
  {
    ghost var start := Outcome(a.log, true);
    ghost var order := PrefillOrder(chunks, |a.layers|) + DecodeOrder(steps, |a.layers|);
    okA := GenerateBeside(a, b, chunks, steps);
    okB := GenerateBeside(b, a, chunks, steps);
    SameEnd(a.layers, b.layers, a.router, start, order, Outcome(a.log, okA), Outcome(b.log, okB));
  }

  lemma SameEnd(
    a: seq<Config>, b: seq<Config>, router: Router, start: Outcome, order: seq<nat>, atA: Outcome, atB: Outcome)
    requires |a| == |b| && LayerOrder(order, |a|) && forall i :: 0 <= i < |a| ==> a[i].file == b[i].file
    requires atA == Uncached(a, router, start, order) && atB == Uncached(b, router, start, order)
    ensures atA == atB && start.log <= atA.log
  {
    SameFilesSameReads(a, b, router, start, order);
    LogGrows(a, router, start, order);
  }

  lemma {:induction false} LogGrows(layers: seq<Config>, router: Router, o: Outcome, order: seq<nat>)
    requires LayerOrder(order, |layers|)
    ensures o.log <= Uncached(layers, router, o, order).log
  {
    if order != [] {
      LogGrows(layers, router, o, order[..|order| - 1]);
    }
  }
}
