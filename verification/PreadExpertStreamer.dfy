/** The streamer of one layer: the Swift class whose methods plan, load, offer and discard
    expert slots under one lock.

    `purgeable` and `contents` are the state of the slot buffers. They belong to the
    operating system as much as to the class: every call first lets the OS empty any
    volatile buffers it likes (`OsActs`). `bound` maps each slot that a GPU command still in
    flight may read to the expert it must hold. */
module Streamer {
  import opened ExpertCache
  import opened HotSet
  import opened SafePoint
  import opened ExpertPlan
  import opened ExpertTally

  class PreadExpertStreamer {
    const cfg: Config

    var slotExpert: seq<int>
    var slotLastUse: seq<int>
    var expertUseCount: seq<int>
    var slotResidency: seq<Residency>
    var residency: Stats

    var purgeable: seq<Residency>
    var contents: seq<Blob>

    ghost var bound: map<int, nat>
    ghost var apart: bool
    ghost var purged: bool
    ghost var history: seq<Event>
    ghost const initial: Cache

    ghost function State(): Cache
      reads this
    {
      Cache(slotExpert, slotLastUse, expertUseCount, slotResidency, purgeable, contents, residency)
    }

    /** The state is where a legal run of events leads, every slot is coupled, identities are
        distinct as long as no request has asked for one expert twice, `purged` says whether a
        slot was ever offered or discarded, and every slot a GPU command may still read is locked
        and names the expert the command asked for. */
    ghost predicate Valid()
      reads this
    {
      && Reached(cfg, initial, history, State(), apart, purged)
      && (forall s :: s in bound ==> Holds(State(), s, bound[s]))
    }

    constructor (cfg: Config, buffers: seq<Blob>)
      requires |buffers| == cfg.slotCount
      ensures Valid() && this.cfg == cfg && bound == map[] && history == [] && apart && !purged
      ensures Fresh(cfg, State())
    {
      this.cfg := cfg;
      var n := cfg.slotCount;
      var uses := if |cfg.file| == 0 then 1 else |cfg.file|;
      slotExpert := seq(n, _ => FREE);
      slotLastUse := seq(n, _ => 0);
      expertUseCount := seq(uses, _ => 0);
      slotResidency := seq(n, _ => NonVolatile);
      residency := Stats(0, 0, 0, 0, 0, 0, 0);
      purgeable := seq(n, _ => NonVolatile);
      contents := buffers;
      bound := map[];
      apart, purged := true, false;
      history := [];
      initial := Cache(seq(n, _ => FREE), seq(n, _ => 0), seq(uses, _ => 0), seq(n, _ => NonVolatile),
                       seq(n, _ => NonVolatile), buffers, Stats(0, 0, 0, 0, 0, 0, 0));
      new;
      assert State() == initial;
      StartRun(cfg, initial);
    }

    /** Any number of volatile buffers are emptied, in any order. */
    method OsActs()
      requires Valid()
      modifies this`purgeable, this`contents, this`history
      ensures Valid() && OsOnly(cfg, old(State()), State())
      ensures Looked(old(history), history)
    {
      var rounds: int := *;
      while rounds > 0
        invariant Valid() && OsOnly(cfg, old(State()), State())
        invariant Looked(old(history), history)
      {
        var s: int := *;
        if 0 <= s < cfg.slotCount && purgeable[s] == Volatile {
          var junk: Blob := *;
          ghost var before := State();
          assert OsOnlyAt(cfg, old(State()), before, s);
          Advance(cfg, initial, history, before, apart, purged, Reclaim(s, junk), apart, purged);
          purgeable := purgeable[s := Empty];
          contents := contents[s := junk];
          history := history + [Reclaim(s, junk)];
          forall t: nat | t < cfg.slotCount ensures OsOnlyAt(cfg, old(State()), State(), t) {
            assert OsOnlyAt(cfg, old(State()), before, t);
          }
        }
        rounds := rounds - 1;
      }
    }

    method SetPurgeableState(slot: nat, wanted: Residency) returns (previous: Residency)
      requires slot < cfg.slotCount == |purgeable| == |contents|
      modifies this`purgeable, this`contents
      ensures previous == old(purgeable[slot]) && purgeable == old(purgeable)[slot := wanted]
      ensures |contents| == |old(contents)|
      ensures contents == old(contents)[slot := if wanted == Empty then contents[slot] else old(contents[slot])]
    {
      previous := purgeable[slot];
      purgeable := purgeable[slot := wanted];
      if wanted == Empty {
        var junk: Blob := *;
        contents := contents[slot := junk];
      }
    }

    /** The body of the relock, on whatever the OS has left. */
    method LockSlot(slot: nat) returns (valid: bool)
      requires Sized(cfg, State()) && slot < cfg.slotCount
      modifies this`slotExpert, this`slotLastUse, this`slotResidency, this`residency,
               this`purgeable, this`contents
      ensures State() == Relocked(cfg, old(State()), slot)
      ensures valid == (old(slotResidency[slot]) == NonVolatile || !FoundEmpty(old(State()), slot))
    {
      if slotResidency[slot] == NonVolatile {
        return true;
      }
      var trackedState := slotResidency[slot];
      var previous := SetPurgeableState(slot, NonVolatile);
      slotResidency := slotResidency[slot := NonVolatile];
      residency := residency.(revalidations := residency.revalidations + 1);
      var wasEmpty := trackedState == Empty || previous == Empty;
      if wasEmpty {
        residency := residency.(emptyRecoveries := residency.emptyRecoveries + 1,
                                reclaimedBytes := residency.reclaimedBytes + cfg.slotSize);
        if slotExpert[slot] >= 0 {
          slotExpert := slotExpert[slot := FREE];
          slotLastUse := slotLastUse[slot := 0];
          residency := residency.(invalidatedSlots := residency.invalidatedSlots + 1);
        }
        return false;
      }
      residency := residency.(retained := residency.retained + 1);
      return true;
    }

    /** Locks a slot, and tells whether its previous contents are still valid. */
    method EnsureSlotNonVolatileLocked(slot: nat) returns (valid: bool)
      requires Valid() && slot < cfg.slotCount
      modifies this`slotExpert, this`slotLastUse, this`slotResidency, this`residency,
               this`purgeable, this`contents, this`history
      ensures Valid() && RelockStep(cfg, old(State()), slot, State(), valid)
      ensures Looked(old(history), history)
    {
      ghost var c := State();
      OsActs();
      Advance(cfg, initial, history, State(), apart, purged, Relock(slot), apart, purged);
      RelockIsAStep(cfg, c, State(), slot);
      history := history + [Relock(slot)];
      valid := LockSlot(slot);
      HoldsThroughRelock(cfg, c, slot, State(), valid, bound);
    }

    // ----- Planning --------------------------------------------------------------

    /** Recency and use count of a hit move on; by how much is the upstream policy's choice. */
    method Touch(slot: nat)
      requires Valid() && slot < cfg.slotCount && slotExpert[slot] >= 0 && slotResidency[slot] == NonVolatile
      modifies this`slotLastUse, this`expertUseCount, this`history
      ensures Valid()
      ensures |slotLastUse| == |old(slotLastUse)| && |expertUseCount| == |old(expertUseCount)|
      ensures forall s :: 0 <= s < |slotLastUse| && s != slot ==> slotLastUse[s] == old(slotLastUse[s])
      ensures forall x :: 0 <= x < |expertUseCount| && x != slotExpert[slot] ==>
                expertUseCount[x] == old(expertUseCount[x])
      ensures Looked(old(history), history)
    {
      var stamp: int := *;
      var uses: int := *;
      assert CoupledSlot(cfg, State(), slot);
      Advance(cfg, initial, history, State(), apart, purged, Event.Touch(slot, stamp, uses), apart, purged);
      history := history + [Event.Touch(slot, stamp, uses)];
      slotLastUse := slotLastUse[slot := stamp];
      expertUseCount := expertUseCount[slotExpert[slot] := uses];
    }

    /** Relocks a slot that names the request: its hit if the contents are still valid. */
    method TryHit(
      ghost c: Cache, experts: seq<nat>, index: nat, slots: seq<int>, reserved: set<nat>, slot: nat)
      returns (valid: bool)
      requires Valid() && bound == map[] && index < |experts| && slot < cfg.slotCount
      requires HitPass(cfg, c, State(), experts, index, slots, reserved)
      requires Tally(cfg, c, State(), experts, reserved)
      requires slot !in reserved && slotExpert[slot] == experts[index]
      modifies this`slotExpert, this`slotLastUse, this`expertUseCount, this`slotResidency,
               this`residency, this`purgeable, this`contents, this`history
      ensures Valid()
      ensures valid ==> HitPass(cfg, c, State(), experts, index + 1, slots[index := slot], reserved + {slot})
      ensures Tally(cfg, c, State(), experts, if valid then reserved + {slot} else reserved)
      ensures !valid ==>
                && HitPass(cfg, c, State(), experts, index, slots, reserved)
                && slotExpert[slot] == FREE
                && forall s: nat :: s < cfg.slotCount ==>
                     State().expert[s] == old(State()).expert[s] || State().expert[s] == FREE
      ensures Looked(old(history), history)
    {
      ghost var d := State();
      valid := EnsureSlotNonVolatileLocked(slot);
      HitsSurviveRelock(cfg, c, d, experts, index, slots, reserved, slot, State(), valid);
      TallyRelocks(cfg, c, d, experts, reserved, slot, State(), valid);
      if valid {
        ghost var e := State();
        Touch(slot);
        HitsSurviveTouch(cfg, c, e, experts, index, slots, reserved, State());
        TallyTouches(cfg, c, e, experts, reserved + {slot}, State());
        HitsGainHit(cfg, c, State(), experts, index, slots, reserved, slot);
      }
    }

    /** One slot in the search for a request: a hit, or the search goes on behind it. */
    method TrySlot(
      ghost c: Cache, experts: seq<nat>, index: nat, slots: seq<int>, reserved: set<nat>, slot: nat)
      returns (found: bool)
      requires Valid() && bound == map[] && index < |experts| && slot < cfg.slotCount
      requires HitPass(cfg, c, State(), experts, index, slots, reserved)
      requires Tally(cfg, c, State(), experts, reserved)
      requires Searched(cfg, State(), experts[index], reserved, slot)
      modifies this`slotExpert, this`slotLastUse, this`expertUseCount, this`slotResidency,
               this`residency, this`purgeable, this`contents, this`history
      ensures Valid()
      ensures found ==> HitPass(cfg, c, State(), experts, index + 1, slots[index := slot], reserved + {slot})
      ensures !found ==> HitPass(cfg, c, State(), experts, index, slots, reserved)
                         && Searched(cfg, State(), experts[index], reserved, slot + 1)
      ensures Tally(cfg, c, State(), experts, if found then reserved + {slot} else reserved)
      ensures Looked(old(history), history)
    {
      found := false;
      if slot !in reserved && slotExpert[slot] == experts[index] {
        found := TryHit(c, experts, index, slots, reserved, slot);
      }
    }

    /** Looks for one request among the unreserved slots, each match behind a relock. */
    method FindHit(
      ghost c: Cache, experts: seq<nat>, index: nat, slots: seq<int>, reserved: set<nat>)
      returns (slots': seq<int>, reserved': set<nat>)
      requires Valid() && bound == map[] && index < |experts|
      requires HitPass(cfg, c, State(), experts, index, slots, reserved)
      requires Tally(cfg, c, State(), experts, reserved)
      modifies this`slotExpert, this`slotLastUse, this`expertUseCount, this`slotResidency,
               this`residency, this`purgeable, this`contents, this`history
      ensures Valid()
      ensures HitPass(cfg, c, State(), experts, index + 1, slots', reserved')
      ensures Tally(cfg, c, State(), experts, reserved')
      ensures Looked(old(history), history)
    {
      for slot := 0 to cfg.slotCount
        invariant Valid()
        invariant HitPass(cfg, c, State(), experts, index, slots, reserved)
        invariant Tally(cfg, c, State(), experts, reserved)
        invariant Searched(cfg, State(), experts[index], reserved, slot)
        invariant Looked(old(history), history)
      {
        var found := TrySlot(c, experts, index, slots, reserved, slot);
        if found {
          return slots[index := slot], reserved + {slot};
        }
      }
      HitsGainMiss(cfg, c, State(), experts, index, slots, reserved);
      return slots, reserved;
    }

    /** First pass over all requests. */
    method FindHits(experts: seq<nat>) returns (slots: seq<int>, reserved: set<nat>)
      requires Valid() && bound == map[]
      modifies this`slotExpert, this`slotLastUse, this`expertUseCount, this`slotResidency,
               this`residency, this`purgeable, this`contents, this`history
      ensures Valid()
      ensures HitPass(cfg, old(State()), State(), experts, |experts|, slots, reserved)
      ensures Tally(cfg, old(State()), State(), experts, reserved)
      ensures Looked(old(history), history)
    {
      ghost var c := State();
      slots := seq(|experts|, _ => FREE);
      reserved := {};
      HitsStart(cfg, c, experts, slots);
      TallyStarts(cfg, c, experts);
      for index := 0 to |experts|
        invariant Valid()
        invariant HitPass(cfg, c, State(), experts, index, slots, reserved)
        invariant Tally(cfg, c, State(), experts, reserved)
        invariant Looked(old(history), history)
      {
        slots, reserved := FindHit(c, experts, index, slots, reserved);
      }
    }

    /** Planning may or may not drop a victim's identity before the relock. */
    method MayForget(v: nat)
      requires Valid() && v < cfg.slotCount && v !in bound
      modifies this`slotExpert, this`history
      ensures Valid()
      ensures slotExpert == old(slotExpert) || slotExpert == old(slotExpert)[v := FREE]
      ensures old(history) <= history
    {
      var forget: bool := *;
      if forget {
        Advance(cfg, initial, history, State(), apart, purged, Forget(v), apart, purged);
        history := history + [Forget(v)];
        slotExpert := slotExpert[v := FREE];
      }
    }

    /** Request number index gets a victim, any unreserved slot, unless it has its hit. */
    method ChooseVictim(
      ghost d: Cache, ghost hits: seq<int>, experts: seq<nat>, index: nat,
      slots: seq<int>, taken: set<nat>, misses: seq<nat>)
      returns (slots': seq<int>, taken': set<nat>, misses': seq<nat>)
      requires Valid() && bound == map[] && index < |experts| <= cfg.slotCount
      requires VictimPass(cfg, d, hits, experts, index, slots, taken, misses, State())
      modifies this`slotExpert, this`history
      ensures Valid()
      ensures VictimPass(cfg, d, hits, experts, index + 1, slots', taken', misses', State())
      ensures old(history) <= history
    {
      if slots[index] != FREE {
        VictimsSkip(cfg, d, hits, experts, index, slots, taken, misses, State());
        return slots, taken, misses;
      }
      VictimAvailable(cfg, d, hits, experts, index, slots, taken, misses, State());
      var v: nat :| v < cfg.slotCount && v !in taken;
      VictimsGain(cfg, d, hits, experts, index, slots, taken, misses, State(), v);
      slots', misses', taken' := slots[index := v], misses + [index], taken + {v};
      ghost var e := State();
      MayForget(v);
      VictimsForget(cfg, d, hits, experts, index + 1, slots', taken', misses', e, v, State());
    }

    /** Second pass: every miss gets a victim. */
    method ChooseVictims(experts: seq<nat>, hits: seq<int>, hitSlots: set<nat>, ghost c: Cache)
      returns (p: Plan, ghost reserved: set<nat>)
      requires Valid() && bound == map[] && |experts| <= cfg.slotCount
      requires HitPass(cfg, c, State(), experts, |experts|, hits, hitSlots)
      modifies this`slotExpert, this`history
      ensures Valid() && p.experts == experts
      ensures VictimPass(cfg, old(State()), hits, experts, |experts|, p.slots, reserved, p.misses, State())
      ensures old(history) <= history
    {
      ghost var d := State();
      var slots := hits;
      var misses: seq<nat> := [];
      var taken := hitSlots;
      VictimsStart(cfg, c, d, experts, hits, hitSlots);
      for index := 0 to |experts|
        invariant Valid()
        invariant VictimPass(cfg, d, hits, experts, index, slots, taken, misses, State())
        invariant old(history) <= history
      {
        slots, taken, misses := ChooseVictim(d, hits, experts, index, slots, taken, misses);
      }
      p := Plan(experts, slots, misses);
      reserved := taken;
    }

    method PlanExpertsCached(experts: seq<nat>) returns (p: Plan)
      requires Valid() && bound == map[] && |experts| <= cfg.slotCount
      modifies this`slotExpert, this`slotLastUse, this`expertUseCount, this`slotResidency,
               this`residency, this`purgeable, this`contents, this`history
      ensures Valid() && p.experts == experts
      ensures Planned(cfg, old(State()), State(), p)
      ensures old(history) <= history
      ensures Found(cfg, old(State()), history[|old(history)|..], State(), p)
    {
      ghost var c, h := State(), history;
      var hits, hitSlots := FindHits(experts);
      ghost var d, looked := State(), history;
      forall s | s in EmptiedSlots(c, d) ensures Gone(c, looked[|h|..], s) {
        assert TallyAt(cfg, c, d, experts, hitSlots, s);
        LookedAndReached(cfg, initial, h, c, looked, d, apart, purged, s);
      }
      TallyLocksOnlyHits(cfg, c, d, experts, hitSlots);
      ghost var reserved;
      p, reserved := ChooseVictims(experts, hits, hitSlots, c);
      PlanIsFinished(cfg, c, d, hits, hitSlots, p, reserved, State());
      forall s | s in EmptiedSlots(c, d) ensures Gone(c, history[|h|..], s) {
        StillGone(c, h, looked, history, s);
      }
      PlanFinds(cfg, c, history[|h|..], d, hits, hitSlots, p, reserved, State());
    }

    // ----- Executing a plan ------------------------------------------------------

    /** The bytes of one expert are read into a slot, which then carries its name. */
    method ReadInto(slot: nat, expert: nat) returns (stamp: int, uses: int)
      requires Sized(cfg, State()) && Legal(cfg, State(), Fill(slot, expert, 0, 0))
      modifies this`slotExpert, this`slotLastUse, this`expertUseCount, this`contents
      ensures State() == Apply(cfg, old(State()), Fill(slot, expert, stamp, uses))
    {
      var now: int := *;
      var count: int := *;
      contents := contents[slot := cfg.file[expert]];
      slotExpert := slotExpert[slot := expert];
      slotLastUse := slotLastUse[slot := now];
      expertUseCount := expertUseCount[expert := count];
      return now, count;
    }

    /** A complete read into a locked slot, and its publication. */
    method ReadAndPublish(slot: nat, expert: nat) returns (ghost stamp: int, ghost uses: int)
      requires Valid() && slot < cfg.slotCount && slot !in bound
      requires expert < |cfg.file| && slotResidency[slot] == NonVolatile
      modifies this`slotExpert, this`slotLastUse, this`expertUseCount, this`contents, this`history, this`apart
      ensures Valid() && Legal(cfg, old(State()), Fill(slot, expert, stamp, uses))
      ensures apart == (old(apart) && Apart(old(State()), Fill(slot, expert, stamp, uses)))
      ensures State() == Apply(cfg, old(State()), Fill(slot, expert, stamp, uses))
      ensures old(history) <= history
    {
      ghost var o := State();
      var now, count := ReadInto(slot, expert);
      stamp, uses := now, count;
      ghost var e := Fill(slot, expert, stamp, uses);
      ghost var stays := apart && Apart(o, e);
      Advance(cfg, initial, history, o, apart, purged, e, stays, purged);
      apart, history := stays, history + [e];
    }

    /** One miss: range check, relock, complete read, publication. */
    method LoadMiss(p: Plan, n: nat, ghost before: Cache) returns (ok: bool)
      requires Valid() && bound == map[]
      requires InProgress(cfg, before, p, n, State()) && n < |p.misses|
      modifies this`slotExpert, this`slotLastUse, this`expertUseCount, this`slotResidency,
               this`residency, this`purgeable, this`contents, this`history, this`apart
      ensures Valid()
      ensures ok <==> p.experts[p.misses[n]] < |cfg.file|
      ensures ok ==> InProgress(cfg, before, p, n + 1, State())
      ensures !ok ==> State() == old(State()) && apart == old(apart)
      ensures ok && Unpublished(old(State()), p, n) ==> Unpublished(State(), p, n + 1) && apart == old(apart)
      ensures Unique(old(State())) && Unpublished(old(State()), p, n) ==> Unique(State())
      ensures old(history) <= history
    {
      var m := p.misses[n];
      var slot, expert := p.slots[m], p.experts[m];
      if expert >= |cfg.file| {
        return false;
      }
      ghost var c := State();
      assert IsMissSlot(p, slot);
      ProgressIs(cfg, before, p, n, c);
      var valid := EnsureSlotNonVolatileLocked(slot);
      ghost var d := State();
      FilledSurvives(cfg, before, c, p, n, slot, d, valid);
      RelockOnlyLoses(cfg, c, slot, d, valid);
      ghost var stamp, uses := ReadAndPublish(slot, expert);
      FilledGains(cfg, before, d, p, n, stamp, uses);
      if Unpublished(c, p, n) {
        FillIsApart(cfg, c, d, p, n, stamp, uses);
      }
      ProgressGoesOn(cfg, before, p, n + 1, State());
      return true;
    }

    /** Miss number n of a plan that was first in state c. */
    method LoadNext(p: Plan, n: nat, ghost c: Cache) returns (ok: bool)
      requires Valid() && bound == map[]
      requires InProgress(cfg, c, p, n, State()) && n < |p.misses|
      modifies this`slotExpert, this`slotLastUse, this`expertUseCount, this`slotResidency,
               this`residency, this`purgeable, this`contents, this`history, this`apart
      ensures Valid()
      ensures ok <==> p.experts[p.misses[n]] < |cfg.file|
      ensures InProgress(cfg, c, p, if ok then n + 1 else n, State())
      ensures Unpublished(c, p, 0) ==> apart == old(apart)
      ensures old(history) <= history
    {
      ProgressIs(cfg, c, p, n, State());
      ok := LoadMiss(p, n, c);
    }

    /** The misses of a plan, in order, up to one that is not in the file. */
    method LoadMisses(p: Plan) returns (ok: bool)
      requires Valid() && bound == map[] && Shaped(cfg, p)
      modifies this`slotExpert, this`slotLastUse, this`expertUseCount, this`slotResidency,
               this`residency, this`purgeable, this`contents, this`history, this`apart
      ensures Valid()
      ensures ok <==> forall k :: 0 <= k < |p.misses| ==> p.experts[p.misses[k]] < |cfg.file|
      ensures OthersKept(cfg, old(State()), State(), p)
      ensures ok ==> Executed(cfg, old(State()), p, State())
      ensures Unpublished(old(State()), p, 0) ==> apart == old(apart)
      ensures Unique(old(State())) && Unpublished(old(State()), p, 0) ==> Unique(State())
      ensures old(history) <= history
    {
      ghost var c := State();
      ProgressStarts(cfg, c, p);
      for n := 0 to |p.misses|
        invariant Valid()
        invariant InProgress(cfg, c, p, n, State())
        invariant forall k :: 0 <= k < n ==> p.experts[p.misses[k]] < |cfg.file|
        invariant Unpublished(c, p, 0) ==> apart == old(apart)
        invariant old(history) <= history
      {
        var read := LoadNext(p, n, c);
        if !read {
          ProgressIs(cfg, c, p, n, State());
          return false;
        }
      }
      ProgressEnds(cfg, c, p, State());
      return true;
    }

    /** Reads the misses of a plan, whenever it was made, and binds its slots to a command. The
        hits are not looked at again: all the slots hold their experts afterwards exactly when
        all the hits still did, and only then is the command entitled to what it asked for. */
    method ExecuteExpertCachePlan(p: Plan) returns (ok: bool)
      requires Valid() && bound == map[] && Shaped(cfg, p)
      modifies this`slotExpert, this`slotLastUse, this`expertUseCount, this`slotResidency,
               this`residency, this`purgeable, this`contents, this`history, this`bound, this`apart
      ensures Valid()
      ensures ok <==> forall k :: 0 <= k < |p.misses| ==> p.experts[p.misses[k]] < |cfg.file|
      ensures OthersKept(cfg, old(State()), State(), p)
      ensures ok ==> Executed(cfg, old(State()), p, State())
      ensures ok ==> (AllHold(State(), p) <==> HitsHold(old(State()), p))
      ensures bound == if ok && HitsHold(old(State()), p) then BoundBy(p) else map[]
      ensures Unpublished(old(State()), p, 0) ==> apart == old(apart)
      ensures Unique(old(State())) && Unpublished(old(State()), p, 0) ==> Unique(State())
      ensures old(history) <= history
    {
      ghost var c := State();
      ok := LoadMisses(p);
      if ok {
        ExecutedHolds(cfg, c, p, State());
        bound := if HitsHold(c, p) then BoundBy(p) else map[];
      }
    }

    /** Plan and execute: after it, the command may read exactly the requested experts. */
    method LoadExpertsCached(experts: seq<nat>) returns (p: Plan, ok: bool)
      requires Valid() && bound == map[] && |experts| <= cfg.slotCount
      modifies this
      ensures Valid() && Sized(cfg, State()) && p.experts == experts
      ensures ok <==> forall i :: 0 <= i < |experts| ==> experts[i] < |cfg.file|
      ensures |p.slots| == |experts| && forall i, j :: 0 <= i < j < |p.slots| ==> p.slots[i] != p.slots[j]
      ensures bound == if ok then BoundBy(p) else map[]
      ensures ok ==> State() in LoadedFrom(cfg, old(State()), p)
      ensures ok ==> LoadTakes(old(State()), p, State()) && LoadPlaces(old(State()), p, State())
      ensures purged == old(purged) && (Distinct(experts) ==> apart == old(apart))
      ensures Unique(old(State())) && Distinct(experts) ==> Unique(State())
    {
      ghost var c := State();
      p := PlanExpertsCached(experts);
      ghost var d := State();
      ghost var es := history[|old(history)|..];
      PlanIsExecutable(cfg, c, d, p);
      ok := ExecuteExpertCachePlan(p);
      if ok {
        IsLoaded(cfg, c, es, p, d, State());
      }
    }

    /** The GPU command reads its slots, at any time before it completes. */
    method GpuReads(p: Plan) returns (observed: seq<Blob>)
      requires Valid() && |p.slots| == |p.experts|
      requires forall i, j :: 0 <= i < j < |p.slots| ==> p.slots[i] != p.slots[j]
      requires bound == BoundBy(p)
      modifies this`purgeable, this`contents, this`history
      ensures Valid() && OsOnly(cfg, old(State()), State())
      ensures forall i :: 0 <= i < |p.experts| ==> p.experts[i] < |cfg.file|
      ensures observed == FileBytes(cfg, p.experts)
      ensures forall s :: s in bound ==> 0 <= s < |purgeable| && purgeable[s] == NonVolatile
    {
      OsActs();
      BoundSlotsAreExact(cfg, State(), bound);
      observed := seq(|p.slots|, i requires 0 <= i < |p.slots|
                                   requires 0 <= p.slots[i] < |contents| reads this => contents[p.slots[i]]);
    }

    /** The reads of the command that was loaded from state c. */
    method ReadLoaded(p: Plan, ghost c: Cache) returns (observed: seq<Blob>)
      requires Valid() && |p.slots| == |p.experts|
      requires forall i, j :: 0 <= i < j < |p.slots| ==> p.slots[i] != p.slots[j]
      requires bound == BoundBy(p) && State() in LoadedFrom(cfg, c, p)
      modifies this`purgeable, this`contents, this`history
      ensures Valid() && State() in ServedFrom(cfg, c, p.experts)
      ensures forall i :: 0 <= i < |p.experts| ==> p.experts[i] < |cfg.file|
      ensures observed == FileBytes(cfg, p.experts)
    {
      ghost var loaded := State();
      observed := GpuReads(p);
      IsServed(cfg, c, p, loaded, State());
    }

    /** One request and the reads of its command, which stays in flight. */
    method RunCommand(experts: seq<nat>) returns (ok: bool, observed: seq<Blob>)
      requires Valid() && bound == map[] && |experts| <= cfg.slotCount
      modifies this
      ensures Valid()
      ensures ok <==> forall i :: 0 <= i < |experts| ==> experts[i] < |cfg.file|
      ensures ok ==> observed == FileBytes(cfg, experts) && State() in ServedFrom(cfg, old(State()), experts)
      ensures purged == old(purged) && (Distinct(experts) ==> apart == old(apart))
    {
      ghost var c := State();
      var p;
      p, ok := LoadExpertsCached(experts);
      observed := [];
      if ok {
        observed := ReadLoaded(p, c);
      }
    }

    method CommandCompleted()
      requires Valid()
      modifies this`bound
      ensures Valid() && bound == map[]
    {
      bound := map[];
    }

    /** The counters, with their balance over everything the cache has been through. */
    method ExpertCacheResidencyStats() returns (t: Stats)
      requires Valid()
      ensures t == State().stats
      ensures Fresh(cfg, initial) && LegalRun(cfg, initial, history)
      ensures Balanced(cfg, State(), NonVolatileDiscards(cfg, initial, history),
                       ForgottenRecoveries(cfg, initial, history))
      ensures !purged ==> NoActivity(t)
    {
      UnsealRun(cfg, initial, history, State(), apart, purged);
      EveryRunBalances(cfg, initial, history);
      if !purged {
        FixedRunStaysResident(cfg, initial, history);
      }
      return residency;
    }

    // ----- Safe points -----------------------------------------------------------

    /** The caller must be at a GPU-safe boundary: no command may still read these slots. */
    method OfferSlot(slot: nat)
      requires Valid() && bound == map[] && slot < cfg.slotCount
      requires slotExpert[slot] >= 0 && slotResidency[slot] == NonVolatile
      modifies this`slotResidency, this`residency, this`purgeable, this`contents, this`history, this`purged
      ensures Valid() && Legal(cfg, old(State()), Offer(slot))
      ensures State() == Apply(cfg, old(State()), Offer(slot))
    {
      Advance(cfg, initial, history, State(), apart, purged, Offer(slot), apart, true);
      history, purged := history + [Offer(slot)], true;
      var previous := SetPurgeableState(slot, Volatile);
      slotResidency := slotResidency[slot := Volatile];
      residency := residency.(volatileTransitions := residency.volatileTransitions + 1);
      assert State() == Apply(cfg, old(State()), Offer(slot));
    }

    /** The occupied slots in index order, and the hot ones among them. */
    method RankSlots(keepingHotSlots: int) returns (occupied: seq<nat>, hot: set<nat>)
      requires Valid()
      ensures Sized(cfg, State()) && Distinct(occupied) && SetOf(occupied) == OccupiedSet(State())
      ensures |occupied| == |OccupiedSet(State())| && IsHotSet(State(), keepingHotSlots, hot)
      ensures UsedMost(State(), keepingHotSlots, hot)
    {
      var now := Cache(slotExpert, slotLastUse, expertUseCount, slotResidency, purgeable, contents, residency);
      occupied := Occupied(now, cfg.slotCount);
      var kept := HotSlots(now, keepingHotSlots);
      hot := set s | s in kept;
      assert hot == SetOf(kept);
      HotSlotsAreTheHotSet(now, keepingHotSlots);
      HotSetIsUsedMost(cfg, now, keepingHotSlots, hot);
      OccupiedIsDistinctAndComplete(now);
      DistinctCount(occupied);
    }

    /** One occupied slot of a boundary call. */
    method SettleSlot(slot: nat, hot: set<nat>, ghost c: Cache, ghost done: set<nat>) returns (offered: bool)
      requires Valid() && bound == map[] && slot < cfg.slotCount
      requires BoundaryPass(cfg, c, hot, done, State()) && slot in OccupiedSet(c) && slot !in done
      modifies this`slotExpert, this`slotLastUse, this`slotResidency, this`residency,
               this`purgeable, this`contents, this`history, this`purged
      ensures Valid() && BoundaryPass(cfg, c, hot, done + {slot}, State())
      ensures residency.volatileTransitions == old(residency.volatileTransitions) + (if offered then 1 else 0)
    {
      ghost var d := State();
      assert OsOnlyAt(cfg, c, d, slot);
      offered := false;
      if slot in hot {
        var valid := EnsureSlotNonVolatileLocked(slot);
        BoundaryRelocks(cfg, c, hot, done, d, slot, State(), valid);
      } else {
        OsActs();
        ghost var o := State();
        assert CoupledSlot(cfg, o, slot) && OsOnlyAt(cfg, d, o, slot);
        if slotResidency[slot] == NonVolatile {
          BoundaryOffers(cfg, c, hot, done, d, slot, o);
          OfferSlot(slot);
          offered := true;
        } else {
          BoundarySkips(cfg, c, hot, done, d, slot, o);
        }
      }
    }

    /** Occupied slot number i of a boundary call; `done` holds the ones before it. */
    method SettleNext(occupied: seq<nat>, i: nat, hot: set<nat>, ghost c: Cache, ghost done: set<nat>)
      returns (offered: bool, ghost done': set<nat>)
      requires Valid() && bound == map[] && i < |occupied| && Distinct(occupied)
      requires Sized(cfg, c) && SetOf(occupied) == OccupiedSet(c) && done == SetOf(occupied[..i])
      requires BoundaryPass(cfg, c, hot, done, State())
      modifies this`slotExpert, this`slotLastUse, this`slotResidency, this`residency,
               this`purgeable, this`contents, this`history, this`purged
      ensures Valid() && done' == SetOf(occupied[..i + 1])
      ensures BoundaryPass(cfg, c, hot, done', State())
      ensures residency.volatileTransitions == old(residency.volatileTransitions) + (if offered then 1 else 0)
    {
      NextOf(occupied, i);
      done' := done + {occupied[i]};
      offered := SettleSlot(occupied[i], hot, c, done);
    }

    /** The loop of a boundary call over the occupied slots. */
    method SettleSlots(occupied: seq<nat>, hot: set<nat>) returns (transitioned: nat)
      requires Valid() && bound == map[] && Sized(cfg, State())
      requires Distinct(occupied) && SetOf(occupied) == OccupiedSet(State())
      modifies this`slotExpert, this`slotLastUse, this`slotResidency, this`residency,
               this`purgeable, this`contents, this`history, this`purged
      ensures Valid() && Sized(cfg, old(State()))
      ensures BoundaryPass(cfg, old(State()), hot, OccupiedSet(old(State())), State())
      ensures residency.volatileTransitions == old(residency.volatileTransitions) + transitioned
    {
      ghost var c := State();
      transitioned := 0;
      BoundaryStarts(cfg, c, hot);
      ghost var done: set<nat> := {};
      for i := 0 to |occupied|
        invariant Valid()
        invariant done == SetOf(occupied[..i])
        invariant BoundaryPass(cfg, c, hot, done, State())
        invariant residency.volatileTransitions == c.stats.volatileTransitions + transitioned
      {
        var offered;
        offered, done := SettleNext(occupied, i, hot, c, done);
        if offered { transitioned := transitioned + 1; }
      }
      assert occupied[..|occupied|] == occupied;
    }

    method MakeColdSlotsVolatile(keepingHotSlots: int) returns (action: Action, ghost hot: set<nat>)
      requires Valid() && bound == map[]
      modifies this`slotExpert, this`slotLastUse, this`slotResidency, this`residency,
               this`purgeable, this`contents, this`history, this`purged
      ensures Valid() && Sized(cfg, old(State()))
      ensures IsHotSet(old(State()), keepingHotSlots, hot) && UsedMost(old(State()), keepingHotSlots, hot)
      ensures BoundaryStep(cfg, old(State()), hot, State(), action)
      ensures Unique(old(State())) ==> Unique(State())
    {
      var occupied, hotSlots := RankSlots(keepingHotSlots);
      var transitioned := SettleSlots(occupied, hotSlots);
      action := Action(|occupied|, |hotSlots|, transitioned, SlotBytes(cfg.slotSize, transitioned));
      hot := hotSlots;
      BoundaryEnds(cfg, old(State()), hot, State(), action);
      if Unique(old(State())) {
        BoundaryKeepsUnique(cfg, old(State()), hot, State(), action);
      }
    }

    /** What a discard does to the slot and its counters. */
    method ClearSlot(slot: nat)
      requires Sized(cfg, State()) && slot < cfg.slotCount && slotExpert[slot] >= 0
      modifies this`slotExpert, this`slotLastUse, this`slotResidency, this`residency, this`purgeable, this`contents
      ensures |contents| == cfg.slotCount
      ensures State() == Apply(cfg, old(State()), Discard(slot, contents[slot]))
    {
      var previous := SetPurgeableState(slot, Empty);
      slotResidency := slotResidency[slot := Empty];
      slotExpert := slotExpert[slot := FREE];
      slotLastUse := slotLastUse[slot := 0];
      residency := residency.(explicitDiscards := residency.explicitDiscards + 1,
                              invalidatedSlots := residency.invalidatedSlots + 1);
    }

    /** An occupied slot is emptied outright. */
    method EmptySlot(slot: nat)
      requires Valid() && bound == map[] && slot < cfg.slotCount && slotExpert[slot] >= 0
      modifies this`slotExpert, this`slotLastUse, this`slotResidency, this`residency,
               this`purgeable, this`contents, this`history, this`purged
      ensures Valid() && Legal(cfg, old(State()), Discard(slot, contents[slot]))
      ensures State() == Apply(cfg, old(State()), Discard(slot, contents[slot]))
    {
      ghost var o := State();
      ClearSlot(slot);
      ghost var e := Discard(slot, contents[slot]);
      Advance(cfg, initial, history, o, apart, purged, e, apart, true);
      history, purged := history + [e], true;
    }

    /** One cold slot of a discard call. */
    method DiscardSlot(slot: nat, hot: set<nat>, ghost c: Cache, ghost done: set<nat>)
      requires Valid() && bound == map[] && slot < cfg.slotCount
      requires DiscardPass(cfg, c, hot, done, State()) && slot in OccupiedSet(c) && slot !in done
      modifies this`slotExpert, this`slotLastUse, this`slotResidency, this`residency,
               this`purgeable, this`contents, this`history, this`purged
      ensures Valid() && DiscardPass(cfg, c, hot, done + {slot}, State())
    {
      ghost var d := State();
      OsActs();
      ghost var o := State();
      assert DiscardAt(cfg, c, d, done, slot) && OsOnlyAt(cfg, d, o, slot);
      EmptySlot(slot);
      DiscardOneMore(cfg, c, hot, done, d, slot, o, contents[slot]);
    }

    /** Occupied slot number i of a discard call; `done` holds the cold ones before it. */
    method DiscardNext(occupied: seq<nat>, i: nat, hot: set<nat>, ghost c: Cache, ghost done: set<nat>)
      returns (dropped: bool, ghost done': set<nat>)
      requires Valid() && bound == map[] && i < |occupied| && Distinct(occupied)
      requires Sized(cfg, c) && SetOf(occupied) == OccupiedSet(c) && done == SetOf(occupied[..i]) - hot
      requires DiscardPass(cfg, c, hot, done, State())
      modifies this`slotExpert, this`slotLastUse, this`slotResidency, this`residency,
               this`purgeable, this`contents, this`history, this`purged
      ensures Valid() && done' == SetOf(occupied[..i + 1]) - hot
      ensures |done'| == |done| + (if dropped then 1 else 0)
      ensures DiscardPass(cfg, c, hot, done', State())
    {
      NextOf(occupied, i);
      dropped, done' := occupied[i] !in hot, done;
      if dropped {
        done' := done + {occupied[i]};
        DiscardSlot(occupied[i], hot, c, done);
      }
    }

    /** The loop of a discard call over the occupied slots. */
    method DiscardSlots(occupied: seq<nat>, hot: set<nat>) returns (discarded: nat)
      requires Valid() && bound == map[] && Sized(cfg, State())
      requires Distinct(occupied) && SetOf(occupied) == OccupiedSet(State())
      modifies this`slotExpert, this`slotLastUse, this`slotResidency, this`residency,
               this`purgeable, this`contents, this`history, this`purged
      ensures Valid() && Sized(cfg, old(State()))
      ensures DiscardPass(cfg, old(State()), hot, OccupiedSet(old(State())) - hot, State())
      ensures discarded == |OccupiedSet(old(State())) - hot|
    {
      ghost var c := State();
      discarded := 0;
      ghost var done: set<nat> := {};
      DiscardStarts(cfg, c, hot);
      for i := 0 to |occupied|
        invariant Valid()
        invariant done == SetOf(occupied[..i]) - hot && discarded == |done|
        invariant DiscardPass(cfg, c, hot, done, State())
      {
        var dropped;
        dropped, done := DiscardNext(occupied, i, hot, c, done);
        if dropped { discarded := discarded + 1; }
      }
      assert occupied[..|occupied|] == occupied;
    }

    method DiscardColdSlots(keepingHotSlots: int) returns (action: Action, ghost hot: set<nat>)
      requires Valid() && bound == map[]
      modifies this`slotExpert, this`slotLastUse, this`slotResidency, this`residency,
               this`purgeable, this`contents, this`history, this`purged
      ensures Valid() && Sized(cfg, old(State()))
      ensures IsHotSet(old(State()), keepingHotSlots, hot) && UsedMost(old(State()), keepingHotSlots, hot)
      ensures DiscardStep(cfg, old(State()), hot, State(), action)
      ensures Unique(old(State())) ==> Unique(State())
    {
      var occupied, hotSlots := RankSlots(keepingHotSlots);
      var discarded := DiscardSlots(occupied, hotSlots);
      action := Action(|occupied|, |hotSlots|, discarded, SlotBytes(cfg.slotSize, discarded));
      hot := hotSlots;
      if Unique(old(State())) {
        DiscardKeepsUnique(cfg, old(State()), hot, State(), action);
      }
    }
  }

  /** Identities are distinct as long as no request has asked for one expert twice. */
  lemma ApartIsUnique(s: PreadExpertStreamer)
    requires s.Valid() && s.apart
    ensures Unique(s.State())
  {
    UnsealRun(s.cfg, s.initial, s.history, s.State(), s.apart, s.purged);
  }

  /** A boundary call between planning and execution: nothing is reported, and the slots hold
      what was planned exactly when all hits were hot. */
  method ExecuteAfterBoundary(s: PreadExpertStreamer, p: Plan, k: int) returns (ok: bool, ghost hot: set<nat>)
    requires s.Valid() && s.bound == map[] && Ready(s.cfg, s.State(), p)
    modifies s
    ensures s.Valid() && IsHotSet(old(s.State()), k, hot)
    ensures ok <==> forall m :: 0 <= m < |p.misses| ==> p.experts[p.misses[m]] < |s.cfg.file|
    ensures ok ==> (AllHold(s.State(), p) <==> HitsAmong(p, hot))
  {
    ghost var c := s.State();
    var action;
    action, hot := s.MakeColdSlotsVolatile(k);
    BoundaryKeepsReady(s.cfg, c, hot, s.State(), action, p);
    ok := s.ExecuteExpertCachePlan(p);
  }

  /** The same with a discard call. */
  method ExecuteAfterDiscard(s: PreadExpertStreamer, p: Plan, k: int) returns (ok: bool, ghost hot: set<nat>)
    requires s.Valid() && s.bound == map[] && Ready(s.cfg, s.State(), p)
    modifies s
    ensures s.Valid() && IsHotSet(old(s.State()), k, hot)
    ensures ok <==> forall m :: 0 <= m < |p.misses| ==> p.experts[p.misses[m]] < |s.cfg.file|
    ensures ok ==> (AllHold(s.State(), p) <==> HitsAmong(p, hot))
  {
    ghost var c := s.State();
    var action;
    action, hot := s.DiscardColdSlots(k);
    DiscardKeepsReady(s.cfg, c, hot, s.State(), action, p);
    ok := s.ExecuteExpertCachePlan(p);
  }

  lemma NoIndex(misses: seq<nat>)
    requires Indices(misses, 1) && 0 !in misses
    ensures misses == []
  {
    FirstIsMember(misses);
  }

  lemma FirstIsMember(xs: seq<nat>)
    ensures xs == [] || xs[0] in xs
  {
  }

  lemma HeldExpertIsHit(cfg: Config, c: Cache, d: Cache, p: Plan, s: nat)
    requires Planned(cfg, c, d, p) && |p.experts| == 1 && s < cfg.slotCount && Holds(c, s, p.experts[0])
    ensures p.misses == []
  {
    assert 0 !in p.misses;
    NoIndex(p.misses);
  }

  /** A cache of one slot, and a plan for the expert in it. */
  method PlanForTheOnlySlot() returns (s: PreadExpertStreamer, p: Plan)
    ensures fresh(s) && s.Valid() && s.bound == map[] && Ready(s.cfg, s.State(), p)
    ensures p.experts == [0] && p.misses == []
  {
    s := new PreadExpertStreamer(Config([[1]], 1, 1), [[]]);
    var q, loaded := s.LoadExpertsCached([0]);
    assert q.slots[0] in s.bound;
    s.CommandCompleted();
    ghost var c := s.State();
    p := s.PlanExpertsCached([0]);
    HeldExpertIsHit(s.cfg, c, s.State(), p, q.slots[0]);
  }

  /** The cold hit is lost, and the execution succeeds. */
  method ColdHitIsLost() returns (s: PreadExpertStreamer, p: Plan, ok: bool)
    ensures s.Valid() && ok
    ensures p.experts == [0] && |p.slots| == 1 && !Holds(s.State(), p.slots[0], 0)
  {
    s, p := PlanForTheOnlySlot();
    ghost var hot;
    ok, hot := ExecuteAfterBoundary(s, p, 0);
    assert |hot| == 0 && hot == {};
    assert p.slots[0] !in hot;
  }

  lemma NextOf(xs: seq<nat>, i: nat)
    requires i < |xs| && Distinct(xs)
    ensures SetOf(xs[..i + 1]) == SetOf(xs[..i]) + {xs[i]}
    ensures xs[i] !in SetOf(xs[..i]) && xs[i] in SetOf(xs)
  {
    assert xs[..i + 1] == xs[..i] + [xs[i]];
  }
}
