/** Runs of the experiment: the guarded sampling loop, one run, and a whole schedule.

    What the machine does during one run is a `World`: the polls the sampling loop will see,
    the snapshots around it and what the runtime leaves behind. Anything in it may go wrong. */
module Runner {
  import opened Options
  import opened Schema
  import opened Schedule

  /** One turn of the sampling loop while the runtime is alive. None: the reading raised. In a
      World, a reading before the run that raises is a run that does not start. */
  datatype Poll = Poll(
    pastDeadline: bool,
    snapshot: Option<MemorySnapshot>,
    processReadable: bool,
    criticalSeen: Option<bool>)

  datatype World = World(
    runId: string,
    starts: bool,
    powerBefore: PowerSnapshot,
    powerAfter: Option<PowerSnapshot>,
    hardwareReadable: bool,
    memoryBefore: MemorySnapshot,
    memoryAfter: Option<MemorySnapshot>,
    polls: seq<Poll>,
    returnCode: Option<int>,
    result: Option<RuntimeResult>,
    monitorSha256: string,
    events: Option<seq<PressureEvent>>)

  /** The run starts, its process is seen to end, and the readings after it succeed. */
  predicate LeavesRecord(w: World) {
    w.starts && w.returnCode.Some? && w.memoryAfter.Some? && w.powerAfter.Some? && w.hardwareReadable
  }

  // ----- The guards ----------------------------------------------------------------

  function SwapLimit(spec: ExperimentSpec, warmup: bool): int {
    if warmup then spec.warmupMaxSwapDeltaBytes else spec.maxSwapDeltaBytes
  }

  function Growth(baseline: int, value: int): int {
    if value - baseline > 0 then value - baseline else 0
  }

  predicate FreeWithin(spec: ExperimentSpec, s: MemorySnapshot) {
    s.freePercent.Some? ==> s.freePercent.value >= spec.minFreePercent
  }

  predicate SwapWithin(limit: int, before: MemorySnapshot, s: MemorySnapshot) {
    before.swapUsedBytes.Some? && s.swapUsedBytes.Some? ==>
      Growth(before.swapUsedBytes.value, s.swapUsedBytes.value) <= limit
  }

  /** What stops the run at this poll, if anything does. */
  function Fault(spec: ExperimentSpec, limit: int, before: MemorySnapshot, poll: Poll): Option<RunError> {
    if poll.pastDeadline then Some(RuntimeTimeout)
    else if poll.snapshot.None? || !poll.processReadable then Some(TelemetryError)
    else if !FreeWithin(spec, poll.snapshot.value) then Some(FreeMemoryGuard)
    else if !SwapWithin(limit, before, poll.snapshot.value) then Some(RunError.SwapGrowth)
    else if !spec.requireNativePressureMonitor then None
    else if poll.criticalSeen.None? then Some(TelemetryError)
    else if poll.criticalSeen.value then Some(NativeCritical)
    else None
  }

  /** What stops a run, in the order in which it is looked at: the deadline, a reading that
      fails, too little free memory, too much swap, a critical event or an unreadable one. */
  lemma FaultMeans(spec: ExperimentSpec, warmup: bool, before: MemorySnapshot, poll: Poll)
    ensures
      var fault := Fault(spec, SwapLimit(spec, warmup), before, poll);
      var limit := if warmup then spec.warmupMaxSwapDeltaBytes else spec.maxSwapDeltaBytes;
      if poll.pastDeadline then fault == Some(RuntimeTimeout)
      else if poll.snapshot.None? || !poll.processReadable then fault == Some(TelemetryError)
      else
        var s := poll.snapshot.value;
        if s.freePercent.Some? && s.freePercent.value < spec.minFreePercent then fault == Some(FreeMemoryGuard)
        else if before.swapUsedBytes.Some? && s.swapUsedBytes.Some?
                && (s.swapUsedBytes.value - before.swapUsedBytes.value > limit || 0 > limit) then
          fault == Some(RunError.SwapGrowth)
        else if !spec.requireNativePressureMonitor then fault == None
        else fault == match poll.criticalSeen
                      case None => Some(TelemetryError)
                      case Some(seen) => if seen then Some(NativeCritical) else None
  {
  }

  /** The snapshots recorded while going through these polls. */
  function Recorded(polls: seq<Poll>): seq<MemorySnapshot> {
    if polls == [] then []
    else
      var p := polls[|polls| - 1];
      Recorded(polls[..|polls| - 1]) + if !p.pastDeadline && p.snapshot.Some? then [p.snapshot.value] else []
  }

  /** The loop sees the polls up to `stop`: all of them, or up to the first fault. */
  ghost predicate IsStop(spec: ExperimentSpec, limit: int, before: MemorySnapshot, polls: seq<Poll>, stop: nat) {
    && stop <= |polls|
    && (forall i :: 0 <= i < stop - 1 ==> Fault(spec, limit, before, polls[i]).None?)
    && (stop < |polls| ==> stop > 0 && Fault(spec, limit, before, polls[stop - 1]).Some?)
  }

  /** The error of the last poll seen, if it was at fault. */
  function LoopErrors(spec: ExperimentSpec, limit: int, before: MemorySnapshot, polls: seq<Poll>): seq<RunError> {
    if polls == [] then []
    else
      var fault := Fault(spec, limit, before, polls[|polls| - 1]);
      if fault.Some? then [fault.value] else []
  }

  /** The loop stops at the first fault and records no snapshot after it. */
  method Sample(spec: ExperimentSpec, limit: int, before: MemorySnapshot, polls: seq<Poll>)
    returns (samples: seq<MemorySnapshot>, errors: seq<RunError>, timedOut: bool, stop: nat)
    ensures IsStop(spec, limit, before, polls, stop)
    ensures samples == Recorded(polls[..stop]) && errors == LoopErrors(spec, limit, before, polls[..stop])
    ensures timedOut <==> errors == [RuntimeTimeout]
  {
    samples, errors, timedOut, stop := [], [], false, 0;
    while stop < |polls|
      invariant stop <= |polls| && samples == Recorded(polls[..stop]) && errors == [] && !timedOut
      invariant forall i :: 0 <= i < stop ==> Fault(spec, limit, before, polls[i]).None?
    {
      var poll := polls[stop];
      assert polls[..stop + 1][..stop] == polls[..stop] && polls[..stop + 1][stop] == poll;
      stop := stop + 1;
      if poll.pastDeadline {
        return samples, [RuntimeTimeout], true, stop;
      }
      if poll.snapshot.None? {
        return samples, [TelemetryError], false, stop;
      }
      var current := poll.snapshot.value;
      samples := samples + [current];
      if !poll.processReadable {
        return samples, [TelemetryError], false, stop;
      }
      if current.freePercent.Some? && current.freePercent.value < spec.minFreePercent {
        return samples, [FreeMemoryGuard], false, stop;
      }
      if before.swapUsedBytes.Some? && current.swapUsedBytes.Some?
         && Growth(before.swapUsedBytes.value, current.swapUsedBytes.value) > limit {
        return samples, [RunError.SwapGrowth], false, stop;
      }
      if spec.requireNativePressureMonitor {
        if poll.criticalSeen.None? {
          return samples, [TelemetryError], false, stop;
        }
        if poll.criticalSeen.value {
          return samples, [NativeCritical], false, stop;
        }
      }
    }
  }

  ghost predicate AllWithin(spec: ExperimentSpec, limit: int, before: MemorySnapshot, samples: seq<MemorySnapshot>) {
    forall i :: 0 <= i < |samples| ==> FreeWithin(spec, samples[i]) && SwapWithin(limit, before, samples[i])
  }

  lemma {:induction false} FaultlessPollsAreWithin(
    spec: ExperimentSpec, limit: int, before: MemorySnapshot, polls: seq<Poll>)
    requires forall i :: 0 <= i < |polls| ==> Fault(spec, limit, before, polls[i]).None?
    ensures AllWithin(spec, limit, before, Recorded(polls))
    ensures |Recorded(polls)| == |polls|
  {
    if polls != [] {
      var rest := polls[..|polls| - 1];
      FaultlessPollsAreWithin(spec, limit, before, rest);
    }
  }

  lemma FaultlessLoop(spec: ExperimentSpec, limit: int, before: MemorySnapshot, polls: seq<Poll>, stop: nat)
    requires IsStop(spec, limit, before, polls, stop) && LoopErrors(spec, limit, before, polls[..stop]) == []
    ensures stop == |polls| && AllWithin(spec, limit, before, Recorded(polls))
  {
    if stop > 0 {
      assert polls[..stop][stop - 1] == polls[stop - 1];
    }
    FaultlessPollsAreWithin(spec, limit, before, polls);
    assert polls[..|polls|] == polls;
  }

  // ----- One run -------------------------------------------------------------------

  /** What any record made by a run guarantees, whatever happened during it. */
  ghost predicate Made(spec: ExperimentSpec, r: RunRecord) {
    && (r.errors == [] ==>
          AllWithin(spec, SwapLimit(spec, r.warmup), r.memoryBefore, r.memorySamples))
    && (r.timedOut ==> r.errors != [])
    && (r.runtime != NO_RESULT ==> r.returnCode == Some(0) && !r.timedOut)
  }

  /** The record tells what happened: the samples of the loop, its error if any, and the
      outcome of a run only if nothing went wrong. */
  ghost predicate Tells(spec: ExperimentSpec, w: World, r: RunRecord) {
    var limit := SwapLimit(spec, r.warmup);
    && r.runId == w.runId && r.returnCode == w.returnCode
    && r.memoryBefore == w.memoryBefore && Some(r.memoryAfter) == w.memoryAfter
    && r.powerBefore == w.powerBefore && Some(r.powerAfter) == w.powerAfter
    && (exists stop: nat ::
          && IsStop(spec, limit, w.memoryBefore, w.polls, stop)
          && r.memorySamples == Recorded(w.polls[..stop])
          && r.errors == AllErrors(spec, w, LoopErrors(spec, limit, w.memoryBefore, w.polls[..stop])))
    && r.runtime == (if r.returnCode == Some(0) && w.result.Some? && NoLoopError(r.errors) then w.result.value
                     else NO_RESULT)
    && r.nativePressureEvents == (if spec.requireNativePressureMonitor && w.events.Some? then w.events.value else [])
    && r.nativePressureMonitorSha256 == (if spec.requireNativePressureMonitor then Some(w.monitorSha256) else None)
  }

  function AllErrors(spec: ExperimentSpec, w: World, loopErrors: seq<RunError>): seq<RunError> {
    loopErrors
      + (if w.returnCode == Some(0) && loopErrors == [] && w.result.None? then [ResultParseFailed] else [])
      + (if spec.requireNativePressureMonitor && w.events.None? then [PressureEventParseFailed] else [])
  }

  predicate NoLoopError(errors: seq<RunError>) {
    errors == [] || errors == [PressureEventParseFailed]
  }

  ghost predicate IsTurn(r: RunRecord, t: Turn, index: nat) {
    r.armName == t.arm.name && r.repetition == t.repetition && r.warmup == t.warmup && r.scheduleIndex == index
  }

  ghost predicate DistinctIds(records: seq<RunRecord>) {
    forall i, j :: 0 <= i < j < |records| ==> records[i].runId != records[j].runId
  }

  lemma LoopErrorsAreTheLoops(spec: ExperimentSpec, limit: int, before: MemorySnapshot, polls: seq<Poll>)
    ensures PressureEventParseFailed !in LoopErrors(spec, limit, before, polls)
  {
  }

  /** What the files of a run that is over say. */
  method ReadFiles(spec: ExperimentSpec, w: World, loopErrors: seq<RunError>)
    returns (errors: seq<RunError>, runtime: RuntimeResult, events: seq<PressureEvent>)
    requires PressureEventParseFailed !in loopErrors
    ensures errors == AllErrors(spec, w, loopErrors) && (NoLoopError(errors) ==> loopErrors == [])
    ensures runtime == if w.returnCode == Some(0) && w.result.Some? && NoLoopError(errors) then w.result.value
                       else NO_RESULT
    ensures events == if spec.requireNativePressureMonitor && w.events.Some? then w.events.value else []
  {
    errors, runtime, events := loopErrors, NO_RESULT, [];
    if w.returnCode == Some(0) && errors == [] {
      if w.result.None? {
        errors := errors + [ResultParseFailed];
      } else {
        runtime := w.result.value;
      }
    }
    if spec.requireNativePressureMonitor {
      if w.events.None? {
        errors := errors + [PressureEventParseFailed];
      } else {
        events := w.events.value;
      }
    }
  }

  /** After the process is gone: its result is read only if nothing went wrong, the pressure
      events always, and the record is put together. */
  method Conclude(spec: ExperimentSpec, turn: Turn, index: nat, w: World, samples: seq<MemorySnapshot>,
                  loopErrors: seq<RunError>, timedOut: bool, ghost stop: nat)
    returns (r: RunRecord)
    requires LeavesRecord(w) && IsStop(spec, SwapLimit(spec, turn.warmup), w.memoryBefore, w.polls, stop)
    requires samples == Recorded(w.polls[..stop])
    requires loopErrors == LoopErrors(spec, SwapLimit(spec, turn.warmup), w.memoryBefore, w.polls[..stop])
    requires timedOut <==> loopErrors == [RuntimeTimeout]
    ensures IsTurn(r, turn, index) && Made(spec, r) && Tells(spec, w, r)
  {
    LoopErrorsAreTheLoops(spec, SwapLimit(spec, turn.warmup), w.memoryBefore, w.polls[..stop]);
    var errors, runtime, events := ReadFiles(spec, w, loopErrors);
    if loopErrors == [] {
      FaultlessLoop(spec, SwapLimit(spec, turn.warmup), w.memoryBefore, w.polls, stop);
      assert w.polls[..stop] == w.polls;
    }
    r := RunRecord(w.runId, turn.arm.name, index, turn.repetition, turn.warmup, w.returnCode, timedOut,
                   w.memoryBefore, w.memoryAfter.value, samples, w.powerBefore, w.powerAfter.value,
                   if spec.requireNativePressureMonitor then Some(w.monitorSha256) else None,
                   events, runtime, errors);
  }

  /** The files of one named experiment. */
  class ExperimentRoot {
    var runDirs: set<string>
    var records: seq<RunRecord>
    var admitted: bool

    ghost predicate Valid()
      reads this
    {
      && DistinctIds(records)
      && forall i :: 0 <= i < |records| ==> records[i].runId in runDirs
    }

    constructor ()
      ensures Valid() && records == [] && runDirs == {} && !admitted
    {
      runDirs, records, admitted := {}, [], false;
    }

    /** None: the run raised and left no record, because its directory was there already, or
        the run did not get to the end (see LeavesRecord). Its directory stays. */
    method RunOne(spec: ExperimentSpec, turn: Turn, index: nat, w: World) returns (record: Option<RunRecord>)
      requires Valid()
      modifies this`runDirs, this`records
      ensures Valid() && runDirs == old(runDirs) + {w.runId}
      ensures record.None? <==> w.runId in old(runDirs) || !LeavesRecord(w)
      ensures record.None? ==> records == old(records)
      ensures record.Some? ==>
                && records == old(records) + [record.value]
                && IsTurn(record.value, turn, index) && Made(spec, record.value)
                && record.value.runId !in old(runDirs)
                && Tells(spec, w, record.value)
    {
      if w.runId in runDirs {
        return None;
      }
      runDirs := runDirs + {w.runId};
      if !w.starts {
        return None;
      }
      var limit := SwapLimit(spec, turn.warmup);
      var samples, errors, timedOut, stop := Sample(spec, limit, w.memoryBefore, w.polls);
      if w.returnCode.None? || w.memoryAfter.None? || w.powerAfter.None? || !w.hardwareReadable {
        return None;
      }
      var r := Conclude(spec, turn, index, w, samples, errors, timedOut, stop);
      records := records + [r];
      return Some(r);
    }

    /** Turn number index of the schedule. False: it raised. `d` says whether something around
        the run raised, such as the recovery wait or the power guard. */
    method RunTurn(spec: ExperimentSpec, schedule: seq<Turn>, index: nat, d: Day) returns (ok: bool)
      requires Valid() && index < |schedule| && Progress(spec, schedule, records, index)
      modifies this`runDirs, this`records
      ensures Valid() && (ok ==> Progress(spec, schedule, records, index + 1))
      ensures ok <==> d.world.runId !in old(runDirs) && GoesWell(spec, schedule[index].warmup, d)
      ensures ok ==> runDirs == old(runDirs) + {d.world.runId}
    {
      if d.raisesBefore {
        return false;
      }
      var record := RunOne(spec, schedule[index], index, d.world);
      if d.raisesAfter || record.None? {
        return false;
      }
      var r := record.value;
      CleanMeans(spec, schedule[index].warmup, d.world, r);
      return !(spec.failFast && (r.returnCode != Some(0) || r.timedOut || r.errors != []));
    }

    /** The whole schedule, in order. None: it raised; whatever was recorded stays on disk and
        no later call will add to it. It raises exactly if there is something on disk already,
        something raises, a run leaves no record, or, failing fast, a run is not clean. */
    method RunExperiment(spec: ExperimentSpec, raises: bool, days: seq<Day>) returns (result: Option<seq<RunRecord>>)
      requires Valid() && Loaded(spec) && |days| == spec.warmups * |spec.arms| + spec.repetitions * |spec.arms|
      modifies this`runDirs, this`records
      ensures Valid()
      ensures old(records) != [] || old(admitted) ==> result.None? && records == old(records)
      ensures result.Some? ==> old(records) == [] && records == result.value && Completed(spec, result.value)
      ensures result.Some? <==>
                && !raises && !old(admitted) && old(records) == []
                && AllGoWell(spec, days, old(runDirs), |days|)
    {
      var schedule := BalancedSchedule(spec);
      ScheduleLength(spec);
      if raises || admitted || records != [] {
        return None;
      }
      for index := 0 to |schedule|
        invariant Valid() && Progress(spec, schedule, records, index)
        invariant runDirs == old(runDirs) + IdsOf(days, index) && AllGoWell(spec, days, old(runDirs), index)
      {
        var ok := RunTurn(spec, schedule, index, days[index]);
        if !ok {
          OneGoesWrong(spec, days, old(runDirs), index);
          return None;
        }
        OneMoreGoesWell(spec, days, old(runDirs), index);
      }
      return Some(records);
    }
  }

  /** What happens around and during one turn. */
  datatype Day = Day(raisesBefore: bool, world: World, raisesAfter: bool)

  /** A run from which nothing but a clean record can come. */
  ghost predicate CleanRun(spec: ExperimentSpec, warmup: bool, w: World) {
    && w.returnCode == Some(0) && w.result.Some?
    && (forall i :: 0 <= i < |w.polls| ==> Fault(spec, SwapLimit(spec, warmup), w.memoryBefore, w.polls[i]).None?)
    && (spec.requireNativePressureMonitor ==> w.events.Some?)
  }

  ghost predicate GoesWell(spec: ExperimentSpec, warmup: bool, d: Day) {
    && !d.raisesBefore && !d.raisesAfter && LeavesRecord(d.world)
    && (spec.failFast ==> CleanRun(spec, warmup, d.world))
  }

  lemma CleanMeans(spec: ExperimentSpec, warmup: bool, w: World, r: RunRecord)
    requires Tells(spec, w, r) && Made(spec, r) && r.warmup == warmup
    ensures Clean(r) <==> CleanRun(spec, warmup, w)
  {
    var limit := SwapLimit(spec, warmup);
    var stop: nat :|
      && IsStop(spec, limit, w.memoryBefore, w.polls, stop)
      && r.memorySamples == Recorded(w.polls[..stop])
      && r.errors == AllErrors(spec, w, LoopErrors(spec, limit, w.memoryBefore, w.polls[..stop]));
    NoLoopErrors(spec, limit, w.memoryBefore, w.polls, stop);
  }

  lemma NoLoopErrors(spec: ExperimentSpec, limit: int, before: MemorySnapshot, polls: seq<Poll>, stop: nat)
    requires IsStop(spec, limit, before, polls, stop)
    ensures LoopErrors(spec, limit, before, polls[..stop]) == [] <==>
              forall i :: 0 <= i < |polls| ==> Fault(spec, limit, before, polls[i]).None?
  {
    if stop > 0 {
      assert polls[..stop][stop - 1] == polls[stop - 1];
    }
  }

  /** The ids of the first n runs. */
  ghost function IdsOf(days: seq<Day>, n: nat): set<string>
    requires n <= |days|
  {
    set i: nat | i < n :: days[i].world.runId
  }

  /** The first n turns go well: new ids, and nothing that stops the experiment. */
  ghost predicate AllGoWell(spec: ExperimentSpec, days: seq<Day>, used: set<string>, n: nat)
    requires n <= |days|
  {
    forall i: nat :: i < n ==>
      && days[i].world.runId !in used && days[i].world.runId !in IdsOf(days, i)
      && GoesWell(spec, i < spec.warmups * |spec.arms|, days[i])
  }

  lemma OneMoreGoesWell(spec: ExperimentSpec, days: seq<Day>, used: set<string>, n: nat)
    requires n < |days| && AllGoWell(spec, days, used, n)
    requires days[n].world.runId !in used + IdsOf(days, n) && GoesWell(spec, n < spec.warmups * |spec.arms|, days[n])
    ensures AllGoWell(spec, days, used, n + 1) && IdsOf(days, n + 1) == IdsOf(days, n) + {days[n].world.runId}
  {
  }

  lemma OneGoesWrong(spec: ExperimentSpec, days: seq<Day>, used: set<string>, n: nat)
    requires n < |days|
    requires days[n].world.runId in used + IdsOf(days, n) || !GoesWell(spec, n < spec.warmups * |spec.arms|, days[n])
    ensures !AllGoWell(spec, days, used, |days|)
  {
  }

  /** The first n turns have their records, all clean if the experiment fails fast. */
  ghost predicate Progress(spec: ExperimentSpec, schedule: seq<Turn>, records: seq<RunRecord>, n: nat) {
    && |records| == n <= |schedule|
    && (forall i :: 0 <= i < n ==> IsTurn(records[i], schedule[i], i) && Made(spec, records[i]))
    && (spec.failFast ==> forall i :: 0 <= i < n ==> Clean(records[i]))
  }

  predicate Clean(r: RunRecord) {
    r.returnCode == Some(0) && !r.timedOut && r.errors == []
  }

  /** What a returned experiment hands to admission. */
  ghost predicate Completed(spec: ExperimentSpec, records: seq<RunRecord>) {
    var schedule := Rounds(spec.arms, spec.warmups, true) + Rounds(spec.arms, spec.repetitions, false);
    && |records| == |schedule| && DistinctIds(records)
    && (forall i :: 0 <= i < |records| ==> IsTurn(records[i], schedule[i], i) && Made(spec, records[i]))
    && (spec.failFast ==> forall i :: 0 <= i < |records| ==> Clean(records[i]))
  }
}
