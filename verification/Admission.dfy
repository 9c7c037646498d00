/** Admission: which measured runs become evidence. */
module Admission {
  import opened Options
  import opened Schema
  import opened Schedule
  import opened Runner

  datatype Reason =
    | WarmupRow
    | ReturnCode
    | TimedOut
    | Error(error: RunError)
    | CompletionMissing
    | ThroughputMissing
    | OutputHashMissing
    | TokenHashMissing
    | HitRateMissing
    | MissCountMissing
    | AccessCountMissing
    | PowerSourceUnstable
    | LowPowerMode
    | ThermalWarning
    | MonitorHashMissing
    | MonitorStartMissing
    | MonitorCritical
    | TooFewObservations
    | FreeBelowGuard
    | SwapIncomplete
    | SwapGrowthExceeded
    | ParityFailed

  predicate IsHash(hash: Option<string>) {
    hash.Some? && |hash.value| == 64
  }

  predicate KnownFalse(flag: Option<bool>) {
    flag == Some(false)
  }

  /** The readings that exist, in order. */
  function FreeValues(snapshots: seq<MemorySnapshot>): seq<real> {
    if snapshots == [] then []
    else
      var last := snapshots[|snapshots| - 1];
      FreeValues(snapshots[..|snapshots| - 1]) + if last.freePercent.Some? then [last.freePercent.value] else []
  }

  function Snapshots(r: RunRecord): seq<MemorySnapshot> {
    [r.memoryBefore] + r.memorySamples + [r.memoryAfter]
  }

  /** What is wrong with a record, one condition for each reason. */
  ghost predicate Fails(r: RunRecord, spec: ExperimentSpec, reason: Reason) {
    match reason
    case WarmupRow => r.warmup
    case ReturnCode => r.returnCode != Some(0)
    case TimedOut => r.timedOut
    case Error(e) => e in r.errors
    case CompletionMissing => !(r.runtime.completionTokens.Some? && r.runtime.completionTokens.value > 0)
    case ThroughputMissing => !(r.runtime.decodeTps.Some? && r.runtime.decodeTps.value > 0.0)
    case OutputHashMissing => !IsHash(r.runtime.outputSha256)
    case TokenHashMissing => spec.requireTokenIdParity && !IsHash(r.runtime.tokenIdsSha256)
    case HitRateMissing =>
      && spec.requireExpertTelemetry
      && !(r.runtime.expertHitRate.Some? && 0.0 <= r.runtime.expertHitRate.value <= 1.0)
    case MissCountMissing =>
      spec.requireExpertTelemetry && !(r.runtime.expertMissCount.Some? && r.runtime.expertMissCount.value >= 0)
    case AccessCountMissing =>
      spec.requireExpertTelemetry && !(r.runtime.expertAccessCount.Some? && r.runtime.expertAccessCount.value > 0)
    case PowerSourceUnstable =>
      && spec.requiredPowerSource.Some?
      && (r.powerBefore.powerSource != spec.requiredPowerSource.value
          || r.powerAfter.powerSource != spec.requiredPowerSource.value)
    case LowPowerMode =>
      && spec.requireLowPowerModeOff
      && !(KnownFalse(r.powerBefore.lowPowerMode) && KnownFalse(r.powerAfter.lowPowerMode))
    case ThermalWarning =>
      && spec.requireNoThermalWarning
      && !(&& KnownFalse(r.powerBefore.thermalWarning) && KnownFalse(r.powerAfter.thermalWarning)
           && KnownFalse(r.powerBefore.performanceWarning) && KnownFalse(r.powerAfter.performanceWarning))
    case MonitorHashMissing => spec.requireNativePressureMonitor && !IsHash(r.nativePressureMonitorSha256)
    case MonitorStartMissing => spec.requireNativePressureMonitor && !Started(r.nativePressureEvents)
    case MonitorCritical =>
      && spec.requireNativePressureMonitor && Started(r.nativePressureEvents)
      && exists e <- r.nativePressureEvents :: e.level == "critical"
    case TooFewObservations => |FreeValues(Snapshots(r))| < 2
    case FreeBelowGuard =>
      && |FreeValues(Snapshots(r))| >= 2
      && exists v <- FreeValues(Snapshots(r)) :: v < spec.minFreePercent
    case SwapIncomplete => r.memoryBefore.swapUsedBytes.None? || r.memoryAfter.swapUsedBytes.None?
    case SwapGrowthExceeded => !SwapWithin(spec.maxSwapDeltaBytes, r.memoryBefore, r.memoryAfter)
    case ParityFailed => false
  }

  predicate Started(events: seq<PressureEvent>) {
    events != [] && events[0].kind == "start"
  }

  datatype Topic = Outcome | Result | Telemetry | Power | Monitor | Memory | Parity

  function About(reason: Reason): Topic {
    match reason
    case WarmupRow | ReturnCode | TimedOut | Error(_) => Outcome
    case CompletionMissing | ThroughputMissing | OutputHashMissing | TokenHashMissing => Result
    case HitRateMissing | MissCountMissing | AccessCountMissing => Telemetry
    case PowerSourceUnstable | LowPowerMode | ThermalWarning => Power
    case MonitorHashMissing | MonitorStartMissing | MonitorCritical => Monitor
    case TooFewObservations | FreeBelowGuard | SwapIncomplete | SwapGrowthExceeded => Memory
    case ParityFailed => Parity
  }

  /** These are the reasons of one topic, neither more nor fewer. */
  ghost predicate Exactly(reasons: seq<Reason>, r: RunRecord, spec: ExperimentSpec, topic: Topic) {
    forall reason :: reason in reasons <==> About(reason) == topic && Fails(r, spec, reason)
  }

  method OutcomeReasons(r: RunRecord, spec: ExperimentSpec) returns (reasons: seq<Reason>)
    ensures Exactly(reasons, r, spec, Outcome)
  {
    reasons := [];
    if r.warmup { reasons := reasons + [WarmupRow]; }
    if r.returnCode != Some(0) { reasons := reasons + [ReturnCode]; }
    if r.timedOut { reasons := reasons + [TimedOut]; }
    for i := 0 to |r.errors|
      invariant forall reason ::
                  reason in reasons <==>
                    && About(reason) == Outcome
                    && if reason.Error? then reason.error in r.errors[..i] else Fails(r, spec, reason)
    {
      reasons := reasons + [Error(r.errors[i])];
    }
    assert r.errors[..|r.errors|] == r.errors;
  }

  method ResultReasons(r: RunRecord, spec: ExperimentSpec) returns (reasons: seq<Reason>)
    ensures Exactly(reasons, r, spec, Result)
  {
    var runtime := r.runtime;
    reasons := [];
    if runtime.completionTokens.None? || runtime.completionTokens.value <= 0 {
      reasons := reasons + [CompletionMissing];
    }
    if runtime.decodeTps.None? || runtime.decodeTps.value <= 0.0 {
      reasons := reasons + [ThroughputMissing];
    }
    if !IsHash(runtime.outputSha256) { reasons := reasons + [OutputHashMissing]; }
    if spec.requireTokenIdParity && !IsHash(runtime.tokenIdsSha256) { reasons := reasons + [TokenHashMissing]; }
  }

  method TelemetryReasons(r: RunRecord, spec: ExperimentSpec) returns (reasons: seq<Reason>)
    ensures Exactly(reasons, r, spec, Telemetry)
  {
    var runtime := r.runtime;
    reasons := [];
    if spec.requireExpertTelemetry {
      if runtime.expertHitRate.None? || !(0.0 <= runtime.expertHitRate.value <= 1.0) {
        reasons := reasons + [HitRateMissing];
      }
      if runtime.expertMissCount.None? || runtime.expertMissCount.value < 0 {
        reasons := reasons + [MissCountMissing];
      }
      if runtime.expertAccessCount.None? || runtime.expertAccessCount.value <= 0 {
        reasons := reasons + [AccessCountMissing];
      }
    }
  }

  lemma BothAre(a: string, b: string, c: string)
    ensures {a, b} == {c} <==> a == c && b == c
  {
    assert a in {a, b} && b in {a, b};
  }

  method PowerReasons(r: RunRecord, spec: ExperimentSpec) returns (reasons: seq<Reason>)
    ensures Exactly(reasons, r, spec, Power)
  {
    var snapshots := [r.powerBefore, r.powerAfter];
    reasons := [];
    if spec.requiredPowerSource.Some? {
      var observed := {r.powerBefore.powerSource, r.powerAfter.powerSource};
      BothAre(r.powerBefore.powerSource, r.powerAfter.powerSource, spec.requiredPowerSource.value);
      if observed != {spec.requiredPowerSource.value} { reasons := reasons + [PowerSourceUnstable]; }
    }
    if spec.requireLowPowerModeOff && exists s <- snapshots :: !KnownFalse(s.lowPowerMode) {
      reasons := reasons + [LowPowerMode];
    }
    if spec.requireNoThermalWarning
       && exists s <- snapshots :: !KnownFalse(s.thermalWarning) || !KnownFalse(s.performanceWarning) {
      reasons := reasons + [ThermalWarning];
    }
    assert r.powerBefore in snapshots && r.powerAfter in snapshots;
  }

  /** There is one free reading for each snapshot that has one. */
  lemma {:induction false} FreeValuesCount(snapshots: seq<MemorySnapshot>)
    ensures |FreeValues(snapshots)| == |set i: nat | i < |snapshots| && snapshots[i].freePercent.Some?|
  {
    if snapshots != [] {
      var n := |snapshots| - 1;
      var rest := snapshots[..n];
      FreeValuesCount(rest);
      var earlier := set i: nat | i < |rest| && rest[i].freePercent.Some?;
      assert (set i: nat | i < |snapshots| && snapshots[i].freePercent.Some?)
          == if snapshots[n].freePercent.Some? then earlier + {n} else earlier;
    }
  }

  lemma {:induction false} FreeValuesAre(snapshots: seq<MemorySnapshot>, v: real)
    ensures v in FreeValues(snapshots) <==> exists i: nat :: i < |snapshots| && snapshots[i].freePercent == Some(v)
  {
    if snapshots != [] {
      var n := |snapshots| - 1;
      var rest, last := snapshots[..n], snapshots[n].freePercent;
      FreeValuesAre(rest, v);
      assert v in FreeValues(snapshots) <==> v in FreeValues(rest) || last == Some(v);
      if i: nat :| i < n && rest[i].freePercent == Some(v) {
        assert snapshots[i].freePercent == Some(v);
      }
      if i: nat :| i < n && snapshots[i].freePercent == Some(v) {
        assert rest[i].freePercent == Some(v);
      }
    }
  }

  /** The memory reasons, on the readings themselves: at least two of the snapshots before, during
      and after the run must say how much memory is free, none of them too little. */
  lemma MemoryReasonsMean(r: RunRecord, spec: ExperimentSpec)
    ensures
      var all := [r.memoryBefore] + r.memorySamples + [r.memoryAfter];
      var known := set i: nat | i < |all| && all[i].freePercent.Some?;
      && (Fails(r, spec, TooFewObservations) <==> |known| < 2)
      && (Fails(r, spec, FreeBelowGuard) <==>
            |known| >= 2 && exists i <- known :: all[i].freePercent.value < spec.minFreePercent)
    ensures Fails(r, spec, SwapGrowthExceeded) <==>
              && r.memoryBefore.swapUsedBytes.Some? && r.memoryAfter.swapUsedBytes.Some?
              && (r.memoryAfter.swapUsedBytes.value - r.memoryBefore.swapUsedBytes.value > spec.maxSwapDeltaBytes
                  || 0 > spec.maxSwapDeltaBytes)
  {
    var all := [r.memoryBefore] + r.memorySamples + [r.memoryAfter];
    FreeValuesCount(all);
    forall v ensures v in FreeValues(all) <==> exists i: nat :: i < |all| && all[i].freePercent == Some(v) {
      FreeValuesAre(all, v);
    }
  }

  /** A hash is there if it is 64 characters long, and the monitor was there if its first event is
      the start. */
  lemma HashesAndStartMean(r: RunRecord, spec: ExperimentSpec)
    ensures !Fails(r, spec, OutputHashMissing) <==>
              r.runtime.outputSha256.Some? && |r.runtime.outputSha256.value| == 64
    ensures spec.requireTokenIdParity ==>
              (!Fails(r, spec, TokenHashMissing) <==>
                 r.runtime.tokenIdsSha256.Some? && |r.runtime.tokenIdsSha256.value| == 64)
    ensures spec.requireNativePressureMonitor ==>
              (!Fails(r, spec, MonitorHashMissing) <==>
                 r.nativePressureMonitorSha256.Some? && |r.nativePressureMonitorSha256.value| == 64)
    ensures spec.requireNativePressureMonitor ==>
              (!Fails(r, spec, MonitorStartMissing) <==>
                 |r.nativePressureEvents| > 0 && r.nativePressureEvents[0].kind == "start")
  {
  }

  /** A required state that was not observed, or was observed wrong, rejects: only a flag seen to
      be off on both sides of the run passes. */
  lemma UnknownFlagRejects(r: RunRecord, spec: ExperimentSpec)
    ensures spec.requireLowPowerModeOff ==>
              (!Fails(r, spec, LowPowerMode) <==>
                 r.powerBefore.lowPowerMode == Some(false) == r.powerAfter.lowPowerMode)
    ensures spec.requireNoThermalWarning ==>
              (!Fails(r, spec, ThermalWarning) <==>
                 && r.powerBefore.thermalWarning == Some(false) == r.powerAfter.thermalWarning
                 && r.powerBefore.performanceWarning == Some(false) == r.powerAfter.performanceWarning)
    ensures spec.requiredPowerSource.Some? ==>
              (!Fails(r, spec, PowerSourceUnstable) <==>
                 r.powerBefore.powerSource == spec.requiredPowerSource.value == r.powerAfter.powerSource)
  {
  }

  method MonitorReasons(r: RunRecord, spec: ExperimentSpec) returns (reasons: seq<Reason>)
    ensures Exactly(reasons, r, spec, Monitor)
  {
    reasons := [];
    if spec.requireNativePressureMonitor {
      if !IsHash(r.nativePressureMonitorSha256) { reasons := reasons + [MonitorHashMissing]; }
      if !Started(r.nativePressureEvents) {
        reasons := reasons + [MonitorStartMissing];
      } else if exists e <- r.nativePressureEvents :: e.level == "critical" {
        reasons := reasons + [MonitorCritical];
      }
    }
  }

  method FreeReasons(freeValues: seq<real>, guard: real) returns (reasons: seq<Reason>)
    ensures forall reason :: reason in reasons <==>
              || (reason == TooFewObservations && |freeValues| < 2)
              || (reason == FreeBelowGuard && |freeValues| >= 2 && exists v <- freeValues :: v < guard)
  {
    if |freeValues| < 2 {
      return [TooFewObservations];
    }
    var least := Minimum(freeValues);
    return if least < guard then [FreeBelowGuard] else [];
  }

  method MemoryReasons(r: RunRecord, spec: ExperimentSpec) returns (reasons: seq<Reason>)
    ensures Exactly(reasons, r, spec, Memory)
  {
    reasons := FreeReasons(FreeValues(Snapshots(r)), spec.minFreePercent);
    var before, after := r.memoryBefore.swapUsedBytes, r.memoryAfter.swapUsedBytes;
    if before.None? || after.None? {
      reasons := reasons + [SwapIncomplete];
    } else if Growth(before.value, after.value) > spec.maxSwapDeltaBytes {
      reasons := reasons + [SwapGrowthExceeded];
    }
  }

  method Minimum(values: seq<real>) returns (least: real)
    requires values != []
    ensures least in values && forall v <- values :: least <= v
  {
    least := values[0];
    for i := 1 to |values|
      invariant least in values && forall j :: 0 <= j < i ==> least <= values[j]
    {
      if values[i] < least { least := values[i]; }
    }
  }

  datatype AdmissionDecision = AdmissionDecision(runId: string, admitted: bool, reasons: seq<Reason>)

  ghost predicate Admissible(r: RunRecord, spec: ExperimentSpec) {
    forall reason :: !Fails(r, spec, reason)
  }

  /** Every reason that applies is given, and nothing else; a run is admitted if none applies. */
  method DecideRun(r: RunRecord, spec: ExperimentSpec) returns (d: AdmissionDecision)
    ensures d.runId == r.runId && (d.admitted <==> d.reasons == [])
    ensures forall reason :: reason in d.reasons <==> Fails(r, spec, reason)
    ensures d.admitted <==> Admissible(r, spec)
  {
    var a := OutcomeReasons(r, spec);
    var b := ResultReasons(r, spec);
    var c := TelemetryReasons(r, spec);
    var p := PowerReasons(r, spec);
    var m := MonitorReasons(r, spec);
    var q := MemoryReasons(r, spec);
    var reasons := a + b + c + p + m + q;
    forall reason ensures reason in reasons <==> Fails(r, spec, reason) {
      assert reason in reasons <==>
               reason in a || reason in b || reason in c || reason in p || reason in m || reason in q;
    }
    assert reasons != [] ==> reasons[0] in reasons;
    return AdmissionDecision(r.runId, reasons == [], reasons);
  }

  // ----- A whole experiment ---------------------------------------------------------

  datatype Artifact = Artifact(
    decisions: seq<AdmissionDecision>,
    records: seq<RunRecord>,
    admittedCount: nat,
    measuredCount: nat,
    complete: bool)

  /** The measured records among those flagged. */
  function Select(records: seq<RunRecord>, flags: seq<bool>): seq<RunRecord>
    requires |flags| == |records|
  {
    if records == [] then []
    else
      var n := |records| - 1;
      Select(records[..n], flags[..n]) + if flags[n] && !records[n].warmup then [records[n]] else []
  }

  function Measured(records: seq<RunRecord>): seq<RunRecord> {
    if records == [] then []
    else
      var n := |records| - 1;
      Measured(records[..n]) + if !records[n].warmup then [records[n]] else []
  }

  /** Two measured runs that both report a hash report different ones. */
  ghost predicate Disagree(hashes: seq<Option<string>>) {
    exists i, j :: 0 <= i < j < |hashes| && hashes[i].Some? && hashes[j].Some? && hashes[i] != hashes[j]
  }

  function OutputHashes(records: seq<RunRecord>): seq<Option<string>> {
    seq(|records|, i requires 0 <= i < |records| => records[i].runtime.outputSha256)
  }

  function TokenHashes(records: seq<RunRecord>): seq<Option<string>> {
    seq(|records|, i requires 0 <= i < |records| => records[i].runtime.tokenIdsSha256)
  }

  ghost predicate ParityBroken(records: seq<RunRecord>, spec: ExperimentSpec) {
    || (spec.requireOutputParity && Disagree(OutputHashes(Measured(records))))
    || (spec.requireTokenIdParity && Disagree(TokenHashes(Measured(records))))
  }

  method MoreThanOne(hashes: seq<Option<string>>) returns (more: bool)
    ensures more <==> Disagree(hashes)
  {
    var distinct: set<string> := {};
    for i := 0 to |hashes|
      invariant forall h :: h in distinct <==> exists j :: 0 <= j < i && hashes[j] == Some(h)
    {
      if hashes[i].Some? { distinct := distinct + {hashes[i].value}; }
    }
    more := |distinct| > 1;
    TwoDiffer(hashes, distinct);
  }

  lemma TwoDiffer(hashes: seq<Option<string>>, distinct: set<string>)
    requires forall h :: h in distinct <==> exists j :: 0 <= j < |hashes| && hashes[j] == Some(h)
    ensures |distinct| > 1 <==> Disagree(hashes)
  {
    if Disagree(hashes) {
      var i, j :| 0 <= i < j < |hashes| && hashes[i].Some? && hashes[j].Some? && hashes[i] != hashes[j];
      TwoOrMore(distinct, hashes[i].value, hashes[j].value);
    }
    if |distinct| > 1 {
      var a, b := TwoOf(distinct);
      var i: nat :| i < |hashes| && hashes[i] == Some(a);
      var j: nat :| j < |hashes| && hashes[j] == Some(b);
      DisagreeAt(hashes, i, j);
    }
  }

  lemma DisagreeAt(hashes: seq<Option<string>>, i: nat, j: nat)
    requires i < |hashes| && j < |hashes| && hashes[i].Some? && hashes[j].Some? && hashes[i] != hashes[j]
    ensures Disagree(hashes)
  {
    if i < j {
      assert hashes[i] != hashes[j];
    } else {
      assert hashes[j] != hashes[i];
    }
  }

  lemma TwoOrMore(s: set<string>, a: string, b: string)
    requires a in s && b in s && a != b
    ensures |s| > 1
  {
    assert b in s - {a};
    assert |s - {a}| == |s| - 1;
  }

  lemma TwoOf(s: set<string>) returns (a: string, b: string)
    requires |s| > 1
    ensures a in s && b in s && a != b
  {
    a :| a in s;
    assert |s - {a}| == |s| - 1;
    b :| b in s - {a};
  }

  /** The last decision with this id, as a dictionary filled in order keeps it. */
  function ById(decisions: seq<AdmissionDecision>, id: string): Option<AdmissionDecision> {
    if decisions == [] then None
    else if decisions[|decisions| - 1].runId == id then Some(decisions[|decisions| - 1])
    else ById(decisions[..|decisions| - 1], id)
  }

  function Flags(records: seq<RunRecord>, decisions: seq<AdmissionDecision>): seq<bool> {
    seq(|records|, i requires 0 <= i < |records| =>
      var d := ById(decisions, records[i].runId);
      d.Some? && d.value.admitted)
  }

  /** An admission artifact of these records. */
  ghost predicate Admits(records: seq<RunRecord>, spec: ExperimentSpec, a: Artifact) {
    && |a.decisions| == |records|
    && (forall i :: 0 <= i < |records| ==> a.decisions[i].runId == records[i].runId)
    && (forall i :: 0 <= i < |records| ==>
          (a.decisions[i].admitted <==> Admissible(records[i], spec) && !ParityBroken(records, spec)))
    && (forall i, reason :: 0 <= i < |records| ==>
          (reason in a.decisions[i].reasons <==>
             Fails(records[i], spec, reason) || (reason == ParityFailed && ParityBroken(records, spec))))
    && a.records == Select(records, Flags(records, a.decisions))
    && a.admittedCount == |a.records| && a.measuredCount == |Measured(records)|
    && (a.complete <==> a.admittedCount == a.measuredCount)
  }

  method DecideAll(records: seq<RunRecord>, spec: ExperimentSpec, parityFailed: bool)
    returns (decisions: seq<AdmissionDecision>)
    ensures |decisions| == |records|
    ensures forall i :: 0 <= i < |records| ==> decisions[i].runId == records[i].runId
    ensures forall i :: 0 <= i < |records| ==>
              (decisions[i].admitted <==> Admissible(records[i], spec) && !parityFailed)
    ensures forall i, reason :: 0 <= i < |records| ==>
              (reason in decisions[i].reasons <==>
                 Fails(records[i], spec, reason) || (reason == ParityFailed && parityFailed))
  {
    decisions := [];
    for i := 0 to |records|
      invariant |decisions| == i
      invariant forall j :: 0 <= j < i ==> decisions[j].runId == records[j].runId
      invariant forall j :: 0 <= j < i ==>
                  (decisions[j].admitted <==> Admissible(records[j], spec) && !parityFailed)
      invariant forall j, reason :: 0 <= j < i ==>
                  (reason in decisions[j].reasons <==>
                     Fails(records[j], spec, reason) || (reason == ParityFailed && parityFailed))
    {
      var d := DecideRun(records[i], spec);
      if parityFailed {
        d := AdmissionDecision(d.runId, false, d.reasons + [ParityFailed]);
      }
      decisions := decisions + [d];
    }
  }

  /** Disagreeing hashes reject every run, however good each one is. */
  method MeasuredRecords(records: seq<RunRecord>) returns (measured: seq<RunRecord>)
    ensures measured == Measured(records)
  {
    measured := [];
    for i := 0 to |records|
      invariant measured == Measured(records[..i])
    {
      assert records[..i + 1][..i] == records[..i];
      if !records[i].warmup { measured := measured + [records[i]]; }
    }
    assert records[..|records|] == records;
  }

  method AdmitExperiment(records: seq<RunRecord>, spec: ExperimentSpec) returns (a: Artifact)
    ensures Admits(records, spec, a)
  {
    var measured := MeasuredRecords(records);
    var outputsDiffer := MoreThanOne(OutputHashes(measured));
    var tokensDiffer := MoreThanOne(TokenHashes(measured));
    var parityFailed := (spec.requireOutputParity && outputsDiffer) || (spec.requireTokenIdParity && tokensDiffer);
    var decisions := DecideAll(records, spec, parityFailed);
    var admitted := Select(records, Flags(records, decisions));
    return Artifact(decisions, admitted, |admitted|, |measured|, |admitted| == |measured|);
  }

  // ----- What an artifact guarantees ------------------------------------------------

  lemma {:induction false} MeasuredAre(records: seq<RunRecord>, r: RunRecord)
    ensures r in Measured(records) <==> r in records && !r.warmup
  {
    if records != [] {
      var n := |records| - 1;
      MeasuredAre(records[..n], r);
      assert r in records <==> r in records[..n] || r == records[n];
    }
  }

  lemma {:induction false} MeasuredCount(records: seq<RunRecord>)
    ensures |Measured(records)| == |set k: nat | k < |records| && !records[k].warmup|
  {
    if records != [] {
      var n := |records| - 1;
      var rest := records[..n];
      MeasuredCount(rest);
      var old', new' := set k: nat | k < |rest| && !rest[k].warmup, set k: nat | k < |records| && !records[k].warmup;
      assert new' == if !records[n].warmup then old' + {n} else old';
    }
  }

  ghost predicate DifferentOutputs(a: RunRecord, b: RunRecord) {
    a.runtime.outputSha256.Some? && b.runtime.outputSha256.Some? && a.runtime.outputSha256 != b.runtime.outputSha256
  }

  ghost predicate DifferentTokens(a: RunRecord, b: RunRecord) {
    && a.runtime.tokenIdsSha256.Some? && b.runtime.tokenIdsSha256.Some?
    && a.runtime.tokenIdsSha256 != b.runtime.tokenIdsSha256
  }

  /** Parity is broken exactly when two measured runs report different hashes of a kind for which
      parity is required. */
  lemma ParityMeans(records: seq<RunRecord>, spec: ExperimentSpec)
    ensures ParityBroken(records, spec) <==>
              || (&& spec.requireOutputParity
                  && exists a <- records, b <- records :: !a.warmup && !b.warmup && DifferentOutputs(a, b))
              || (&& spec.requireTokenIdParity
                  && exists a <- records, b <- records :: !a.warmup && !b.warmup && DifferentTokens(a, b))
  {
    OutputsDisagree(records);
    TokensDisagree(records);
  }

  lemma OutputsDisagree(records: seq<RunRecord>)
    ensures Disagree(OutputHashes(Measured(records))) <==>
              exists a <- records, b <- records :: !a.warmup && !b.warmup && DifferentOutputs(a, b)
  {
    var measured, hashes := Measured(records), OutputHashes(Measured(records));
    if Disagree(hashes) {
      var i, j :| 0 <= i < j < |hashes| && hashes[i].Some? && hashes[j].Some? && hashes[i] != hashes[j];
      MeasuredAre(records, measured[i]);
      MeasuredAre(records, measured[j]);
      assert DifferentOutputs(measured[i], measured[j]);
    }
    if a, b :| a in records && b in records && !a.warmup && !b.warmup && DifferentOutputs(a, b) {
      MeasuredAre(records, a);
      MeasuredAre(records, b);
      var i: nat :| i < |measured| && measured[i] == a;
      var j: nat :| j < |measured| && measured[j] == b;
      DisagreeAt(hashes, i, j);
    }
  }

  lemma TokensDisagree(records: seq<RunRecord>)
    ensures Disagree(TokenHashes(Measured(records))) <==>
              exists a <- records, b <- records :: !a.warmup && !b.warmup && DifferentTokens(a, b)
  {
    var measured, hashes := Measured(records), TokenHashes(Measured(records));
    if Disagree(hashes) {
      var i, j :| 0 <= i < j < |hashes| && hashes[i].Some? && hashes[j].Some? && hashes[i] != hashes[j];
      MeasuredAre(records, measured[i]);
      MeasuredAre(records, measured[j]);
      assert DifferentTokens(measured[i], measured[j]);
    }
    if a, b :| a in records && b in records && !a.warmup && !b.warmup && DifferentTokens(a, b) {
      MeasuredAre(records, a);
      MeasuredAre(records, b);
      var i: nat :| i < |measured| && measured[i] == a;
      var j: nat :| j < |measured| && measured[j] == b;
      DisagreeAt(hashes, i, j);
    }
  }

  ghost predicate LastWithId(decisions: seq<AdmissionDecision>, id: string, i: nat) {
    i < |decisions| && decisions[i].runId == id && forall j :: i < j < |decisions| ==> decisions[j].runId != id
  }

  /** Where decisions share an id, the last one counts. */
  lemma {:induction false} ByIdIsLast(decisions: seq<AdmissionDecision>, id: string)
    ensures ById(decisions, id).None? <==> forall i :: 0 <= i < |decisions| ==> decisions[i].runId != id
    ensures forall i: nat :: LastWithId(decisions, id, i) ==> ById(decisions, id) == Some(decisions[i])
  {
    if decisions != [] {
      var n := |decisions| - 1;
      if decisions[n].runId != id {
        ByIdIsLast(decisions[..n], id);
        forall i: nat ensures LastWithId(decisions, id, i) <==> LastWithId(decisions[..n], id, i) {
        }
      }
    }
  }

  /** ps are the positions of all measured flagged records, in order. */
  ghost predicate Picks(records: seq<RunRecord>, flags: seq<bool>, ps: seq<nat>) {
    && |flags| == |records|
    && (forall i, j :: 0 <= i < j < |ps| ==> ps[i] < ps[j])
    && forall k: nat :: k in ps <==> k < |records| && flags[k] && !records[k].warmup
  }

  lemma OneMorePick(records: seq<RunRecord>, flags: seq<bool>, rest: seq<nat>, ps: seq<nat>)
    requires records != [] && |flags| == |records|
    requires Picks(records[..|records| - 1], flags[..|records| - 1], rest)
    requires var n := |records| - 1; ps == rest + if flags[n] && !records[n].warmup then [n] else []
    ensures Picks(records, flags, ps)
  {
    var n := |records| - 1;
    assert forall i :: 0 <= i < |rest| ==> rest[i] in rest;
    forall k: nat ensures k in ps <==> k < |records| && flags[k] && !records[k].warmup {
      assert k in ps <==> k in rest || (flags[n] && !records[n].warmup && k == n);
    }
  }

  lemma {:induction false} SelectPicks(records: seq<RunRecord>, flags: seq<bool>) returns (ps: seq<nat>)
    requires |flags| == |records|
    ensures Picks(records, flags, ps)
    ensures |Select(records, flags)| == |ps|
    ensures forall i :: 0 <= i < |ps| ==> ps[i] < |records| && Select(records, flags)[i] == records[ps[i]]
  {
    ps := [];
    if records != [] {
      var n := |records| - 1;
      var rest := SelectPicks(records[..n], flags[..n]);
      ps := rest + if flags[n] && !records[n].warmup then [n] else [];
      OneMorePick(records, flags, rest, ps);
      forall i | 0 <= i < |ps| ensures ps[i] < |records| && Select(records, flags)[i] == records[ps[i]] {
        assert ps[i] in ps;
      }
    }
  }

  lemma {:induction false} CountOfPicks(ps: seq<nat>, s: set<nat>)
    requires forall i, j :: 0 <= i < j < |ps| ==> ps[i] < ps[j]
    requires forall k: nat :: k in ps <==> k in s
    ensures |ps| == |s|
  {
    if ps != [] {
      var n := |ps| - 1;
      forall k: nat ensures k in ps[..n] <==> k in s - {ps[n]} {
        assert k in ps <==> k in ps[..n] || k == ps[n];
      }
      CountOfPicks(ps[..n], s - {ps[n]});
    } else {
      assert s == {};
    }
  }

  lemma FlagsAre(records: seq<RunRecord>, spec: ExperimentSpec, a: Artifact, k: nat)
    requires DistinctIds(records) && Admits(records, spec, a) && k < |records|
    ensures Flags(records, a.decisions)[k] <==> Admissible(records[k], spec) && !ParityBroken(records, spec)
  {
    ByIdIsOwn(a.decisions, k);
  }

  /** With distinct ids the artifact holds all admissible records, in their order, and nothing
      else, unless parity is broken, and is complete exactly when that is every measured one. */
  lemma AdmittedAreAll(records: seq<RunRecord>, spec: ExperimentSpec, a: Artifact) returns (ps: seq<nat>)
    requires DistinctIds(records) && Admits(records, spec, a)
    ensures forall i, j :: 0 <= i < j < |ps| ==> ps[i] < ps[j]
    ensures forall k: nat :: k in ps <==>
              k < |records| && Admissible(records[k], spec) && !ParityBroken(records, spec)
    ensures |a.records| == |ps|
    ensures forall i :: 0 <= i < |ps| ==> ps[i] < |records| && a.records[i] == records[ps[i]]
    ensures a.complete <==>
              forall k :: 0 <= k < |records| && !records[k].warmup ==>
                Admissible(records[k], spec) && !ParityBroken(records, spec)
  {
    var flags := Flags(records, a.decisions);
    ps := SelectPicks(records, flags);
    forall k: nat | k < |records|
      ensures flags[k] && !records[k].warmup <==> Admissible(records[k], spec) && !ParityBroken(records, spec)
    {
      FlagsAre(records, spec, a, k);
      assert Admissible(records[k], spec) ==> !Fails(records[k], spec, WarmupRow);
    }
    MeasuredCount(records);
    var measured, picked := set k: nat | k < |records| && !records[k].warmup, set k: nat | k in ps;
    CountOfPicks(ps, picked);
    SameCount(picked, measured);
    assert picked == measured <==> forall k: nat :: k in measured ==> k in picked;
  }

  lemma SameCount(a: set<nat>, b: set<nat>)
    requires a <= b
    ensures |a| == |b| <==> a == b
  {
    if x :| x in b && x !in a {
      SubsetIsSmaller(a, b - {x});
    } else {
      assert a == b;
    }
  }

  lemma {:induction false} SubsetIsSmaller(a: set<nat>, b: set<nat>)
    requires a <= b
    ensures |a| <= |b|
  {
    if a != {} {
      var x :| x in a;
      SubsetIsSmaller(a - {x}, b - {x});
    }
  }

  lemma {:induction false} ByIdIsOwn(decisions: seq<AdmissionDecision>, i: nat)
    requires i < |decisions|
    requires forall j, k :: 0 <= j < k < |decisions| ==> decisions[j].runId != decisions[k].runId
    ensures ById(decisions, decisions[i].runId) == Some(decisions[i])
  {
    if i < |decisions| - 1 {
      ByIdIsOwn(decisions[..|decisions| - 1], i);
    }
  }

  lemma {:induction false} SelectIsWithinMeasured(records: seq<RunRecord>, flags: seq<bool>)
    requires |flags| == |records|
    ensures |Select(records, flags)| <= |Measured(records)|
    ensures |Select(records, flags)| == |Measured(records)| ==>
              Select(records, flags) == Measured(records)
              && forall i :: 0 <= i < |records| && !records[i].warmup ==> flags[i]
  {
    if records != [] {
      SelectIsWithinMeasured(records[..|records| - 1], flags[..|flags| - 1]);
    }
  }

  lemma {:induction false} SelectedWasFlagged(records: seq<RunRecord>, flags: seq<bool>, r: RunRecord)
    requires |flags| == |records| && r in Select(records, flags)
    ensures exists i :: 0 <= i < |records| && records[i] == r && flags[i] && !r.warmup
  {
    var n := |records| - 1;
    if flags[n] && !records[n].warmup && r == records[n] {
      assert records[n] == r;
    } else {
      SelectedWasFlagged(records[..n], flags[..n], r);
      var i :| 0 <= i < n && records[..n][i] == r && flags[..n][i] && !r.warmup;
      assert records[i] == r && flags[i];
    }
  }

  lemma AdmittedIsAdmissible(records: seq<RunRecord>, spec: ExperimentSpec, a: Artifact, r: RunRecord)
    requires DistinctIds(records) && Admits(records, spec, a) && r in a.records
    ensures r in records && !r.warmup && Admissible(r, spec) && !ParityBroken(records, spec)
  {
    var flags := Flags(records, a.decisions);
    SelectedWasFlagged(records, flags, r);
    var i :| 0 <= i < |records| && records[i] == r && flags[i] && !r.warmup;
    ByIdIsOwn(a.decisions, i);
  }

  // ----- Admission covers the whole run ---------------------------------------------

  function SwapPeak(r: RunRecord, snapshots: seq<MemorySnapshot>): int
    requires r.memoryBefore.swapUsedBytes.Some?
  {
    if snapshots == [] then 0
    else
      var rest, last := SwapPeak(r, snapshots[..|snapshots| - 1]), snapshots[|snapshots| - 1].swapUsedBytes;
      var grown := if last.Some? then Growth(r.memoryBefore.swapUsedBytes.value, last.value) else 0;
      if grown > rest then grown else rest
  }

  /** The peak is the largest growth over the reading before the run, and zero without one. */
  lemma {:induction false} SwapPeakIsMax(r: RunRecord, snapshots: seq<MemorySnapshot>)
    requires r.memoryBefore.swapUsedBytes.Some?
    ensures
      var base, peak := r.memoryBefore.swapUsedBytes.value, SwapPeak(r, snapshots);
      && peak >= 0
      && (forall s <- snapshots :: s.swapUsedBytes.Some? ==> s.swapUsedBytes.value - base <= peak)
      && (peak > 0 ==> exists s <- snapshots :: s.swapUsedBytes == Some(base + peak))
  {
    if snapshots != [] {
      var n := |snapshots| - 1;
      SwapPeakIsMax(r, snapshots[..n]);
      assert snapshots[n] in snapshots && forall s :: s in snapshots <==> s in snapshots[..n] || s == snapshots[n];
    }
  }

  lemma {:induction false} PeakWithin(r: RunRecord, limit: int, snapshots: seq<MemorySnapshot>)
    requires r.memoryBefore.swapUsedBytes.Some? && limit >= 0
    requires forall s <- snapshots :: SwapWithin(limit, r.memoryBefore, s)
    ensures 0 <= SwapPeak(r, snapshots) <= limit
  {
    if snapshots != [] {
      assert snapshots[|snapshots| - 1] in snapshots;
      PeakWithin(r, limit, snapshots[..|snapshots| - 1]);
    }
  }

  lemma {:induction false} FreeValuesAreReadings(snapshots: seq<MemorySnapshot>, s: MemorySnapshot)
    requires s in snapshots && s.freePercent.Some?
    ensures s.freePercent.value in FreeValues(snapshots)
  {
    var n := |snapshots| - 1;
    if s != snapshots[n] {
      FreeValuesAreReadings(snapshots[..n], s);
    }
  }

  lemma AdmissibleFree(spec: ExperimentSpec, r: RunRecord, s: MemorySnapshot)
    requires Admissible(r, spec) && s in Snapshots(r)
    ensures FreeWithin(spec, s)
  {
    if s.freePercent.Some? {
      FreeValuesAreReadings(Snapshots(r), s);
      assert !Fails(r, spec, TooFewObservations) && !Fails(r, spec, FreeBelowGuard);
    }
  }

  lemma AdmissibleSwap(spec: ExperimentSpec, r: RunRecord, s: MemorySnapshot)
    requires Loaded(spec) && Made(spec, r) && Admissible(r, spec) && !r.warmup && s in Snapshots(r)
    ensures r.memoryBefore.swapUsedBytes.Some? && r.memoryAfter.swapUsedBytes.Some?
    ensures SwapWithin(spec.maxSwapDeltaBytes, r.memoryBefore, s)
  {
    assert !Fails(r, spec, SwapIncomplete) && !Fails(r, spec, SwapGrowthExceeded);
    if r.errors != [] {
      assert Fails(r, spec, Error(r.errors[0]));
    }
    if s in r.memorySamples {
      assert AllWithin(spec, SwapLimit(spec, false), r.memoryBefore, r.memorySamples);
    }
  }

  /** Admission looks at swap only before and after a run, and yet no snapshot of an admitted
      run, wherever it was taken, is over either limit. The guarded loop makes up the rest. */
  lemma AdmissionCoversRun(
    records: seq<RunRecord>, spec: ExperimentSpec, a: Artifact, r: RunRecord, s: MemorySnapshot)
    requires Loaded(spec) && Completed(spec, records) && Admits(records, spec, a)
    requires r in a.records && s in Snapshots(r)
    ensures r.memoryBefore.swapUsedBytes.Some? && r.memoryAfter.swapUsedBytes.Some?
    ensures FreeWithin(spec, s) && SwapWithin(spec.maxSwapDeltaBytes, r.memoryBefore, s)
  {
    AdmittedIsAdmissible(records, spec, a, r);
    assert Made(spec, r);
    AdmissibleFree(spec, r, s);
    AdmissibleSwap(spec, r, s);
  }

  lemma OneMoreReading(snapshots: seq<MemorySnapshot>, s: MemorySnapshot)
    requires s.freePercent.Some?
    ensures FreeValues(snapshots + [s]) == FreeValues(snapshots) + [s.freePercent.value]
  {
    assert (snapshots + [s])[..|snapshots|] == snapshots;
  }

  lemma ThreeReadings(a: MemorySnapshot, b: MemorySnapshot, c: MemorySnapshot)
    requires a.freePercent.Some? && b.freePercent.Some? && c.freePercent.Some?
    ensures FreeValues([a, b, c]) == [a.freePercent.value, b.freePercent.value, c.freePercent.value]
  {
    OneMoreReading([], a);
    OneMoreReading([a], b);
    OneMoreReading([a, b], c);
    assert [] + [a] == [a] && [a] + [b] == [a, b] && [a, b] + [c] == [a, b, c];
  }

  /** Admission alone would not do: it passes a record whose swap spiked between its ends. */
  lemma EndpointsMissASpike(spec: ExperimentSpec) returns (r: RunRecord, spike: MemorySnapshot)
    requires Loaded(spec)
    ensures Admissible(r, spec) && spike in Snapshots(r)
    ensures !SwapWithin(spec.maxSwapDeltaBytes, r.memoryBefore, spike)
  {
    var hash := seq(64, _ => '0');
    var calm := MemorySnapshot(Some(100.0), Some(0));
    spike := MemorySnapshot(Some(100.0), Some(spec.maxSwapDeltaBytes + 1));
    var source := if spec.requiredPowerSource.Some? then spec.requiredPowerSource.value else "AC Power";
    var power := PowerSnapshot(source, Some(false), Some(false), Some(false));
    r := RunRecord("id", "arm", 0, 0, false, Some(0), false, calm, calm, [spike], power, power, Some(hash),
                   [PressureEvent("start", "normal")],
                   RuntimeResult(Some(1), Some(1.0), Some(hash), Some(hash), Some(1.0), Some(0), Some(1)), []);
    ThreeReadings(calm, spike, calm);
    assert Snapshots(r) == [calm, spike, calm];
    assert "normal" != "critical" by {
      assert |"normal"| == 6 && |"critical"| == 8;
    }
    assert spike == Snapshots(r)[1];
  }

  /** So the peak swap growth the analysis will report is within the limit too. */
  lemma AdmittedPeakWithin(records: seq<RunRecord>, spec: ExperimentSpec, a: Artifact, r: RunRecord)
    requires Loaded(spec) && Completed(spec, records) && Admits(records, spec, a) && r in a.records
    ensures r.memoryBefore.swapUsedBytes.Some?
    ensures 0 <= SwapPeak(r, Snapshots(r)) <= spec.maxSwapDeltaBytes
  {
    forall s <- Snapshots(r) ensures SwapWithin(spec.maxSwapDeltaBytes, r.memoryBefore, s) {
      AdmissionCoversRun(records, spec, a, r, s);
    }
    AdmissionCoversRun(records, spec, a, r, r.memoryBefore);
    PeakWithin(r, spec.maxSwapDeltaBytes, Snapshots(r));
  }
}
