/** The records of the evidence pipeline. Percentages and rates are exact rationals. */
module Schema {
  import opened Options

  datatype ArmSpec = ArmSpec(name: string, cacheMib: int, pressureMib: int)

  datatype ExperimentSpec = ExperimentSpec(
    arms: seq<ArmSpec>,
    warmups: nat,
    repetitions: nat,
    minFreePercent: real,
    maxSwapDeltaBytes: int,
    warmupMaxSwapDeltaBytes: int,
    requiredPowerSource: Option<string>,
    requireLowPowerModeOff: bool,
    requireNoThermalWarning: bool,
    requireNativePressureMonitor: bool,
    requireOutputParity: bool,
    requireTokenIdParity: bool,
    requireExpertTelemetry: bool,
    failFast: bool)

  /** What a loaded experiment file guarantees. */
  ghost predicate Loaded(spec: ExperimentSpec) {
    && spec.arms != []
    && (forall i, j :: 0 <= i < j < |spec.arms| ==> spec.arms[i].name != spec.arms[j].name)
    && spec.warmups >= 1 && spec.repetitions >= 1
    && 0.0 < spec.minFreePercent <= 100.0
    && 0 <= spec.maxSwapDeltaBytes <= spec.warmupMaxSwapDeltaBytes
  }

  datatype MemorySnapshot = MemorySnapshot(freePercent: Option<real>, swapUsedBytes: Option<int>)

  datatype PowerSnapshot = PowerSnapshot(
    powerSource: string,
    lowPowerMode: Option<bool>,
    thermalWarning: Option<bool>,
    performanceWarning: Option<bool>)

  datatype PressureEvent = PressureEvent(kind: string, level: string)

  datatype RuntimeResult = RuntimeResult(
    completionTokens: Option<int>,
    decodeTps: Option<real>,
    outputSha256: Option<string>,
    tokenIdsSha256: Option<string>,
    expertHitRate: Option<real>,
    expertMissCount: Option<int>,
    expertAccessCount: Option<int>)

  const NO_RESULT := RuntimeResult(None, None, None, None, None, None, None)

  datatype RunError =
    | RuntimeTimeout
    | FreeMemoryGuard
    | SwapGrowth
    | NativeCritical
    | TelemetryError
    | ResultParseFailed
    | PressureEventParseFailed

  datatype RunRecord = RunRecord(
    runId: string,
    armName: string,
    scheduleIndex: nat,
    repetition: nat,
    warmup: bool,
    returnCode: Option<int>,
    timedOut: bool,
    memoryBefore: MemorySnapshot,
    memoryAfter: MemorySnapshot,
    memorySamples: seq<MemorySnapshot>,
    powerBefore: PowerSnapshot,
    powerAfter: PowerSnapshot,
    nativePressureMonitorSha256: Option<string>,
    nativePressureEvents: seq<PressureEvent>,
    runtime: RuntimeResult,
    errors: seq<RunError>)
}
