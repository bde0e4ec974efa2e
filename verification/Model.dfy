/** The tuner's data: configuration, stored parts and published rounds. Part ULIDs are their
    128-bit values, whose order is the order of their canonical text. */
module Model {
  import opened Wrappers
  import opened Bytes
  import opened Posterior

  const MAX_EF_SEARCH: int := 1000

  datatype AggregationConfig = AggregationConfig(
    cohort: seq<Byte>, targetName: string, index: string, table: string, column: string, key: string,
    k: nat, value: real, percentile: real, selectionConfidence: real, approvalConfidence: real,
    windowDuration: U64, storageWindow: U32, efGrid: seq<int>, trainFraction: real, splitSeed: U64)

  datatype ListedPart = ListedPart(
    partUlid: nat, windowStart: U64, windowSeconds: U32, receivedFrameCount: U64, recordCount: U64)

  datatype IntermediateMetadata = IntermediateMetadata(
    formatVersion: nat, cohort: seq<Byte>, partUlid: nat, windowStart: U64, windowSeconds: U32,
    receivedFrameCount: U64, recordCount: U64, index: string, table: string, column: string, key: string,
    k: nat, efGrid: seq<int>, failedCount: nat, measuredCount: nat, computedAtUs: U64)

  datatype SweepMeasurement = SweepMeasurement(recall: real, latencyMs: real)

  datatype MeasuredSample = MeasuredSample(
    recordIndex: int, vectorHash: U64, dupCount: int, groundTruthLatencyMs: real, sweeps: map<int, SweepMeasurement>)

  datatype IntermediatePart = IntermediatePart(metadata: IntermediateMetadata, samples: seq<MeasuredSample>)

  /** The table returned fewer than `k` rows; the cohort's round is published as insufficient. */
  datatype PhaseAAbort = TableSmallerThanK(returned: nat, k: nat)

  datatype RoundStatus = StatusOk | TargetUnmet | InsufficientSamples

  datatype RoundTarget = RoundTarget(
    name: string, k: nat, value: real, percentile: real, selectionConfidence: real, approvalConfidence: real)

  datatype RoundWindow = RoundWindow(start: seq<Byte>, end: seq<Byte>, duration: U64)

  datatype SampleCounts = SampleCounts(
    available: nat, measured: nat, failed: nat, unique: nat, train: nat, test: nat)

  datatype Coverage = Coverage(emptyWindowFraction: real, windowsInScope: nat, windowsWithParts: nat)

  datatype PerEfSummary = PerEfSummary(ef: int, quantileRecall: real, meanRecall: real, latencyMeanMs: real)

  datatype EffectiveRecommendation = EffectiveRecommendation(
    recommendedEf: int, confidence: real, sourceRound: seq<Byte>, carried: bool)

  datatype RoundOutput = RoundOutput(
    formatVersion: nat, cohort: seq<Byte>, computedAt: string, window: RoundWindow, target: RoundTarget,
    index: string, efGrid: seq<int>, status: RoundStatus, error: Option<PhaseAAbort>,
    recommendedEf: Option<int>, confidence: Option<real>, trainConfidence: Option<real>,
    trainCompliance: Option<real>, trainQuantileRecall: Option<real>, testCompliance: Option<real>,
    testQuantileRecall: Option<real>, effective: Option<EffectiveRecommendation>, samples: SampleCounts,
    droppedFrameFraction: real, coverage: Coverage, partsUsed: nat, incompatibleParts: nat,
    groundTruthLatencyMeanMs: Option<real>, perEf: seq<PerEfSummary>)

  datatype AggregateError =
    | Math(error: MathError)
    | ZeroWindow
    | WindowUnderflow
    | UnalignedRoundEnd
    | InvalidConfig
    | ConflictingListedPart(partUlid: nat)
    | ConflictingIntermediate(partUlid: nat)
    | InvalidPartCounts(partUlid: nat)
    | CounterOverflow(counter: string)
    | PartWindowOverflow(partUlid: nat)
    | MissingSweep(partUlid: nat, recordIndex: int, ef: int)
    | InvalidObservation(partUlid: nat, recordIndex: int, ef: int)
    | InvalidGroundTruthLatency(partUlid: nat, recordIndex: int)

  function FromMath<T>(r: Result<T, MathError>): Result<T, AggregateError> {
    match r
    case Ok(value) => Ok(value)
    case Err(error) => Err(Math(error))
  }

  datatype AggregationInput = AggregationInput(
    config: AggregationConfig, roundEnd: U64, computedAt: string, phaseAAbort: Option<PhaseAAbort>,
    phaseAIncompatibleParts: nat, previousRound: Option<RoundOutput>,
    listedParts: seq<ListedPart>, intermediates: seq<IntermediatePart>)
}
