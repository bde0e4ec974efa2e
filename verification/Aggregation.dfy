/** One cohort round as a function of its inputs. */
module Aggregation {
  import opened Wrappers
  import opened Bytes
  import opened Model
  import opened Ordered
  import opened Posterior
  import opened Selection
  import opened Population
  import opened Accounting
  import Timestamp

  // ----- configuration -----

  predicate WellShaped(config: AggregationConfig) {
    && config.storageWindow > 0 && config.storageWindow % 60 == 0
    && config.windowDuration >= config.storageWindow && config.windowDuration % config.storageWindow == 0
    && config.k > 0 && 0.0 < config.value <= 1.0
    && 0.0 < config.percentile < 1.0
    && 0.0 < config.selectionConfidence < 1.0 && 0.0 < config.approvalConfidence < 1.0
    && config.efGrid != [] && StrictlyAscending(config.efGrid)
    && config.efGrid[0] >= config.k && forall ef :: ef in config.efGrid ==> ef <= MAX_EF_SEARCH
  }

  function ValidateConfig(config: AggregationConfig): (r: Result<(), AggregateError>)
    ensures r.Ok? <==> WellShaped(config) && SplitThreshold(config.trainFraction).Ok?
    ensures r.Ok? ==> Selectable(config)
  {
    if !WellShaped(config) then Err(InvalidConfig)
    else
      var _ :- FromMath(SplitThreshold(config.trainFraction));
      Ok(())
  }

  predicate IsCompatible(config: AggregationConfig, part: IntermediatePart) {
    var m := part.metadata;
    && m.formatVersion == 1 && m.k == config.k && m.index == config.index && m.table == config.table
    && m.column == config.column && m.key == config.key && m.efGrid == config.efGrid
  }

  // ----- accounting -----

  datatype Accounts = Accounts(
    expected: seq<nat>, listed: map<nat, ListedPart>, coverage: Coverage, available: nat, dropFraction: real)

  function Account(config: AggregationConfig, roundEnd: U64, parts: seq<ListedPart>): Result<Accounts, AggregateError> {
    var expected :- WindowStarts(roundEnd, config.windowDuration, config.storageWindow);
    var lower :- Lower(roundEnd, config.windowDuration);
    var listed :- InScopeParts(parts, lower, roundEnd);
    var available :- Available(InOrder(listed));
    var dropFraction :- DroppedFraction(InOrder(listed));
    Ok(Accounts(expected, listed, CoverageOf(expected, listed), available, dropFraction))
  }

  // ----- which pairs count -----

  datatype Tally = Tally(used: seq<IntermediatePart>, incompatible: nat, measured: nat, failed: nat)

  function TallyPart(config: AggregationConfig, listed: map<nat, ListedPart>, t: Tally, part: IntermediatePart):
      Result<Tally, AggregateError>
  {
    if part.metadata.partUlid !in listed then Ok(t)
    else if !IsCompatible(config, part) then
      if t.incompatible + 1 >= U64_LIMIT then Err(CounterOverflow("incompatible_parts"))
      else Ok(t.(incompatible := t.incompatible + 1))
    else if t.measured + part.metadata.measuredCount >= U64_LIMIT then Err(CounterOverflow("samples.measured"))
    else if t.failed + part.metadata.failedCount >= U64_LIMIT then Err(CounterOverflow("samples.failed"))
    else Ok(Tally(t.used + [part], t.incompatible,
                  t.measured + part.metadata.measuredCount, t.failed + part.metadata.failedCount))
  }

  function TallyParts(config: AggregationConfig, listed: map<nat, ListedPart>, incompatible: nat,
                      parts: seq<IntermediatePart>):
      Result<Tally, AggregateError>
  {
    if parts == [] then Ok(Tally([], incompatible, 0, 0))
    else
      var t :- TallyParts(config, listed, incompatible, parts[..|parts| - 1]);
      TallyPart(config, listed, t, parts[|parts| - 1])
  }

  function Labelled(partUlid: nat, samples: seq<MeasuredSample>): (r: seq<(nat, MeasuredSample)>)
    ensures |r| == |samples|
  {
    seq(|samples|, i requires 0 <= i < |samples| => (partUlid, samples[i]))
  }

  function SamplesOf(used: seq<IntermediatePart>): seq<(nat, MeasuredSample)> {
    if used == [] then []
    else
      var last := used[|used| - 1];
      SamplesOf(used[..|used| - 1]) + Labelled(last.metadata.partUlid, last.samples)
  }

  function PopulationOf(used: seq<IntermediatePart>): seq<PopulationSample> {
    InOrder(Survivors(Candidates(SamplesOf(used))))
  }

  // ----- the decision -----

  datatype Decision = Decision(
    population: seq<PopulationSample>, perEf: seq<PerEfSummary>, train: seq<PopulationSample>,
    test: seq<PopulationSample>, selection: Option<CompletedSelection>)

  function Latency(population: seq<PopulationSample>): Option<real> {
    if population == [] then None
    else Some(Mean(seq(|population|, i requires 0 <= i < |population| => population[i].groundTruthLatencyMs)))
  }

  function Decide(config: AggregationConfig, aborted: bool,
                  population: seq<PopulationSample>): Result<Decision, AggregateError>
  {
    var _ :- ValidatePopulation(population, config.efGrid);
    ValidIsSwept(population, config.efGrid);
    var perEf :- PerEfSummaries(population, config);
    var _ :- FromMath(SplitThreshold(config.trainFraction));
    var train, test := Side(population, config, true), Side(population, config, false);
    var insufficient :- Insufficient(config, aborted, |train|, |test|);
    if insufficient then Ok(Decision(population, perEf, train, test, None))
    else
      var selection :- SelectAndValidate(config, train, test);
      Ok(Decision(population, perEf, train, test, Some(selection)))
  }

  predicate CarryFingerprintMatches(config: AggregationConfig, previous: RoundOutput) {
    && previous.cohort == config.cohort && previous.index == config.index && previous.efGrid == config.efGrid
    && previous.target.k == config.k && previous.target.value == config.value
    && previous.target.percentile == config.percentile
    && previous.target.selectionConfidence == config.selectionConfidence
    && previous.target.approvalConfidence == config.approvalConfidence
  }

  function PreviousEffective(config: AggregationConfig,
                             previous: Option<RoundOutput>): Option<EffectiveRecommendation> {
    if previous.Some? && CarryFingerprintMatches(config, previous.value) then previous.value.effective else None
  }

  predicate Approving(config: AggregationConfig, selection: Option<CompletedSelection>) {
    && selection.Some? && selection.value.status == StatusOk
    && selection.value.confidence >= config.approvalConfidence
  }

  function Effective(config: AggregationConfig, selection: Option<CompletedSelection>,
                     previous: Option<EffectiveRecommendation>, sourceRound: seq<Byte>): Option<EffectiveRecommendation>
  {
    if Approving(config, selection) then
      Some(EffectiveRecommendation(selection.value.recommendedEf, selection.value.confidence, sourceRound, false))
    else match previous
      case None => None
      case Some(effective) => Some(effective.(carried := true))
  }

  // ----- the round -----

  function TargetOf(config: AggregationConfig): RoundTarget {
    RoundTarget(config.targetName, config.k, config.value, config.percentile,
                config.selectionConfidence, config.approvalConfidence)
  }

  function WindowOf(roundEnd: U64, duration: U64): RoundWindow
    requires duration <= roundEnd
  {
    RoundWindow(Timestamp.Iso8601(roundEnd - duration), Timestamp.Iso8601(roundEnd), duration)
  }

  function Publish(input: AggregationInput, accounts: Accounts, tally: Tally, d: Decision): RoundOutput
    requires input.config.windowDuration <= input.roundEnd
  {
    var config, s := input.config, d.selection;
    RoundOutput(
      1, config.cohort, input.computedAt, WindowOf(input.roundEnd, config.windowDuration), TargetOf(config),
      config.index, config.efGrid, if s.Some? then s.value.status else InsufficientSamples, input.phaseAAbort,
      if s.Some? then Some(s.value.recommendedEf) else None,
      if s.Some? then Some(s.value.confidence) else None,
      if s.Some? then Some(s.value.trainConfidence) else None,
      if s.Some? then Some(s.value.trainCompliance) else None,
      if s.Some? then Some(s.value.trainQuantile) else None,
      if s.Some? then Some(s.value.testCompliance) else None,
      if s.Some? then Some(s.value.testQuantile) else None,
      Effective(config, s, PreviousEffective(config, input.previousRound), Timestamp.Iso8601(input.roundEnd)),
      SampleCounts(accounts.available, tally.measured, tally.failed, |d.population|, |d.train|, |d.test|),
      accounts.dropFraction, accounts.coverage, |tally.used|, tally.incompatible, Latency(d.population), d.perEf)
  }

  /** Everything a successful round computes on the way. */
  datatype Round = Round(accounts: Accounts, tally: Tally, decision: Decision)

  function Compute(input: AggregationInput): (r: Result<Round, AggregateError>)
    ensures r.Ok? ==> input.config.windowDuration <= input.roundEnd && Selectable(input.config)
  {
    var _ :- ValidateConfig(input.config);
    var accounts :- Account(input.config, input.roundEnd, input.listedParts);
    var intermediates :- DistinctIntermediates(input.intermediates);
    var tally :- TallyParts(input.config, accounts.listed, input.phaseAIncompatibleParts, InOrder(intermediates));
    var decision :- Decide(input.config, input.phaseAAbort.Some?, PopulationOf(tally.used));
    Ok(Round(accounts, tally, decision))
  }

  /** The specification of `AggregateRound`. */
  function Aggregate(input: AggregationInput): Result<RoundOutput, AggregateError> {
    var round :- Compute(input);
    Ok(Publish(input, round.accounts, round.tally, round.decision))
  }
}
