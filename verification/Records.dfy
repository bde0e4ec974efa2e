/** What the fields of a published record say about the parts, pairs and samples of the round. */
module Records {
  import opened Wrappers
  import opened Bytes
  import opened Model
  import opened Ordered
  import opened Posterior
  import opened Selection
  import opened Population
  import opened Accounting
  import opened Aggregation
  import opened AggregationLaws
  import Timestamp

  // ----- the statistics -----

  /** `m` is the mean of the values. */
  predicate IsMean(m: real, values: seq<real>) { values != [] && m * |values| as real == Sum(values) }

  /** A sum adds up over any division of its values. */
  lemma {:induction false} SumAddsUp(s: seq<real>, t: seq<real>, x: real)
    ensures Sum(s + t) == Sum(s) + Sum(t) && Sum([x]) == x
    decreases |t|
  {
    assert [x][..0] == [];
    if t == [] {
      assert s + t == s;
    } else {
      assert (s + t)[..|s + t| - 1] == s + t[..|t| - 1];
      SumAddsUp(s, t[..|t| - 1], x);
    }
  }

  lemma MeanIsMean(values: seq<real>)
    requires values != []
    ensures IsMean(Mean(values), values)
  {
  }

  /** `r` is the `q`-quantile of the values: it divides their sorted list linearly at rank q(n - 1). */
  ghost predicate IsQuantile(r: real, values: seq<real>, q: real) {
    exists sorted :: Increasing(sorted) && multiset(sorted) == multiset(values) && DividesAt(r, sorted, q)
  }

  predicate DividesAt(r: real, sorted: seq<real>, q: real) {
    && sorted != [] && 0.0 <= q <= 1.0
    && var rank := q * (|sorted| - 1) as real;
       && 0 <= rank.Floor < |sorted|
       && var next := if rank.Floor + 1 < |sorted| then rank.Floor + 1 else rank.Floor;
          r == sorted[rank.Floor] + (rank - rank.Floor as real) * (sorted[next] - sorted[rank.Floor])
  }

  lemma {:induction false} InsertedElements(x: real, s: seq<real>)
    ensures multiset(InsertSorted(x, s)) == multiset{x} + multiset(s)
  {
    if s != [] {
      InsertedElements(x, s[1..]);
      assert s == [s[0]] + s[1..];
    }
  }

  lemma {:induction false} SortedElements(s: seq<real>)
    ensures multiset(Sort(s)) == multiset(s)
  {
    if s != [] {
      SortedElements(s[1..]);
      InsertedElements(s[0], Sort(s[1..]));
      assert s == [s[0]] + s[1..];
    }
  }

  lemma QuantileIsQuantile(values: seq<real>, q: real)
    requires values != [] && 0.0 <= q <= 1.0
    ensures QuantileType7(values, q).Ok? && IsQuantile(QuantileType7(values, q).value, values, q)
  {
    SortCorrect(values, 0.0);
    SortedElements(values);
    var sorted := Sort(values);
    hide Sort, CountClearing;
    if |values| == 1 {
      assert q * 0 as real == 0.0;
    }
    assert DividesAt(QuantileType7(values, q).value, sorted, q);
  }

  /** How many of the values reach the target. */
  ghost function Reaching(values: seq<real>, target: real): nat { |set i | 0 <= i < |values| && values[i] >= target| }

  lemma {:induction false} CountFrom(values: seq<real>, target: real, k: nat)
    requires k <= |values|
    ensures CountClearing(values[k..], target) == |set i | k <= i < |values| && values[i] >= target|
    decreases |values| - k
  {
    var all := set i | k <= i < |values| && values[i] >= target;
    if k < |values| {
      CountFrom(values, target, k + 1);
      assert values[k..][1..] == values[k + 1..];
      var later := set i | k + 1 <= i < |values| && values[i] >= target;
      assert all == later + (if values[k] >= target then {k} else {});
    } else {
      assert all == {};
    }
  }

  lemma CountIsReaching(values: seq<real>, target: real)
    ensures CountClearing(values, target) == Reaching(values, target)
  {
    CountFrom(values, target, 0);
    assert values[0..] == values;
  }

  // ----- the fields -----

  /** Which round it was, and what it was asked. */
  predicate SaysRun(input: AggregationInput, out: RoundOutput) {
    var config := input.config;
    && out.formatVersion == 1 && out.cohort == config.cohort && out.computedAt == input.computedAt
    && out.index == config.index && out.efGrid == config.efGrid && out.error == input.phaseAAbort
    && config.windowDuration <= input.roundEnd && out.window.duration == config.windowDuration
    && out.window.start == Timestamp.Iso8601(input.roundEnd - config.windowDuration)
    && out.window.end == Timestamp.Iso8601(input.roundEnd)
    && out.target.name == config.targetName && out.target.k == config.k && out.target.value == config.value
    && out.target.percentile == config.percentile
    && out.target.selectionConfidence == config.selectionConfidence
    && out.target.approvalConfidence == config.approvalConfidence
  }

  /** The fraction of the received frames that were not written. */
  predicate IsDropped(fraction: real, received: nat, records: nat) {
    fraction * received as real == (received - records) as real && (received == 0 ==> fraction == 0.0)
  }

  /** What was received, written, measured and used. */
  ghost predicate SaysParts(accounts: Accounts, tally: Tally, out: RoundOutput) {
    && FrameTotals(InOrder(accounts.listed)).Ok?
    && var (received, records) := FrameTotals(InOrder(accounts.listed)).value;
       && out.samples.available == records
       && IsDropped(out.droppedFrameFraction, received, records)
       && out.samples.measured == tally.measured && out.samples.failed == tally.failed
       && out.partsUsed == |tally.used| && out.incompatibleParts == tally.incompatible
       && out.coverage == CoverageOf(accounts.expected, accounts.listed)
  }

  /** How one side of the split fared at an ef. */
  ghost predicate SaysSide(samples: seq<PopulationSample>, config: AggregationConfig, ef: int, confidence: Option<real>,
                           compliance: Option<real>, quantile: Option<real>) {
    && (forall s :: s in samples ==> ef in s.sweeps) && Probability(config.percentile)
    && confidence.Some? && compliance.Some? && quantile.Some?
    && var recalls := Recalls(samples, ef);
       && CountClearing(recalls, config.value) == Reaching(recalls, config.value)
       && confidence.value == Confidence(|samples|, CountClearing(recalls, config.value), config.percentile)
       && compliance.value * |samples| as real == Reaching(recalls, config.value) as real
       && IsQuantile(quantile.value, recalls, 1.0 - config.percentile)
  }

  /** How the recommended ef fared on each side; nothing when no selection was made. */
  ghost predicate SaysSelection(config: AggregationConfig, d: Decision, out: RoundOutput) {
    match out.recommendedEf
    case Some(ef) =>
      && SaysSide(d.train, config, ef, out.trainConfidence, out.trainCompliance, out.trainQuantileRecall)
      && SaysSide(d.test, config, ef, out.confidence, out.testCompliance, out.testQuantileRecall)
    case None =>
      && out.confidence == out.trainConfidence == out.trainCompliance == out.trainQuantileRecall == None
      && out.testCompliance == out.testQuantileRecall == None
  }

  function GroundTruthLatencies(population: seq<PopulationSample>): seq<real> {
    seq(|population|, i requires 0 <= i < |population| => population[i].groundTruthLatencyMs)
  }

  ghost predicate SaysEf(summary: PerEfSummary, population: seq<PopulationSample>, ef: int, percentile: real) {
    && (forall s :: s in population ==> ef in s.sweeps) && summary.ef == ef
    && IsQuantile(summary.quantileRecall, Recalls(population, ef), 1.0 - percentile)
    && IsMean(summary.meanRecall, Recalls(population, ef))
    && IsMean(summary.latencyMeanMs, Latencies(population, ef))
  }

  ghost predicate SaysEveryEf(summaries: seq<PerEfSummary>, population: seq<PopulationSample>, grid: seq<int>,
                              percentile: real) {
    |summaries| == |grid| && forall i :: 0 <= i < |grid| ==> SaysEf(summaries[i], population, grid[i], percentile)
  }

  /** How the whole population fared. */
  ghost predicate SaysPopulation(config: AggregationConfig, d: Decision, out: RoundOutput) {
    && out.samples.unique == |d.population| == out.samples.train + out.samples.test
    && out.samples.train == |d.train| && out.samples.test == |d.test|
    && if d.population == [] then out.groundTruthLatencyMeanMs == None && out.perEf == []
       else
         && out.groundTruthLatencyMeanMs.Some?
         && IsMean(out.groundTruthLatencyMeanMs.value, GroundTruthLatencies(d.population))
         && SaysEveryEf(out.perEf, d.population, config.efGrid, config.percentile)
  }

  lemma {:induction false} SummariesSay(population: seq<PopulationSample>, grid: seq<int>, percentile: real)
    requires population != [] && Swept(population, grid) && 0.0 < percentile < 1.0
    ensures Summaries(population, grid, 1.0 - percentile).Ok?
    ensures SaysEveryEf(Summaries(population, grid, 1.0 - percentile).value, population, grid, percentile)
  {
    hide QuantileType7, Mean, IsQuantile, IsMean;
    if grid != [] {
      var ef := grid[0];
      assert forall e :: e in grid[1..] ==> e in grid;
      assert forall s :: s in population ==> ef in grid && ef in s.sweeps;
      SummariesSay(population, grid[1..], percentile);
      QuantileIsQuantile(Recalls(population, ef), 1.0 - percentile);
      MeanIsMean(Recalls(population, ef));
      MeanIsMean(Latencies(population, ef));
      assert SaysEf(Summaries(population, grid, 1.0 - percentile).value[0], population, ef, percentile);
    }
  }

  lemma EvaluationSays(config: AggregationConfig, samples: seq<PopulationSample>, ef: int)
    requires samples != [] && (forall s :: s in samples ==> ef in s.sweeps) && Probability(config.percentile)
    requires EvaluateSplit(config, samples, ef).Ok?
    ensures var e := EvaluateSplit(config, samples, ef).value;
            SaysSide(samples, config, ef, Some(e.confidence), Some(e.compliance), Some(e.quantile))
  {
    hide QuantileType7, IsQuantile, CountClearing, Reaching, Tail;
    var recalls := Recalls(samples, ef);
    QuantileIsQuantile(recalls, 1.0 - config.percentile);
    CountIsReaching(recalls, config.value);
    var c, n := CountClearing(recalls, config.value) as real, |samples| as real;
    assert c / n * n == c;
  }

  lemma SelectionSays(config: AggregationConfig, train: seq<PopulationSample>, test: seq<PopulationSample>)
    requires Selectable(config) && train != [] && test != []
    requires Swept(train, config.efGrid) && Swept(test, config.efGrid)
    ensures SelectAndValidate(config, train, test).Ok?
    ensures var v := SelectAndValidate(config, train, test).value;
            && SaysSide(train, config, v.recommendedEf, Some(v.trainConfidence), Some(v.trainCompliance),
                        Some(v.trainQuantile))
            && SaysSide(test, config, v.recommendedEf, Some(v.confidence), Some(v.testCompliance), Some(v.testQuantile))
  {
    hide SaysSide, EvaluateSplit, SelectEf, Scores;
    SelectionCompletes(config, train, test);
    var ef := SelectAndValidate(config, train, test).value.recommendedEf;
    EvaluationSays(config, train, ef);
    EvaluationSays(config, test, ef);
  }

  lemma DecisionSays(config: AggregationConfig, aborted: bool, d: Decision)
    requires Decided(config, aborted, d) && d.selection.Some?
    ensures var v := d.selection.value;
            && SaysSide(d.train, config, v.recommendedEf, Some(v.trainConfidence), Some(v.trainCompliance),
                        Some(v.trainQuantile))
            && SaysSide(d.test, config, v.recommendedEf, Some(v.confidence), Some(v.testCompliance),
                        Some(v.testQuantile))
  {
    hide SaysSide, SelectAndValidate, Side;
    SelectionSays(config, d.train, d.test);
  }

  lemma PublishedSelection(input: AggregationInput, accounts: Accounts, tally: Tally, d: Decision)
    requires input.config.windowDuration <= input.roundEnd && Decided(input.config, input.phaseAAbort.Some?, d)
    ensures SaysSelection(input.config, d, Publish(input, accounts, tally, d))
  {
    hide Decided, SaysSide, Effective, Latency, WindowOf;
    if d.selection.Some? { DecisionSays(input.config, input.phaseAAbort.Some?, d); }
  }

  lemma PublishedRun(input: AggregationInput, accounts: Accounts, tally: Tally, d: Decision)
    requires input.config.windowDuration <= input.roundEnd
    ensures SaysRun(input, Publish(input, accounts, tally, d))
  {
    hide Effective, Latency, Timestamp.Iso8601;
  }

  /** The totals of the accounts are those of the listed parts in scope. */
  ghost predicate AddedUp(a: Accounts) {
    && FrameTotals(InOrder(a.listed)).Ok?
    && var (received, records) := FrameTotals(InOrder(a.listed)).value;
       && a.available == records && a.coverage == CoverageOf(a.expected, a.listed)
       && IsDropped(a.dropFraction, received, records)
  }

  lemma AccountAddsUp(config: AggregationConfig, roundEnd: U64, parts: seq<ListedPart>)
    requires Account(config, roundEnd, parts).Ok?
    ensures AddedUp(Account(config, roundEnd, parts).value)
  {
    hide WindowStarts, Lower, InScopeParts, CoverageOf, InOrder, Available, FrameTotals, FractionOf;
    var a := Account(config, roundEnd, parts).value;
    AvailableIsWritten(InOrder(a.listed));
    FrameTotalsOrdered(InOrder(a.listed));
    FractionExact(FrameTotals(InOrder(a.listed)).value.0, a.available);
    NothingReceived(FrameTotals(InOrder(a.listed)).value.1);
  }

  lemma NothingReceived(records: nat)
    ensures FractionOf(0, records) == 0.0
  {
  }

  lemma PublishedParts(input: AggregationInput, accounts: Accounts, tally: Tally, d: Decision)
    requires input.config.windowDuration <= input.roundEnd && AddedUp(accounts)
    ensures SaysParts(accounts, tally, Publish(input, accounts, tally, d))
  {
    hide Effective, Latency, WindowOf, FrameTotals, CoverageOf, InOrder, IsDropped;
  }

  lemma PublishedPopulation(input: AggregationInput, accounts: Accounts, tally: Tally, d: Decision)
    requires input.config.windowDuration <= input.roundEnd && Counted(input.config, d)
    ensures SaysPopulation(input.config, d, Publish(input, accounts, tally, d))
  {
    hide Effective, WindowOf, SaysEveryEf, Mean, IsMean;
    if d.population != [] { MeanIsMean(GroundTruthLatencies(d.population)); }
    assert d.population != [] ==> Latency(d.population) == Some(Mean(GroundTruthLatencies(d.population)));
  }

  /** The decision counted every member of its population on one side, and summed all of them up. */
  ghost predicate Counted(config: AggregationConfig, d: Decision) {
    && |d.train| + |d.test| == |d.population|
    && if d.population == [] then d.perEf == []
       else SaysEveryEf(d.perEf, d.population, config.efGrid, config.percentile)
  }

  lemma DecisionCounts(config: AggregationConfig, aborted: bool, population: seq<PopulationSample>)
    requires 0.0 < config.percentile < 1.0 && Decide(config, aborted, population).Ok?
    ensures Counted(config, Decide(config, aborted, population).value)
  {
    hide Summaries, SaysEveryEf, SelectAndValidate, Insufficient, Side, SplitThreshold, ValidatePopulation, Swept;
    var d := Decide(config, aborted, population).value;
    SidesPartition(population, config);
    ValidIsSwept(population, config.efGrid);
    if population != [] { SummariesSay(population, config.efGrid, config.percentile); }
  }

  /** What a round computes on the way. */
  lemma ComputedIs(input: AggregationInput)
    requires Compute(input).Ok?
    ensures var r := Compute(input).value;
            && Account(input.config, input.roundEnd, input.listedParts) == Ok(r.accounts)
            && Decide(input.config, input.phaseAAbort.Some?, r.decision.population) == Ok(r.decision)
  {
    hide Account, TallyParts, DistinctIntermediates, PopulationOf, Decide, Decided, ValidateConfig, InOrder, Aggregate;
    ComputedDecision(input);
  }

  lemma AggregateIs(input: AggregationInput)
    requires Compute(input).Ok?
    ensures var r := Compute(input).value;
            Aggregate(input) == Ok(Publish(input, r.accounts, r.tally, r.decision))
  {
    hide Compute, Publish;
  }

  /** A published record says what the round was asked, what its parts held, how its samples fared, and how
      the recommended ef fared on either side of the split. */
  lemma RecordSays(input: AggregationInput)
    requires Aggregate(input).Ok?
    ensures Compute(input).Ok?
    ensures var r, out := Compute(input).value, Aggregate(input).value;
            && SaysRun(input, out) && SaysParts(r.accounts, r.tally, out)
            && SaysPopulation(input.config, r.decision, out) && SaysSelection(input.config, r.decision, out)
  {
    hide Account, Decide, Decided, Selectable, Publish, SaysRun, SaysParts, SaysPopulation, SaysSelection, AddedUp,
         Counted;
    var r := Compute(input).value;
    ComputedDecision(input);
    ComputedIs(input);
    AggregateIs(input);
    hide Compute, Aggregate;
    PercentileOf(input);
    AccountAddsUp(input.config, input.roundEnd, input.listedParts);
    DecisionCounts(input.config, input.phaseAAbort.Some?, r.decision.population);
    PublishedRun(input, r.accounts, r.tally, r.decision);
    PublishedParts(input, r.accounts, r.tally, r.decision);
    PublishedPopulation(input, r.accounts, r.tally, r.decision);
    PublishedSelection(input, r.accounts, r.tally, r.decision);
  }

  lemma PercentileOf(input: AggregationInput)
    requires Compute(input).Ok?
    ensures 0.0 < input.config.percentile < 1.0
  {
    hide Account, TallyParts, DistinctIntermediates, PopulationOf, Decide, SplitThreshold, InOrder;
  }
}
