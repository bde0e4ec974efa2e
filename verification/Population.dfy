/** The population of one round: deduplication over the whole window, the train and holdout split,
    and selection on one with validation on the other. */
module Population {
  import opened Wrappers
  import opened Bytes
  import opened Cohort
  import opened Fnv
  import opened Model
  import opened Ordered
  import opened Posterior
  import opened Selection
  import Timestamp

  datatype PopulationSample = PopulationSample(
    partUlid: nat, recordIndex: int, vectorHash: U64, groundTruthLatencyMs: real, sweeps: map<int, SweepMeasurement>)

  // ----- deduplication -----

  function Candidate(partUlid: nat, s: MeasuredSample): PopulationSample {
    PopulationSample(partUlid, s.recordIndex, s.vectorHash, s.groundTruthLatencyMs, s.sweeps)
  }

  predicate Earlier(a: PopulationSample, b: PopulationSample) {
    a.partUlid < b.partUlid || (a.partUlid == b.partUlid && a.recordIndex < b.recordIndex)
  }

  function Keep(survivors: map<U64, PopulationSample>, c: PopulationSample): map<U64, PopulationSample> {
    if c.vectorHash in survivors && !Earlier(c, survivors[c.vectorHash]) then survivors
    else survivors[c.vectorHash := c]
  }

  function Survivors(cs: seq<PopulationSample>): map<U64, PopulationSample> {
    if cs == [] then map[] else Keep(Survivors(cs[..|cs| - 1]), cs[|cs| - 1])
  }

  function At<T(!new)>(m: map<int, T>, keys: seq<int>): (s: seq<T>)
    requires forall i :: 0 <= i < |keys| ==> keys[i] in m
    ensures |s| == |keys| && forall i :: 0 <= i < |keys| ==> s[i] == m[keys[i]]
  {
    seq(|keys|, i requires 0 <= i < |keys| => m[keys[i]])
  }

  /** The values of a map in increasing order of their keys. */
  function InOrder<T(!new)>(m: map<int, T>): (s: seq<T>)
    ensures |s| == |m|
  {
    var keys := Ascending(m.Keys);
    assert forall i :: 0 <= i < |keys| ==> keys[i] in m.Keys;
    At(m, keys)
  }

  lemma InOrderValues<T(!new)>(m: map<int, T>)
    ensures forall k :: k in m ==> m[k] in InOrder(m)
    ensures forall i :: 0 <= i < |m| ==> exists k :: k in m && m[k] == InOrder(m)[i]
  {
    var keys := Ascending(m.Keys);
    hide Ascending;
    assert forall i :: 0 <= i < |keys| ==> keys[i] in m.Keys;
    forall k | k in m ensures m[k] in InOrder(m) {
      assert k in keys;
    }
    forall i | 0 <= i < |m| ensures exists k :: k in m && m[k] == InOrder(m)[i] {
      assert keys[i] in m;
    }
  }

  function Candidates(samples: seq<(nat, MeasuredSample)>): (cs: seq<PopulationSample>)
    ensures |cs| == |samples|
    ensures forall i :: 0 <= i < |cs| ==> cs[i] == Candidate(samples[i].0, samples[i].1)
  {
    seq(|samples|, i requires 0 <= i < |samples| => Candidate(samples[i].0, samples[i].1))
  }

  method DeduplicateSamples(samples: seq<(nat, MeasuredSample)>) returns (population: seq<PopulationSample>)
    ensures population == InOrder(Survivors(Candidates(samples)))
  {
    var survivors: map<U64, PopulationSample> := map[];
    ghost var cs := Candidates(samples);
    for i := 0 to |samples|
      invariant survivors == Survivors(cs[..i])
    {
      var candidate := Candidate(samples[i].0, samples[i].1);
      assert cs[..i + 1][..i] == cs[..i];
      if candidate.vectorHash in survivors {
        if Earlier(candidate, survivors[candidate.vectorHash]) {
          survivors := survivors[candidate.vectorHash := candidate];
        }
      } else {
        survivors := survivors[candidate.vectorHash := candidate];
      }
    }
    assert cs[..|samples|] == cs;
    return InOrder(survivors);
  }

  /** `s` is the first of the candidates with its hash. */
  predicate IsFirst(s: PopulationSample, cs: seq<PopulationSample>) {
    s in cs && forall c :: c in cs && c.vectorHash == s.vectorHash ==> !Earlier(c, s)
  }

  /** Exactly one sample survives per vector hash: one with the least part and record ordinal. */
  lemma {:induction false} SurvivorsAreFirst(cs: seq<PopulationSample>)
    ensures forall c :: c in cs ==> c.vectorHash in Survivors(cs)
    ensures forall h :: h in Survivors(cs) ==> Survivors(cs)[h].vectorHash == h && IsFirst(Survivors(cs)[h], cs)
  {
    if cs != [] {
      var rest, c := cs[..|cs| - 1], cs[|cs| - 1];
      SurvivorsAreFirst(rest);
      assert cs == rest + [c];
      assert forall d :: d in cs <==> d in rest || d == c;
    }
  }

  /** A part and record ordinal identify one candidate. */
  predicate DistinctIdentities(cs: seq<PopulationSample>) {
    forall c, d :: c in cs && d in cs && c.partUlid == d.partUlid && c.recordIndex == d.recordIndex ==> c == d
  }

  /** Survival depends on which candidates there are, not on their order or repetition. */
  lemma DeduplicationIgnoresOrder(cs: seq<PopulationSample>, cs': seq<PopulationSample>)
    requires DistinctIdentities(cs) && forall c :: c in cs <==> c in cs'
    ensures Survivors(cs) == Survivors(cs')
  {
    SurvivorsAreFirst(cs);
    SurvivorsAreFirst(cs');
    hide Survivors;
    var m, m' := Survivors(cs), Survivors(cs');
    forall h | h in m ensures h in m' && m[h] == m'[h] {
      assert m[h] in cs';
      assert m'[h] in cs;
    }
    forall h | h in m' ensures h in m {
      assert m'[h] in cs;
    }
  }

  // ----- split -----

  const SPLIT_BUCKETS: nat := 10000

  /** Rounding to the nearest integer, halves away from zero. */
  function Round(x: real): int {
    if x >= 0.0 then (x + 0.5).Floor else -(0.5 - x).Floor
  }

  function SplitThreshold(trainFraction: real): Result<nat, MathError> {
    var rounded := Round(trainFraction * SPLIT_BUCKETS as real);
    if !(1 <= rounded <= 9999) then Err(InvalidTrainFraction) else Ok(rounded)
  }

  function SplitKey(splitSeed: U64, vectorHash: U64): seq<Byte> {
    Text("s:") + Timestamp.Pad(splitSeed, 1) + Text(":") + Timestamp.Pad(vectorHash, 1)
  }

  function IsTrainMember(vectorHash: U64, splitSeed: U64, trainFraction: real): Result<bool, MathError> {
    var threshold :- SplitThreshold(trainFraction);
    Ok(Fnv1a64(SplitKey(splitSeed, vectorHash)) % SPLIT_BUCKETS < threshold)
  }

  function Side(population: seq<PopulationSample>, config: AggregationConfig, train: bool): (s: seq<PopulationSample>)
    ensures forall x :: x in s <==>
      x in population && IsTrainMember(x.vectorHash, config.splitSeed, config.trainFraction) == Ok(train)
    ensures |s| <= |population|
  {
    if population == [] then []
    else
      var rest := Side(population[1..], config, train);
      if IsTrainMember(population[0].vectorHash, config.splitSeed, config.trainFraction) == Ok(train)
      then [population[0]] + rest else rest
  }

  lemma RoundIsNearest(x: real)
    requires x >= 0.0
    ensures -0.5 < Round(x) as real - x <= 0.5
  {
  }

  /** The split puts the lowest of the 10000 buckets on the train side, for every vector as many: the
      configured fraction of them, rounded, which must be neither none nor all. */
  lemma TrainBuckets(splitSeed: U64, trainFraction: real) returns (buckets: nat)
    ensures var some := 0.5 <= trainFraction * 10000.0 < 9999.5;
            && (some ==> 1 <= buckets <= 9999 && -0.5 < buckets as real - trainFraction * 10000.0 <= 0.5)
            && (forall h: U64 :: IsTrainMember(h, splitSeed, trainFraction)
                 == if some then Ok(Fnv1a64(SplitKey(splitSeed, h)) % 10000 < buckets) else Err(InvalidTrainFraction))
  {
    hide Fnv1a64, SplitKey;
    var x := trainFraction * 10000.0;
    if x >= 0.0 {
      RoundIsNearest(x);
      buckets := Round(x);
    } else {
      assert Round(x) <= 0;
      buckets := 0;
    }
  }

  /** Training on more keeps every vector on the train side that was there. */
  lemma LargerTrainKeeps(vectorHash: U64, splitSeed: U64, fraction: real, larger: real)
    requires fraction <= larger && IsTrainMember(vectorHash, splitSeed, larger).Ok?
    requires IsTrainMember(vectorHash, splitSeed, fraction) == Ok(true)
    ensures IsTrainMember(vectorHash, splitSeed, larger) == Ok(true)
  {
    hide Fnv1a64, SplitKey;
    assert Round(fraction * 10000.0) <= Round(larger * 10000.0);
  }

  /** Every survivor is on exactly one side. */
  lemma {:induction false} SidesPartition(population: seq<PopulationSample>, config: AggregationConfig)
    requires SplitThreshold(config.trainFraction).Ok?
    ensures |Side(population, config, true)| + |Side(population, config, false)| == |population|
    ensures multiset(Side(population, config, true)) + multiset(Side(population, config, false)) == multiset(population)
  {
    hide SplitThreshold, Fnv1a64, SplitKey;
    if population != [] {
      SidesPartition(population[1..], config);
      assert population == [population[0]] + population[1..];
      assert IsTrainMember(population[0].vectorHash, config.splitSeed, config.trainFraction).Ok?;
      hide IsTrainMember;
    }
  }

  /** A vector is trained on in all rounds or held out in all rounds, whichever of its copies
      survived deduplication there. */
  lemma SidesNeverMix(cs: seq<PopulationSample>, cs': seq<PopulationSample>, config: AggregationConfig,
                      a: PopulationSample, b: PopulationSample)
    requires a in Side(InOrder(Survivors(cs)), config, true)
    requires b in Side(InOrder(Survivors(cs')), config, false)
    ensures a.vectorHash != b.vectorHash
    ensures a in cs && b in cs'
  {
    SurvivorsAreFirst(cs);
    SurvivorsAreFirst(cs');
    InOrderValues(Survivors(cs));
    InOrderValues(Survivors(cs'));
    hide Survivors, IsTrainMember, InOrder;
  }

  // ----- validation and summaries -----

  predicate ValidObservation(o: SweepMeasurement) { 0.0 <= o.recall <= 1.0 && o.latencyMs >= 0.0 }

  function ValidateSweeps(s: PopulationSample, efGrid: seq<int>): (r: Result<(), AggregateError>)
    ensures r.Ok? <==> forall ef :: ef in efGrid ==> ef in s.sweeps && ValidObservation(s.sweeps[ef])
  {
    if efGrid == [] then Ok(())
    else
      assert efGrid == [efGrid[0]] + efGrid[1..];
      if efGrid[0] !in s.sweeps then Err(MissingSweep(s.partUlid, s.recordIndex, efGrid[0]))
      else if !ValidObservation(s.sweeps[efGrid[0]]) then
        Err(InvalidObservation(s.partUlid, s.recordIndex, efGrid[0]))
      else ValidateSweeps(s, efGrid[1..])
  }

  predicate ValidSample(s: PopulationSample, efGrid: seq<int>) {
    s.groundTruthLatencyMs >= 0.0 && ValidateSweeps(s, efGrid).Ok?
  }

  function ValidatePopulation(population: seq<PopulationSample>, efGrid: seq<int>): (r: Result<(), AggregateError>)
    ensures r.Ok? <==> forall s :: s in population ==> ValidSample(s, efGrid)
  {
    if population == [] then Ok(())
    else
      var s := population[0];
      assert forall x :: x in population <==> x == s || x in population[1..];
      assert ValidSample(s, efGrid) ==> s.groundTruthLatencyMs >= 0.0 && ValidateSweeps(s, efGrid).Ok?;
      if s.groundTruthLatencyMs < 0.0 then Err(InvalidGroundTruthLatency(s.partUlid, s.recordIndex))
      else
        var _ :- ValidateSweeps(s, efGrid);
        ValidatePopulation(population[1..], efGrid)
  }

  function Sum(values: seq<real>): real {
    if values == [] then 0.0 else Sum(values[..|values| - 1]) + values[|values| - 1]
  }

  function Mean(values: seq<real>): real
    requires values != []
  {
    Sum(values) / |values| as real
  }

  predicate Swept(population: seq<PopulationSample>, efGrid: seq<int>) {
    forall s, ef :: s in population && ef in efGrid ==> ef in s.sweeps && 0.0 <= s.sweeps[ef].recall <= 1.0
  }

  lemma ValidIsSwept(population: seq<PopulationSample>, efGrid: seq<int>)
    requires ValidatePopulation(population, efGrid).Ok?
    ensures Swept(population, efGrid)
  {
    forall s, ef | s in population && ef in efGrid ensures ef in s.sweeps && 0.0 <= s.sweeps[ef].recall <= 1.0 {
      assert ValidSample(s, efGrid);
    }
  }

  function Recalls(population: seq<PopulationSample>, ef: int): (r: seq<real>)
    requires forall s :: s in population ==> ef in s.sweeps
    ensures |r| == |population| && forall i :: 0 <= i < |r| ==> r[i] == population[i].sweeps[ef].recall
  {
    seq(|population|, i requires 0 <= i < |population| => population[i].sweeps[ef].recall)
  }

  function Latencies(population: seq<PopulationSample>, ef: int): seq<real>
    requires forall s :: s in population ==> ef in s.sweeps
  {
    seq(|population|, i requires 0 <= i < |population| => population[i].sweeps[ef].latencyMs)
  }

  function Summaries(population: seq<PopulationSample>, efGrid: seq<int>,
                     q: real): Result<seq<PerEfSummary>, AggregateError>
    requires population != [] && Swept(population, efGrid)
  {
    if efGrid == [] then Ok([])
    else
      var ef := efGrid[0];
      assert forall s :: s in population ==> ef in efGrid && ef in s.sweeps;
      var recalls := Recalls(population, ef);
      var quantile :- FromMath(QuantileType7(recalls, q));
      assert forall e :: e in efGrid[1..] ==> e in efGrid;
      var rest :- Summaries(population, efGrid[1..], q);
      Ok([PerEfSummary(ef, quantile, Mean(recalls), Mean(Latencies(population, ef)))] + rest)
  }

  function PerEfSummaries(population: seq<PopulationSample>,
                          config: AggregationConfig): Result<seq<PerEfSummary>, AggregateError>
    requires Swept(population, config.efGrid)
  {
    if population == [] then Ok([]) else Summaries(population, config.efGrid, 1.0 - config.percentile)
  }

  // ----- selection on train, validation on holdout -----

  datatype SplitEvaluation = SplitEvaluation(confidence: real, compliance: real, quantile: real)

  function EvaluateSplit(config: AggregationConfig, samples: seq<PopulationSample>,
                         ef: int): Result<SplitEvaluation, AggregateError>
    requires forall s :: s in samples ==> ef in s.sweeps
  {
    var recalls := Recalls(samples, ef);
    var successes := CountClearing(recalls, config.value);
    var confidence :- FromMath(ComplianceConfidence(|samples|, successes, config.percentile));
    var quantile :- FromMath(QuantileType7(recalls, 1.0 - config.percentile));
    Ok(SplitEvaluation(confidence, successes as real / |samples| as real, quantile))
  }

  datatype CompletedSelection = CompletedSelection(
    recommendedEf: int, status: RoundStatus, trainConfidence: real, trainCompliance: real, trainQuantile: real,
    confidence: real, testCompliance: real, testQuantile: real)

  function Score(config: AggregationConfig, samples: seq<PopulationSample>, ef: int): real
    requires Probability(config.percentile) && forall s :: s in samples ==> ef in s.sweeps
  {
    Confidence(|samples|, CountClearing(Recalls(samples, ef), config.value), config.percentile)
  }

  /** The train confidence of every ef of the grid. */
  function Scores(config: AggregationConfig, train: seq<PopulationSample>): Result<map<int, real>, AggregateError>
    requires Swept(train, config.efGrid)
  {
    if config.efGrid != [] && !Probability(config.percentile) then Err(Math(InvalidConfidenceInput))
    else Ok(map ef | ef in config.efGrid :: Score(config, train, ef))
  }

  function SelectAndValidate(config: AggregationConfig, train: seq<PopulationSample>, test: seq<PopulationSample>):
      Result<CompletedSelection, AggregateError>
    requires Swept(train, config.efGrid) && Swept(test, config.efGrid)
  {
    var scores :- Scores(config, train);
    var selected :- FromMath(SelectEf(scores, config.selectionConfidence));
    LeastClearing(scores, config.selectionConfidence);
    var ef := selected.recommendedEf;
    assert ef in config.efGrid;
    var onTrain :- EvaluateSplit(config, train, ef);
    var holdout :- EvaluateSplit(config, test, ef);
    Ok(CompletedSelection(ef, selected.status, onTrain.confidence, onTrain.compliance, onTrain.quantile,
                          holdout.confidence, holdout.compliance, holdout.quantile))
  }

  // ----- what selection promises -----

  predicate Selectable(config: AggregationConfig) {
    && config.efGrid != [] && Probability(config.percentile) && 0.0 < config.value <= 1.0
    && Probability(config.selectionConfidence) && Probability(config.approvalConfidence)
  }

  lemma ConfidenceAtMostCeiling(n: nat, m: nat, p: real)
    requires m <= n && Probability(p)
    ensures 0.0 < Confidence(n, m, p) <= Confidence(n, n, p) < 1.0
  {
    ConfidenceRange(n, m, p);
    ConfidenceRange(n, n, p);
    if m < n { ConfidenceGrowsWithSuccesses(n, m, n, p); }
  }

  lemma ScoreAtMostCeiling(config: AggregationConfig, samples: seq<PopulationSample>, ef: int)
    requires Probability(config.percentile) && forall s :: s in samples ==> ef in s.sweeps
    ensures 0.0 < Score(config, samples, ef) <= Confidence(|samples|, |samples|, config.percentile) < 1.0
  {
    ConfidenceAtMostCeiling(|samples|, CountClearing(Recalls(samples, ef), config.value), config.percentile);
  }

  /** On non-empty splits selection always completes, with the confidences of the selected ef. */
  lemma SelectionCompletes(config: AggregationConfig, train: seq<PopulationSample>, test: seq<PopulationSample>)
    requires Selectable(config) && train != [] && test != []
    requires Swept(train, config.efGrid) && Swept(test, config.efGrid)
    ensures SelectAndValidate(config, train, test).Ok?
    ensures var v := SelectAndValidate(config, train, test).value;
            && v.recommendedEf in config.efGrid
            && v.trainConfidence == Score(config, train, v.recommendedEf)
            && v.confidence == Score(config, test, v.recommendedEf)
            && SelectedBy(EfSelection(v.recommendedEf, v.status), Scores(config, train).value,
                          config.selectionConfidence)
            && v.trainCompliance
               == CountClearing(Recalls(train, v.recommendedEf), config.value) as real / |train| as real
            && v.testCompliance == CountClearing(Recalls(test, v.recommendedEf), config.value) as real / |test| as real
  {
    hide Recalls, CountClearing, QuantileType7, SelectEf, Maximum;
    var scores := Scores(config, train).value;
    assert config.efGrid[0] in scores;
    forall ef | ef in scores ensures 0.0 <= scores[ef] <= 1.0 {
      ScoreAtMostCeiling(config, train, ef);
    }
    LeastClearing(scores, config.selectionConfidence);
    var ef := SelectEf(scores, config.selectionConfidence).value.recommendedEf;
    QuantileCountsCompliance(Recalls(train, ef), 1.0 - config.percentile, config.value);
    QuantileCountsCompliance(Recalls(test, ef), 1.0 - config.percentile, config.value);
  }

  /** Demanding less confidence never raises the proposed ef. */
  lemma LessConfidenceNeverRaises(config: AggregationConfig, train: seq<PopulationSample>, test: seq<PopulationSample>,
                                  selectionConfidence: real)
    requires Selectable(config) && 0.0 < selectionConfidence <= config.selectionConfidence
    requires train != [] && test != [] && Swept(train, config.efGrid) && Swept(test, config.efGrid)
    ensures var relaxed := config.(selectionConfidence := selectionConfidence);
            && SelectAndValidate(config, train, test).Ok? && SelectAndValidate(relaxed, train, test).Ok?
            && SelectAndValidate(relaxed, train, test).value.recommendedEf
               <= SelectAndValidate(config, train, test).value.recommendedEf
  {
    hide SelectAndValidate, Confidence, SelectedBy;
    var relaxed := config.(selectionConfidence := selectionConfidence);
    SelectionCompletes(config, train, test);
    SelectionCompletes(relaxed, train, test);
    hide Recalls, CountClearing;
    var scores, v, v' := Scores(config, train).value, SelectAndValidate(config, train, test).value,
      SelectAndValidate(relaxed, train, test).value;
    assert scores == Scores(relaxed, train).value;
    assert config.efGrid[0] in scores;
    RelaxedSelection(EfSelection(v.recommendedEf, v.status), scores, config.selectionConfidence,
                     EfSelection(v'.recommendedEf, v'.status), scores, selectionConfidence);
  }

  // ----- insufficient samples -----

  /** Whether a round refuses to select, given the sizes of its sides. */
  function Insufficient(config: AggregationConfig, aborted: bool, train: nat, test: nat): Result<bool, AggregateError> {
    var trainCeiling :- FromMath(ComplianceConfidence(train, train, config.percentile));
    var testCeiling :- FromMath(ComplianceConfidence(test, test, config.percentile));
    Ok(aborted || train == 0 || test == 0
       || trainCeiling < config.selectionConfidence || testCeiling < config.approvalConfidence)
  }

  /** The same samples, possibly measured differently. */
  predicate SameSamples(s: seq<PopulationSample>, t: seq<PopulationSample>) {
    |s| == |t| && forall i :: 0 <= i < |s| ==> s[i].(sweeps := t[i].sweeps) == t[i]
  }

  predicate Approved(config: AggregationConfig, train: seq<PopulationSample>, test: seq<PopulationSample>)
    requires Swept(train, config.efGrid) && Swept(test, config.efGrid)
  {
    var r := SelectAndValidate(config, train, test);
    r.Ok? && r.value.status == StatusOk && r.value.confidence >= config.approvalConfidence
  }

  /** The recommendation these samples would have led to, had they been measured as `train` and
      `test`, is one the round would apply. */
  predicate Attains(config: AggregationConfig, train: seq<PopulationSample>, test: seq<PopulationSample>,
                    train': seq<PopulationSample>, test': seq<PopulationSample>) {
    && SameSamples(train, train') && SameSamples(test, test')
    && Swept(train', config.efGrid) && Swept(test', config.efGrid)
    && Approved(config, train', test')
  }

  /** The same samples with perfect recall at every ef. */
  function Perfect(samples: seq<PopulationSample>, efGrid: seq<int>): (r: seq<PopulationSample>)
    ensures SameSamples(samples, r) && Swept(r, efGrid)
    ensures forall i, ef :: 0 <= i < |r| && ef in efGrid ==> ef in r[i].sweeps && r[i].sweeps[ef].recall == 1.0
  {
    seq(|samples|, i requires 0 <= i < |samples| =>
      samples[i].(sweeps := map ef | ef in efGrid :: SweepMeasurement(1.0, 0.0)))
  }

  lemma {:induction false} AllClear(recalls: seq<real>, value: real)
    requires value <= 1.0 && forall i :: 0 <= i < |recalls| ==> recalls[i] == 1.0
    ensures CountClearing(recalls, value) == |recalls|
  {
    if recalls != [] { AllClear(recalls[1..], value); }
  }

  lemma PerfectScore(config: AggregationConfig, samples: seq<PopulationSample>, ef: int)
    requires Selectable(config) && ef in config.efGrid
    ensures Score(config, Perfect(samples, config.efGrid), ef) == Confidence(|samples|, |samples|, config.percentile)
  {
    var perfect := Perfect(samples, config.efGrid);
    AllClear(Recalls(perfect, ef), config.value);
  }

  /** A round is refused as insufficient exactly when no recalls its samples could have had would
      have led to an applied recommendation. */
  lemma InsufficientMeansUnattainable(config: AggregationConfig, train: seq<PopulationSample>,
                                      test: seq<PopulationSample>)
    requires Selectable(config) && train != [] && test != []
    ensures Insufficient(config, false, |train|, |test|).Ok?
    ensures Insufficient(config, false, |train|, |test|).value
            <==> forall train', test' :: !Attains(config, train, test, train', test')
  {
    if Insufficient(config, false, |train|, |test|).value {
      forall train', test' ensures !Attains(config, train, test, train', test') {
        TooFewSamples(config, train, test, train', test');
      }
    } else {
      EnoughSamples(config, train, test);
    }
  }

  lemma TooFewSamples(config: AggregationConfig, train: seq<PopulationSample>, test: seq<PopulationSample>,
                      train': seq<PopulationSample>, test': seq<PopulationSample>)
    requires Selectable(config) && train != [] && test != []
    requires Insufficient(config, false, |train|, |test|).value
    ensures !Attains(config, train, test, train', test')
  {
    hide SelectAndValidate, Maximum, Score, Tail;
    if SameSamples(train, train') && SameSamples(test, test') && Swept(train', config.efGrid)
      && Swept(test', config.efGrid) {
      SelectionCompletes(config, train', test');
      var v := SelectAndValidate(config, train', test').value;
      var ef, scores := v.recommendedEf, Scores(config, train').value;
      ScoreAtMostCeiling(config, train', ef);
      ScoreAtMostCeiling(config, test', ef);
      assert scores[ef] == Score(config, train', ef);
    }
  }

  lemma EnoughSamples(config: AggregationConfig, train: seq<PopulationSample>, test: seq<PopulationSample>)
    requires Selectable(config) && train != [] && test != []
    requires !Insufficient(config, false, |train|, |test|).value
    ensures Attains(config, train, test, Perfect(train, config.efGrid), Perfect(test, config.efGrid))
  {
    var train', test' := Perfect(train, config.efGrid), Perfect(test, config.efGrid);
    SelectionCompletes(config, train', test');
    var v := SelectAndValidate(config, train', test').value;
    PerfectScore(config, test, v.recommendedEf);
    var scores := Scores(config, train').value;
    assert config.efGrid[0] in scores;
    PerfectScore(config, train, Maximum(scores));
    hide Recalls, CountClearing, SelectAndValidate, Maximum, SameSamples, Swept, Tail;
  }
}
