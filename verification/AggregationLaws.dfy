/** What a published round says about its inputs, and which inputs it does not depend on. */
module AggregationLaws {
  import opened Wrappers
  import opened Bytes
  import opened Model
  import opened Ordered
  import opened Posterior
  import opened Selection
  import opened Population
  import opened Accounting
  import opened Aggregation
  import Timestamp

  // ----- status -----

  predicate LeastClearingOn(config: AggregationConfig, train: seq<PopulationSample>, ef: int)
    requires Probability(config.percentile) && Swept(train, config.efGrid)
  {
    && ef in config.efGrid && Score(config, train, ef) >= config.selectionConfidence
    && forall e :: e in config.efGrid && e < ef ==> Score(config, train, e) < config.selectionConfidence
  }

  predicate MaximumFails(config: AggregationConfig, train: seq<PopulationSample>, ef: int)
    requires Probability(config.percentile) && Swept(train, config.efGrid)
  {
    && ef in config.efGrid && Score(config, train, ef) < config.selectionConfidence
    && forall e :: e in config.efGrid ==> e <= ef
  }

  lemma GridMaximum(config: AggregationConfig, scores: map<int, real>)
    requires config.efGrid != [] && StrictlyAscending(config.efGrid)
    requires forall e :: e in scores <==> e in config.efGrid
    ensures scores != map[] && Maximum(scores) == config.efGrid[|config.efGrid| - 1]
  {
    var last := config.efGrid[|config.efGrid| - 1];
    assert last in config.efGrid;
    assert last in scores;
    var m := Maximum(scores);
    assert IsMaximum(m, scores);
    hide Maximum, Ascending;
    var i :| 0 <= i < |config.efGrid| && config.efGrid[i] == m;
  }

  /** The decision `d` was taken on its whole population, split by hash. */
  predicate Decided(config: AggregationConfig, aborted: bool, d: Decision) {
    && Selectable(config) && StrictlyAscending(config.efGrid)
    && d.train == Side(d.population, config, true) && d.test == Side(d.population, config, false)
    && Swept(d.train, config.efGrid) && Swept(d.test, config.efGrid)
    && Insufficient(config, aborted, |d.train|, |d.test|) == Ok(d.selection.None?)
    && (d.selection.Some? ==> SelectAndValidate(config, d.train, d.test) == Ok(d.selection.value))
  }

  lemma DecideDecided(config: AggregationConfig, aborted: bool, population: seq<PopulationSample>)
    requires Selectable(config) && StrictlyAscending(config.efGrid) && Decide(config, aborted, population).Ok?
    ensures Decided(config, aborted, Decide(config, aborted, population).value)
    ensures Decide(config, aborted, population).value.population == population
  {
    hide SelectAndValidate, Insufficient, PerEfSummaries, SplitThreshold, IsTrainMember;
    ValidIsSwept(population, config.efGrid);
  }

  lemma ComputedDecision(input: AggregationInput)
    requires Compute(input).Ok?
    ensures var r := Compute(input).value;
            && Decided(input.config, input.phaseAAbort.Some?, r.decision)
            && r.decision.population == PopulationOf(r.tally.used)
  {
    hide PopulationOf, TallyParts, DistinctIntermediates, Account, Decided, Decide, SplitThreshold;
    DecideDecided(input.config, input.phaseAAbort.Some?, PopulationOf(Compute(input).value.tally.used));
  }

  /** What the published status and ef say about the samples: insufficient exactly when the round
      was aborted, a side is empty or no recalls of its samples would have sufficed; otherwise the
      least clearing ef, or the maximum when that one does not clear. */
  ghost predicate Justified(config: AggregationConfig, aborted: bool, train: seq<PopulationSample>,
                            test: seq<PopulationSample>,
                      status: RoundStatus, recommendedEf: Option<int>)
    requires Selectable(config) && Swept(train, config.efGrid)
  {
    && (status == InsufficientSamples <==>
         aborted || train == [] || test == [] || Unattainable(config, train, test))
    && (status == InsufficientSamples <==> recommendedEf == None)
    && (status == StatusOk ==> recommendedEf.Some? && LeastClearingOn(config, train, recommendedEf.value))
    && (status == TargetUnmet ==> recommendedEf.Some? && MaximumFails(config, train, recommendedEf.value))
  }

  ghost predicate Unattainable(config: AggregationConfig, train: seq<PopulationSample>, test: seq<PopulationSample>) {
    forall train', test' :: !Attains(config, train, test, train', test')
  }

  lemma StatusCases(config: AggregationConfig, train: seq<PopulationSample>, v: CompletedSelection)
    requires Selectable(config) && StrictlyAscending(config.efGrid) && Swept(train, config.efGrid)
    requires var scores := Scores(config, train).value;
             scores != map[] && SelectedBy(EfSelection(v.recommendedEf, v.status), scores, config.selectionConfidence)
    ensures v.status != InsufficientSamples
    ensures v.status == StatusOk ==> LeastClearingOn(config, train, v.recommendedEf)
    ensures v.status == TargetUnmet ==> MaximumFails(config, train, v.recommendedEf)
  {
    var scores := Scores(config, train).value;
    GridMaximum(config, scores);
    hide Score, Maximum, Swept;
    assert forall e :: e in config.efGrid ==> e in scores && scores[e] == Score(config, train, e);
  }

  lemma RefusedExactly(config: AggregationConfig, aborted: bool, d: Decision)
    requires Decided(config, aborted, d)
    ensures d.selection.None? <==> aborted || d.train == [] || d.test == [] || Unattainable(config, d.train, d.test)
  {
    hide SelectAndValidate, Attains, Score, Side, Swept;
    if d.train != [] && d.test != [] {
      InsufficientMeansUnattainable(config, d.train, d.test);
    }
  }

  lemma SelectedJustified(config: AggregationConfig, aborted: bool, d: Decision)
    requires Decided(config, aborted, d) && d.selection.Some?
    ensures d.selection.value.status != InsufficientSamples
    ensures d.selection.value.status == StatusOk ==> LeastClearingOn(config, d.train, d.selection.value.recommendedEf)
    ensures d.selection.value.status == TargetUnmet ==> MaximumFails(config, d.train, d.selection.value.recommendedEf)
  {
    hide SelectAndValidate, Score, Side, SelectedBy;
    SelectionCompletes(config, d.train, d.test);
    assert config.efGrid[0] in Scores(config, d.train).value;
    StatusCases(config, d.train, d.selection.value);
  }

  lemma DecisionJustified(config: AggregationConfig, aborted: bool, d: Decision)
    requires Decided(config, aborted, d)
    ensures Justified(config, aborted, d.train, d.test,
                      if d.selection.Some? then d.selection.value.status else InsufficientSamples,
                      if d.selection.Some? then Some(d.selection.value.recommendedEf) else None)
  {
    hide SelectAndValidate, Unattainable, Side, LeastClearingOn, MaximumFails, Insufficient, Swept;
    RefusedExactly(config, aborted, d);
    if d.selection.Some? { SelectedJustified(config, aborted, d); }
  }

  /** Every published status is justified by the round's own samples. */
  lemma StatusMeaning(input: AggregationInput)
    requires Compute(input).Ok?
    ensures var d, out := Compute(input).value.decision, Aggregate(input).value;
            && Decided(input.config, input.phaseAAbort.Some?, d)
            && Justified(input.config, input.phaseAAbort.Some?, d.train, d.test, out.status, out.recommendedEf)
  {
    ComputedDecision(input);
    DecisionJustified(input.config, input.phaseAAbort.Some?, Compute(input).value.decision);
    hide Compute, Decided, Justified, Effective, Latency, WindowOf;
  }

  // ----- what the record does not depend on -----

  lemma ListedIgnoresOrder(parts: seq<ListedPart>, parts': seq<ListedPart>, lower: nat, roundEnd: nat)
    requires InScopeParts(parts, lower, roundEnd).Ok? && forall p :: p in parts <==> p in parts'
    ensures InScopeParts(parts', lower, roundEnd) == InScopeParts(parts, lower, roundEnd)
  {
    var s, s' := ListedSteps(parts, lower, roundEnd), ListedSteps(parts', lower, roundEnd);
    hide Gather, ListedStep;
    forall x ensures x in s <==> x in s' {
      if x in s {
        var i :| 0 <= i < |s| && s[i] == x;
        assert parts[i] in parts;
        var j :| 0 <= j < |parts'| && parts'[j] == parts[i];
        assert s'[j] == x;
      }
      if x in s' {
        var i :| 0 <= i < |s'| && s'[i] == x;
        assert parts'[i] in parts';
        var j :| 0 <= j < |parts| && parts[j] == parts'[i];
        assert s[j] == x;
      }
    }
    GatherIgnoresOrder(s, s');
  }

  lemma IntermediatesIgnoreOrder(parts: seq<IntermediatePart>, parts': seq<IntermediatePart>)
    requires DistinctIntermediates(parts).Ok? && forall p :: p in parts <==> p in parts'
    ensures DistinctIntermediates(parts') == DistinctIntermediates(parts)
  {
    var s, s' := IntermediateSteps(parts), IntermediateSteps(parts');
    hide Gather, IntermediateStep;
    forall x ensures x in s <==> x in s' {
      if x in s {
        var i :| 0 <= i < |s| && s[i] == x;
        assert parts[i] in parts;
        var j :| 0 <= j < |parts'| && parts'[j] == parts[i];
        assert s'[j] == x;
      }
      if x in s' {
        var i :| 0 <= i < |s'| && s'[i] == x;
        assert parts'[i] in parts';
        var j :| 0 <= j < |parts| && parts[j] == parts'[i];
        assert s[j] == x;
      }
    }
    GatherIgnoresOrder(s, s');
  }

  /** Permuting or repeating listed parts and stored pairs leaves a successful round unchanged. */
  lemma AggregationIgnoresOrder(input: AggregationInput, listed': seq<ListedPart>,
                                intermediates': seq<IntermediatePart>)
    requires Aggregate(input).Ok?
    requires forall p :: p in input.listedParts <==> p in listed'
    requires forall p :: p in input.intermediates <==> p in intermediates'
    ensures Aggregate(input.(listedParts := listed', intermediates := intermediates')) == Aggregate(input)
  {
    hide InScopeParts, DistinctIntermediates, WindowStarts, Available, DroppedFraction, CoverageOf, InOrder, TallyParts,
         Decide, PopulationOf, ValidateConfig, Publish;
    var lower := input.roundEnd - input.config.windowDuration;
    ListedIgnoresOrder(input.listedParts, listed', lower, input.roundEnd);
    IntermediatesIgnoreOrder(input.intermediates, intermediates');
    PublishIgnoresParts(input, listed', intermediates', Compute(input).value);
  }

  lemma PublishIgnoresParts(input: AggregationInput, listed': seq<ListedPart>, intermediates': seq<IntermediatePart>,
                            r: Round)
    requires input.config.windowDuration <= input.roundEnd
    ensures Publish(input.(listedParts := listed', intermediates := intermediates'), r.accounts, r.tally, r.decision)
         == Publish(input, r.accounts, r.tally, r.decision)
  {
    hide Effective, Latency, WindowOf, TargetOf, PreviousEffective;
  }

  /** A pair without the moment it was measured. */
  function Timeless(p: IntermediatePart): IntermediatePart {
    p.(metadata := p.metadata.(computedAtUs := 0))
  }

  predicate Alike(s: seq<IntermediatePart>, t: seq<IntermediatePart>) {
    |s| == |t| && forall i :: 0 <= i < |s| ==> Timeless(s[i]) == Timeless(t[i])
  }

  predicate KeyedByUlid(m: map<nat, IntermediatePart>) {
    forall u :: u in m ==> m[u].metadata.partUlid == u
  }

  lemma KeyedEntries(m: map<nat, IntermediatePart>)
    requires KeyedByUlid(m)
    ensures forall i :: 0 <= i < |m| ==>
      InOrder(m)[i].metadata.partUlid in m && m[InOrder(m)[i].metadata.partUlid] == InOrder(m)[i]
  {
    InOrderValues(m);
    hide InOrder;
    forall i | 0 <= i < |m|
      ensures InOrder(m)[i].metadata.partUlid in m && m[InOrder(m)[i].metadata.partUlid] == InOrder(m)[i]
    {
      var k :| k in m && m[k] == InOrder(m)[i];
    }
  }

  lemma KeyedAdmissible(parts: seq<IntermediatePart>, m: map<nat, IntermediatePart>)
    requires forall i :: 0 <= i < |parts| ==>
             parts[i].metadata.partUlid in m && m[parts[i].metadata.partUlid] == parts[i]
    ensures Admissible(IntermediateSteps(parts))
  {
  }

  lemma GatheredParts(parts: seq<IntermediatePart>)
    requires DistinctIntermediates(parts).Ok?
    ensures var g := DistinctIntermediates(parts).value;
            && (forall i :: 0 <= i < |parts| ==>
                parts[i].metadata.partUlid in g && g[parts[i].metadata.partUlid] == parts[i])
            && (forall u :: u in g ==> exists i :: 0 <= i < |parts| && parts[i].metadata.partUlid == u)
  {
    var steps := IntermediateSteps(parts);
    GatherExact(steps);
    hide Gather;
    forall i | 0 <= i < |parts| ensures steps[i] in steps && steps[i].Entry? {}
    forall u | u in Gather(steps).value ensures exists i :: 0 <= i < |parts| && parts[i].metadata.partUlid == u {
      var s :| s in steps && s.Entry? && s.partUlid == u;
      var i :| 0 <= i < |steps| && steps[i] == s;
      assert parts[i].metadata.partUlid == u;
    }
  }

  /** Pairs that each have their own ULID are gathered as they are. */
  lemma GatherKeyed(m: map<nat, IntermediatePart>)
    requires KeyedByUlid(m)
    ensures DistinctIntermediates(InOrder(m)) == Ok(m)
  {
    var parts := InOrder(m);
    KeyedEntries(m);
    KeyedAdmissible(parts, m);
    GatherExact(IntermediateSteps(parts));
    GatheredParts(parts);
    InOrderValues(m);
    hide InOrder, DistinctIntermediates, Admissible;
    SameMap(m, DistinctIntermediates(parts).value, parts);
  }

  lemma SameMap(m: map<nat, IntermediatePart>, g: map<nat, IntermediatePart>, parts: seq<IntermediatePart>)
    requires forall i :: 0 <= i < |parts| ==>
             parts[i].metadata.partUlid in m && m[parts[i].metadata.partUlid] == parts[i]
    requires forall i :: 0 <= i < |parts| ==>
             parts[i].metadata.partUlid in g && g[parts[i].metadata.partUlid] == parts[i]
    requires forall u :: u in g ==> exists i :: 0 <= i < |parts| && parts[i].metadata.partUlid == u
    requires forall u :: u in m ==> m[u] in parts && m[u].metadata.partUlid == u
    ensures g == m
  {
    forall u | u in m ensures u in g && g[u] == m[u] {
      var i :| 0 <= i < |parts| && parts[i] == m[u];
    }
    forall u | u in g ensures u in m {
      var i :| 0 <= i < |parts| && parts[i].metadata.partUlid == u;
    }
  }

  lemma InOrderAlike(m: map<nat, IntermediatePart>, m': map<nat, IntermediatePart>)
    requires m.Keys == m'.Keys && forall u :: u in m ==> Timeless(m[u]) == Timeless(m'[u])
    ensures Alike(InOrder(m), InOrder(m'))
  {
    hide Ascending;
    assert |m.Keys| == |m| && |m'.Keys| == |m'|;
  }

  predicate TallyAlike(t: Tally, t': Tally) {
    Alike(t.used, t'.used) && t.(used := []) == t'.(used := [])
  }

  lemma {:induction false} TallyIgnoresTime(config: AggregationConfig, listed: map<nat, ListedPart>, n: nat,
                                            s: seq<IntermediatePart>, t: seq<IntermediatePart>)
    requires Alike(s, t)
    ensures TallyParts(config, listed, n, s).Ok? ==>
            (TallyParts(config, listed, n, t).Ok?
             && TallyAlike(TallyParts(config, listed, n, s).value, TallyParts(config, listed, n, t).value))
    ensures TallyParts(config, listed, n, s).Err? ==>
            TallyParts(config, listed, n, t) == TallyParts(config, listed, n, s)
  {
    if s != [] {
      var k := |s| - 1;
      TallyIgnoresTime(config, listed, n, s[..k], t[..k]);
      assert Timeless(s[k]) == Timeless(t[k]);
    }
  }

  lemma {:induction false} SamplesIgnoreTime(s: seq<IntermediatePart>, t: seq<IntermediatePart>)
    requires Alike(s, t)
    ensures SamplesOf(s) == SamplesOf(t)
  {
    if s != [] {
      var k := |s| - 1;
      SamplesIgnoreTime(s[..k], t[..k]);
      assert Timeless(s[k]) == Timeless(t[k]);
    }
  }

  /** What a round does once its inputs are gathered. */
  function Remainder(input: AggregationInput, accounts: Accounts,
                     parts: seq<IntermediatePart>): Result<RoundOutput, AggregateError>
    requires input.config.windowDuration <= input.roundEnd
  {
    var tally :- TallyParts(input.config, accounts.listed, input.phaseAIncompatibleParts, parts);
    var decision :- Decide(input.config, input.phaseAAbort.Some?, PopulationOf(tally.used));
    Ok(Publish(input, accounts, tally, decision))
  }

  predicate Startable(input: AggregationInput) {
    ValidateConfig(input.config).Ok? && Account(input.config, input.roundEnd, input.listedParts).Ok?
  }

  lemma AggregateIs(input: AggregationInput, m: map<nat, IntermediatePart>)
    requires DistinctIntermediates(input.intermediates) == Ok(m)
    ensures Startable(input) ==>
      (input.config.windowDuration <= input.roundEnd
       && Aggregate(input) == Remainder(input, Account(input.config, input.roundEnd, input.listedParts).value,
                                        InOrder(m)))
    ensures !Startable(input) ==>
      Aggregate(input) == (if ValidateConfig(input.config).Err? then Err(ValidateConfig(input.config).error)
                           else Err(Account(input.config, input.roundEnd, input.listedParts).error))
  {
    hide InScopeParts, Available, DroppedFraction, CoverageOf, TallyParts, Decide, PopulationOf, InOrder,
         DistinctIntermediates,
         Publish, ValidateConfig;
  }

  lemma RemainderAlike(input: AggregationInput, input': AggregationInput, accounts: Accounts,
                       s: seq<IntermediatePart>, t: seq<IntermediatePart>)
    requires input.config.windowDuration <= input.roundEnd && Alike(s, t)
    requires input' == input.(intermediates := input'.intermediates)
    ensures Remainder(input, accounts, s) == Remainder(input', accounts, t)
  {
    var n := input.phaseAIncompatibleParts;
    TallyIgnoresTime(input.config, accounts.listed, n, s, t);
    var tally, tally' := TallyParts(input.config, accounts.listed, n, s),
      TallyParts(input.config, accounts.listed, n, t);
    hide TallyParts, Decide, Survivors, Publish;
    if tally.Ok? {
      SamplesIgnoreTime(tally.value.used, tally'.value.used);
      var decision := Decide(input.config, input.phaseAAbort.Some?, PopulationOf(tally.value.used));
      if decision.Ok? { PublishAlike(input, input', accounts, tally.value, tally'.value, decision.value); }
    }
  }

  /** When each pair was measured leaves no trace in the record. */
  lemma AggregationIgnoresMeasureTime(input: AggregationInput, m: map<nat, IntermediatePart>,
                                      m': map<nat, IntermediatePart>)
    requires KeyedByUlid(m) && m.Keys == m'.Keys && forall u :: u in m ==> Timeless(m[u]) == Timeless(m'[u])
    ensures Aggregate(input.(intermediates := InOrder(m))) == Aggregate(input.(intermediates := InOrder(m')))
  {
    assert KeyedByUlid(m') by {
      assert forall u :: u in m' ==> Timeless(m[u]).metadata.partUlid == Timeless(m'[u]).metadata.partUlid;
    }
    GatherKeyed(m);
    GatherKeyed(m');
    InOrderAlike(m, m');
    var input1, input2 := input.(intermediates := InOrder(m)), input.(intermediates := InOrder(m'));
    hide InOrder, DistinctIntermediates, Alike, Account, ValidateConfig, Aggregate, Remainder;
    AggregateIs(input1, m);
    AggregateIs(input2, m');
    if Startable(input1) {
      RemainderAlike(input1, input2, Account(input.config, input.roundEnd, input.listedParts).value, InOrder(m),
                     InOrder(m'));
    }
  }

  lemma PublishAlike(input: AggregationInput, input': AggregationInput, accounts: Accounts, t: Tally, t': Tally,
                     d: Decision)
    requires input.config.windowDuration <= input.roundEnd
    requires input' == input.(intermediates := input'.intermediates) && TallyAlike(t, t')
    ensures Publish(input, accounts, t, d) == Publish(input', accounts, t', d)
  {
    hide Effective, Latency, WindowOf, TargetOf, PreviousEffective;
  }

  lemma {:induction false} TallyShift(config: AggregationConfig, listed: map<nat, ListedPart>, n: nat, n': nat,
                                      parts: seq<IntermediatePart>)
    requires forall p :: p in parts ==> IsCompatible(config, p)
    ensures TallyParts(config, listed, n', parts)
         == match TallyParts(config, listed, n, parts) case Ok(t) => Ok(t.(incompatible := n')) case Err(e) => Err(e)
    ensures TallyParts(config, listed, n, parts).Ok? ==> TallyParts(config, listed, n, parts).value.incompatible == n
  {
    hide IsCompatible;
    if parts != [] {
      var k := |parts| - 1;
      TallyShift(config, listed, n, n', parts[..k]);
      assert parts[k] in parts;
      assert forall p :: p in parts[..k] ==> p in parts;
    }
  }

  /** With only compatible pairs, the published count of incompatible ones is the one handed in, and
      it influences nothing else. */
  lemma AggregationShift(input: AggregationInput, m: map<nat, IntermediatePart>, n: nat)
    requires KeyedByUlid(m) && input.intermediates == InOrder(m)
    requires forall u :: u in m ==> IsCompatible(input.config, m[u])
    ensures Aggregate(input.(phaseAIncompatibleParts := n))
         == match Aggregate(input) case Ok(out) => Ok(out.(incompatibleParts := n)) case Err(e) => Err(e)
    ensures Aggregate(input).Ok? ==> Aggregate(input).value.incompatibleParts == input.phaseAIncompatibleParts
  {
    hide InOrder, DistinctIntermediates, Account, ValidateConfig, IsCompatible, Aggregate, Remainder, KeyedByUlid;
    GatherKeyed(m);
    EntriesCompatible(m, input.config);
    var input' := input.(phaseAIncompatibleParts := n);
    AggregateIs(input, m);
    AggregateIs(input', m);
    if Startable(input) {
      RemainderShift(input, Account(input.config, input.roundEnd, input.listedParts).value, InOrder(m), n);
    }
  }

  lemma EntriesCompatible(m: map<nat, IntermediatePart>, config: AggregationConfig)
    requires forall u :: u in m ==> IsCompatible(config, m[u])
    ensures forall p :: p in InOrder(m) ==> IsCompatible(config, p)
  {
    InOrderValues(m);
    hide InOrder, IsCompatible;
    forall p | p in InOrder(m) ensures IsCompatible(config, p) {
      var i :| 0 <= i < |m| && InOrder(m)[i] == p;
    }
  }

  lemma RemainderShift(input: AggregationInput, accounts: Accounts, parts: seq<IntermediatePart>, n: nat)
    requires input.config.windowDuration <= input.roundEnd && forall p :: p in parts ==> IsCompatible(input.config, p)
    ensures Remainder(input.(phaseAIncompatibleParts := n), accounts, parts)
         == match Remainder(input, accounts, parts) case Ok(out) => Ok(out.(incompatibleParts := n))
           case Err(e) => Err(e)
    ensures Remainder(input, accounts, parts).Ok? ==>
            Remainder(input, accounts, parts).value.incompatibleParts == input.phaseAIncompatibleParts
  {
    TallyShift(input.config, accounts.listed, input.phaseAIncompatibleParts, n, parts);
    var tally := TallyParts(input.config, accounts.listed, input.phaseAIncompatibleParts, parts);
    hide TallyParts, Decide, PopulationOf, Publish;
    if tally.Ok? {
      var decision := Decide(input.config, input.phaseAAbort.Some?, PopulationOf(tally.value.used));
      if decision.Ok? { PublishShift(input, Round(accounts, tally.value, decision.value), n); }
    }
  }

  lemma PublishShift(input: AggregationInput, r: Round, n: nat)
    requires input.config.windowDuration <= input.roundEnd
    ensures Publish(input.(phaseAIncompatibleParts := n), r.accounts, r.tally.(incompatible := n), r.decision)
         == Publish(input, r.accounts, r.tally, r.decision).(incompatibleParts := n)
    ensures Publish(input, r.accounts, r.tally, r.decision).incompatibleParts == r.tally.incompatible
  {
    hide Effective, Latency, WindowOf, TargetOf, PreviousEffective;
  }

  // ----- the population -----

  /** The sample `m` of a population was measured as `s`, in a part of that ULID. */
  predicate MeasuredAs(m: PopulationSample, partUlid: nat, s: MeasuredSample) {
    && m.partUlid == partUlid && m.recordIndex == s.recordIndex && m.vectorHash == s.vectorHash
    && m.groundTruthLatencyMs == s.groundTruthLatencyMs && m.sweeps == s.sweeps
  }

  /** The parts hold this sample. */
  ghost predicate Holds(used: seq<IntermediatePart>, partUlid: nat, s: MeasuredSample) {
    exists p :: p in used && p.metadata.partUlid == partUlid && s in p.samples
  }

  lemma {:induction false} SamplesAreHeld(used: seq<IntermediatePart>, partUlid: nat, s: MeasuredSample)
    ensures (partUlid, s) in SamplesOf(used) <==> Holds(used, partUlid, s)
  {
    if used != [] {
      var rest, last := used[..|used| - 1], used[|used| - 1];
      SamplesAreHeld(rest, partUlid, s);
      assert used == rest + [last];
      var labelled := Labelled(last.metadata.partUlid, last.samples);
      if s in last.samples {
        var i :| 0 <= i < |last.samples| && last.samples[i] == s;
        assert labelled[i] == (last.metadata.partUlid, s);
      }
      assert forall p :: p in used <==> p in rest || p == last;
    }
  }

  /** A member of the population: measured in some used part, and no other copy of its vector comes before. */
  ghost predicate IsSurvivor(used: seq<IntermediatePart>, m: PopulationSample) {
    && (exists s :: Holds(used, m.partUlid, s) && MeasuredAs(m, m.partUlid, s))
    && forall u, s :: Holds(used, u, s) && s.vectorHash == m.vectorHash ==>
         m.partUlid < u || (m.partUlid == u && m.recordIndex <= s.recordIndex)
  }

  predicate DistinctHashes(population: seq<PopulationSample>) {
    forall i, j :: 0 <= i < j < |population| ==> population[i].vectorHash < population[j].vectorHash
  }

  /** The population has one member for every vector that a used part measured: the sample measured in the
      least part and record. Nothing else is in it. */
  lemma PopulationIsSurvivors(used: seq<IntermediatePart>)
    ensures forall m :: m in PopulationOf(used) ==> IsSurvivor(used, m)
    ensures forall u, s :: Holds(used, u, s) ==> exists m :: m in PopulationOf(used) && m.vectorHash == s.vectorHash
    ensures DistinctHashes(PopulationOf(used))
  {
    var samples := SamplesOf(used);
    var cs := Candidates(samples);
    var survivors := Survivors(cs);
    hide SamplesOf, Survivors, InOrder, Holds;
    SurvivorsAreFirst(cs);
    InOrderValues(survivors);
    forall m | m in PopulationOf(used) ensures IsSurvivor(used, m) {
      var h :| h in survivors && survivors[h] == m;
      FirstIsSurvivor(used, m);
    }
    forall u, s | Holds(used, u, s) ensures exists m :: m in PopulationOf(used) && m.vectorHash == s.vectorHash {
      HeldIsCandidate(used, u, s);
      assert survivors[s.vectorHash] in PopulationOf(used);
    }
    InHashOrder(survivors);
  }

  lemma HeldIsCandidate(used: seq<IntermediatePart>, u: nat, s: MeasuredSample)
    requires Holds(used, u, s)
    ensures Candidate(u, s) in Candidates(SamplesOf(used))
  {
    SamplesAreHeld(used, u, s);
    hide SamplesOf, Holds;
    var i :| 0 <= i < |SamplesOf(used)| && SamplesOf(used)[i] == (u, s);
    assert Candidates(SamplesOf(used))[i] == Candidate(u, s);
  }

  lemma FirstIsSurvivor(used: seq<IntermediatePart>, m: PopulationSample)
    requires IsFirst(m, Candidates(SamplesOf(used)))
    ensures IsSurvivor(used, m)
  {
    hide SamplesOf, Holds;
    var samples := SamplesOf(used);
    var i :| 0 <= i < |samples| && Candidates(samples)[i] == m;
    SamplesAreHeld(used, samples[i].0, samples[i].1);
    assert samples[i] in samples;
    assert Holds(used, m.partUlid, samples[i].1) && MeasuredAs(m, m.partUlid, samples[i].1);
    forall u, s | Holds(used, u, s) && s.vectorHash == m.vectorHash
      ensures m.partUlid < u || (m.partUlid == u && m.recordIndex <= s.recordIndex)
    {
      HeldIsCandidate(used, u, s);
      assert !Earlier(Candidate(u, s), m);
    }
  }

  lemma InHashOrder(survivors: map<U64, PopulationSample>)
    requires forall h :: h in survivors ==> survivors[h].vectorHash == h
    ensures DistinctHashes(InOrder(survivors))
  {
    var keys := Ascending(survivors.Keys);
    hide Ascending;
    assert forall i :: 0 <= i < |keys| ==> keys[i] in survivors.Keys;
  }

  // ----- the effective recommendation -----

  /** The record a round carries forward: its own approved selection, or the previous one under the
      same fingerprint, marked as carried, or nothing. */
  lemma EffectiveMeaning(input: AggregationInput)
    requires Aggregate(input).Ok?
    ensures var out, config := Aggregate(input).value, input.config;
            && CarryFingerprintMatches(config, out)
            && out.window.end == Timestamp.Iso8601(input.roundEnd)
            && (out.effective.Some? && !out.effective.value.carried ==>
                 out.status == StatusOk && out.recommendedEf == Some(out.effective.value.recommendedEf)
                 && out.confidence == Some(out.effective.value.confidence)
                 && out.effective.value.confidence >= config.approvalConfidence
                 && out.effective.value.sourceRound == out.window.end
                 && out.effective.value.recommendedEf in config.efGrid)
            && (out.effective.Some? && out.effective.value.carried ==>
                 input.previousRound.Some? && CarryFingerprintMatches(config, input.previousRound.value)
                 && input.previousRound.value.effective.Some?
                 && out.effective.value == input.previousRound.value.effective.value.(carried := true))
  {
    ComputedDecision(input);
    ApprovedInGrid(input.config, input.phaseAAbort.Some?, Compute(input).value.decision);
    hide Compute, Decided, Latency, Timestamp.Iso8601;
  }

  lemma ApprovedInGrid(config: AggregationConfig, aborted: bool, d: Decision)
    requires Decided(config, aborted, d)
    ensures d.selection.Some? ==> d.selection.value.recommendedEf in config.efGrid
  {
    hide SelectAndValidate, Side, SelectedBy, Score;
    if d.selection.Some? { SelectionCompletes(config, d.train, d.test); }
  }

  /** The record shows a selection that its holdout approved. */
  predicate Approves(out: RoundOutput, config: AggregationConfig) {
    && out.status == StatusOk && out.recommendedEf.Some? && out.confidence.Some?
    && out.confidence.value >= config.approvalConfidence
  }

  /** The selection a record shows, as a recommendation. */
  function OwnSelection(out: RoundOutput, carried: bool): EffectiveRecommendation
    requires out.recommendedEf.Some? && out.confidence.Some?
  {
    EffectiveRecommendation(out.recommendedEf.value, out.confidence.value, out.window.end, carried)
  }

  /** Which recommendation a record has, read off the record and the one before it: an approved selection
      always becomes the recommendation, otherwise the previous one lives on under the same fingerprint,
      and otherwise there is none. A selection without its ef and confidence is never published as one. */
  lemma EffectiveExactly(input: AggregationInput)
    requires Aggregate(input).Ok?
    ensures var out, previous := Aggregate(input).value, input.previousRound;
            && (out.status != InsufficientSamples <==> out.recommendedEf.Some?)
            && (out.status != InsufficientSamples <==> out.confidence.Some?)
            && out.effective ==
               (if Approves(out, input.config) then Some(OwnSelection(out, false))
                else if previous.Some? && CarryFingerprintMatches(input.config, previous.value)
                     && previous.value.effective.Some?
                then Some(previous.value.effective.value.(carried := true))
                else None)
  {
    ComputedDecision(input);
    SelectionHasStatus(input.config, input.phaseAAbort.Some?, Compute(input).value.decision);
    hide Compute, Decided, Latency, Timestamp.Iso8601, CarryFingerprintMatches;
  }

  lemma SelectionHasStatus(config: AggregationConfig, aborted: bool, d: Decision)
    requires Decided(config, aborted, d)
    ensures d.selection.Some? ==> d.selection.value.status != InsufficientSamples
  {
    hide SelectAndValidate, Side, Score;
    if d.selection.Some? { SelectionCompletes(config, d.train, d.test); }
  }

  /** Aggregating again with the round's own record as the previous one changes nothing. */
  lemma RepublishingIsIdempotent(input: AggregationInput)
    requires Aggregate(input).Ok?
    ensures Aggregate(input.(previousRound := Some(Aggregate(input).value))) == Aggregate(input)
  {
    var out, r := Aggregate(input).value, Compute(input).value;
    ComputeIgnoresPrevious(input, Some(out));
    hide Compute;
    PublishAgain(input, r);
  }

  lemma ComputeIgnoresPrevious(input: AggregationInput, previous: Option<RoundOutput>)
    ensures Compute(input.(previousRound := previous)) == Compute(input)
  {
    hide Account, DistinctIntermediates, TallyParts, Decide, ValidateConfig, PopulationOf, InOrder;
  }

  lemma PublishAgain(input: AggregationInput, r: Round)
    requires input.config.windowDuration <= input.roundEnd
    ensures var out := Publish(input, r.accounts, r.tally, r.decision);
            Publish(input.(previousRound := Some(out)), r.accounts, r.tally, r.decision) == out
  {
    hide Latency, WindowOf;
  }
}
