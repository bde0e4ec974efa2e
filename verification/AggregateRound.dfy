/** The aggregation of one round, step by step, and what its record means. */
module AggregateRound {
  import opened Wrappers
  import opened Bytes
  import opened Model
  import opened Ordered
  import opened Posterior
  import opened Selection
  import Fnv
  import opened Population
  import opened Accounting
  import opened Aggregation
  import Timestamp

  // ----- the loops -----

  lemma {:induction false} AvailablePrefix(parts: seq<ListedPart>, n: nat)
    requires n <= |parts|
    ensures Available(parts[..n]).Err? ==> Available(parts) == Available(parts[..n])
    decreases |parts|
  {
    if n < |parts| {
      AvailablePrefix(parts[..|parts| - 1], n);
      assert parts[..|parts| - 1][..n] == parts[..n];
    } else {
      assert parts[..n] == parts;
    }
  }

  method TotalAvailable(parts: seq<ListedPart>) returns (r: Result<nat, AggregateError>)
    ensures r == Available(parts)
  {
    var total: nat := 0;
    for i := 0 to |parts|
      invariant Available(parts[..i]) == Ok(total)
    {
      assert parts[..i + 1][..i] == parts[..i];
      AvailablePrefix(parts, i + 1);
      if parts[i].recordCount > parts[i].receivedFrameCount {
        return Err(InvalidPartCounts(parts[i].partUlid));
      }
      if total + parts[i].recordCount >= U64_LIMIT {
        return Err(CounterOverflow("samples.available"));
      }
      total := total + parts[i].recordCount;
    }
    assert parts[..|parts|] == parts;
    return Ok(total);
  }

  lemma {:induction false} TallyPrefix(config: AggregationConfig, listed: map<nat, ListedPart>, incompatible: nat,
                                       parts: seq<IntermediatePart>, n: nat)
    requires n <= |parts|
    ensures TallyParts(config, listed, incompatible, parts[..n]).Err? ==>
            TallyParts(config, listed, incompatible, parts) == TallyParts(config, listed, incompatible, parts[..n])
    decreases |parts|
  {
    hide TallyPart;
    if n < |parts| {
      TallyPrefix(config, listed, incompatible, parts[..|parts| - 1], n);
      assert parts[..|parts| - 1][..n] == parts[..n];
    } else {
      assert parts[..n] == parts;
    }
  }

  method TallyIntermediates(config: AggregationConfig, listed: map<nat, ListedPart>, incompatible: nat,
                            parts: seq<IntermediatePart>)
    returns (r: Result<Tally, AggregateError>)
    ensures r == TallyParts(config, listed, incompatible, parts)
  {
    hide IsCompatible;
    var used: seq<IntermediatePart> := [];
    var skipped: nat, measured: nat, failed: nat := incompatible, 0, 0;
    for i := 0 to |parts|
      invariant TallyParts(config, listed, incompatible, parts[..i]) == Ok(Tally(used, skipped, measured, failed))
    {
      var part := parts[i];
      assert parts[..i + 1][..i] == parts[..i];
      TallyPrefix(config, listed, incompatible, parts, i + 1);
      if part.metadata.partUlid !in listed {
        continue;
      }
      if !IsCompatible(config, part) {
        if skipped + 1 >= U64_LIMIT {
          return Err(CounterOverflow("incompatible_parts"));
        }
        skipped := skipped + 1;
        continue;
      }
      if measured + part.metadata.measuredCount >= U64_LIMIT {
        return Err(CounterOverflow("samples.measured"));
      }
      if failed + part.metadata.failedCount >= U64_LIMIT {
        return Err(CounterOverflow("samples.failed"));
      }
      measured := measured + part.metadata.measuredCount;
      failed := failed + part.metadata.failedCount;
      used := used + [part];
    }
    assert parts[..|parts|] == parts;
    return Ok(Tally(used, skipped, measured, failed));
  }

  // which pairs count, said without the loop

  predicate Counts(config: AggregationConfig, listed: map<nat, ListedPart>, p: IntermediatePart) {
    p.metadata.partUlid in listed && IsCompatible(config, p)
  }

  /** The positions of listed pairs that other settings made. */
  function Outdated(config: AggregationConfig, listed: map<nat, ListedPart>, parts: seq<IntermediatePart>): set<nat> {
    set i: nat | i < |parts| && parts[i].metadata.partUlid in listed && !IsCompatible(config, parts[i])
  }

  predicate AscendingUlids(parts: seq<IntermediatePart>) {
    forall i, j :: 0 <= i < j < |parts| ==> parts[i].metadata.partUlid < parts[j].metadata.partUlid
  }

  /** The pairs among `parts` that count, each as often as it is there and in the same order. */
  predicate Keeps(config: AggregationConfig, listed: map<nat, ListedPart>, parts: seq<IntermediatePart>,
                  used: seq<IntermediatePart>)
  {
    && (forall p :: p in used ==> p in parts)
    && (forall p :: p in parts ==> multiset(used)[p] == if Counts(config, listed, p) then multiset(parts)[p] else 0)
    && (AscendingUlids(parts) ==> AscendingUlids(used))
  }

  function MeasuredIn(parts: seq<IntermediatePart>): nat {
    if parts == [] then 0 else MeasuredIn(parts[..|parts| - 1]) + parts[|parts| - 1].metadata.measuredCount
  }

  function FailedIn(parts: seq<IntermediatePart>): nat {
    if parts == [] then 0 else FailedIn(parts[..|parts| - 1]) + parts[|parts| - 1].metadata.failedCount
  }

  lemma OutdatedStep(config: AggregationConfig, listed: map<nat, ListedPart>, rest: seq<IntermediatePart>,
                     p: IntermediatePart)
    ensures |Outdated(config, listed, rest + [p])|
         == |Outdated(config, listed, rest)|
           + (if p.metadata.partUlid in listed && !IsCompatible(config, p) then 1 else 0)
  {
    hide IsCompatible;
    var more := if p.metadata.partUlid in listed && !IsCompatible(config, p) then {|rest|} else {};
    assert Outdated(config, listed, rest + [p]) == Outdated(config, listed, rest) + more;
  }

  lemma OrderStep(rest: seq<IntermediatePart>, used: seq<IntermediatePart>, p: IntermediatePart)
    requires AscendingUlids(rest + [p]) && forall q :: q in used ==> q in rest
    requires AscendingUlids(rest) ==> AscendingUlids(used)
    ensures AscendingUlids(used) && AscendingUlids(used + [p])
  {
    var parts := rest + [p];
    assert forall i :: 0 <= i < |rest| ==> parts[i] == rest[i];
    forall i | 0 <= i < |used| ensures used[i].metadata.partUlid < p.metadata.partUlid {
      assert used[i] in used;
      var j :| 0 <= j < |rest| && rest[j] == used[i];
      assert parts[j] == used[i] && parts[|rest|] == p;
    }
  }

  lemma OftenStep(rest: seq<IntermediatePart>, used: seq<IntermediatePart>, p: IntermediatePart, q: IntermediatePart)
    requires forall x :: x in used ==> x in rest
    ensures multiset(rest + [p])[q] == multiset(rest)[q] + (if q == p then 1 else 0)
    ensures multiset(used + [p])[q] == multiset(used)[q] + (if q == p then 1 else 0)
    ensures q !in rest ==> multiset(used)[q] == 0 && multiset(rest)[q] == 0
  {
  }

  lemma KeepsStep(config: AggregationConfig, listed: map<nat, ListedPart>, rest: seq<IntermediatePart>,
                  used: seq<IntermediatePart>, p: IntermediatePart)
    requires Keeps(config, listed, rest, used)
    ensures Keeps(config, listed, rest + [p], if Counts(config, listed, p) then used + [p] else used)
  {
    hide Counts, AscendingUlids;
    var used' := if Counts(config, listed, p) then used + [p] else used;
    forall q | q in rest + [p]
      ensures multiset(used')[q] == if Counts(config, listed, q) then multiset(rest + [p])[q] else 0
    {
      OftenStep(rest, used, p, q);
    }
    if AscendingUlids(rest + [p]) { OrderStep(rest, used, p); }
  }

  lemma SumsStep(used: seq<IntermediatePart>, p: IntermediatePart)
    ensures MeasuredIn(used + [p]) == MeasuredIn(used) + p.metadata.measuredCount
    ensures FailedIn(used + [p]) == FailedIn(used) + p.metadata.failedCount
  {
    assert (used + [p])[..|used|] == used;
  }

  lemma NothingTallied(config: AggregationConfig, listed: map<nat, ListedPart>)
    ensures Outdated(config, listed, []) == {} && MeasuredIn([]) == 0 && FailedIn([]) == 0
  {
  }

  /** The tally holds exactly the listed, compatible pairs and their totals, and counts the listed
      incompatible ones on top of those counted before; it fails exactly when one of its three counters
      overflows. */
  lemma {:induction false} TallyExact(config: AggregationConfig, listed: map<nat, ListedPart>, n: nat,
                                      parts: seq<IntermediatePart>)
    returns (used: seq<IntermediatePart>)
    ensures Keeps(config, listed, parts, used)
    ensures var outdated := |Outdated(config, listed, parts)|;
            && (TallyParts(config, listed, n, parts).Ok? <==>
                 (outdated == 0 || n + outdated < U64_LIMIT) && MeasuredIn(used) < U64_LIMIT
                   && FailedIn(used) < U64_LIMIT)
            && (TallyParts(config, listed, n, parts).Ok? ==>
                 TallyParts(config, listed, n, parts).value
                   == Tally(used, n + outdated, MeasuredIn(used), FailedIn(used)))
  {
    hide IsCompatible, Keeps, MeasuredIn, FailedIn, Outdated;
    if parts == [] {
      used := [];
      NothingKept(config, listed);
      NothingTallied(config, listed);
    } else {
      var rest, p := parts[..|parts| - 1], parts[|parts| - 1];
      assert parts == rest + [p];
      var before := TallyExact(config, listed, n, rest);
      KeepsStep(config, listed, rest, before, p);
      OutdatedStep(config, listed, rest, p);
      SumsStep(before, p);
      used := if Counts(config, listed, p) then before + [p] else before;
    }
  }

  lemma NothingKept(config: AggregationConfig, listed: map<nat, ListedPart>)
    ensures Keeps(config, listed, [], [])
  {
  }

  lemma SideStep(population: seq<PopulationSample>, i: nat, config: AggregationConfig, train: bool)
    requires i < |population|
    ensures var member := IsTrainMember(population[i].vectorHash, config.splitSeed, config.trainFraction);
            Side(population[i..], config, train)
            == (if member == Ok(train) then [population[i]] else []) + Side(population[i + 1..], config, train)
  {
    hide IsTrainMember;
    assert population[i..][1..] == population[i + 1..];
    var rest := Side(population[i + 1..], config, train);
    assert [] + rest == rest;
  }

  lemma MembershipFails(vectorHash: U64, config: AggregationConfig)
    ensures var member := IsTrainMember(vectorHash, config.splitSeed, config.trainFraction);
            if SplitThreshold(config.trainFraction).Ok? then member.Ok? else member == Err(InvalidTrainFraction)
  {
    hide Fnv.Fnv1a64, SplitKey;
  }

  method SplitPopulation(population: seq<PopulationSample>, config: AggregationConfig)
    returns (r: Result<(seq<PopulationSample>, seq<PopulationSample>), AggregateError>)
    ensures r == if SplitThreshold(config.trainFraction).Ok? || population == []
                 then Ok((Side(population, config, true), Side(population, config, false)))
                 else Err(Math(InvalidTrainFraction))
  {
    hide IsTrainMember, Side, SplitThreshold;
    assert population[0..] == population;
    var train: seq<PopulationSample>, test: seq<PopulationSample> := [], [];
    for i := 0 to |population|
      invariant i > 0 ==> SplitThreshold(config.trainFraction).Ok?
      invariant train + Side(population[i..], config, true) == Side(population, config, true)
      invariant test + Side(population[i..], config, false) == Side(population, config, false)
    {
      var member := IsTrainMember(population[i].vectorHash, config.splitSeed, config.trainFraction);
      MembershipFails(population[i].vectorHash, config);
      if member.Err? {
        return Err(Math(member.error));
      }
      SideStep(population, i, config, true);
      SideStep(population, i, config, false);
      if member.value {
        train := train + [population[i]];
      } else {
        test := test + [population[i]];
      }
    }
    NoSide(population[|population|..], config);
    assert train + [] == train && test + [] == test;
    return Ok((train, test));
  }

  lemma NoSide(population: seq<PopulationSample>, config: AggregationConfig)
    requires population == []
    ensures Side(population, config, true) == [] && Side(population, config, false) == []
  {
  }

  method DecideRound(config: AggregationConfig, aborted: bool, population: seq<PopulationSample>)
    returns (r: Result<Decision, AggregateError>)
    requires SplitThreshold(config.trainFraction).Ok?
    ensures r == Decide(config, aborted, population)
  {
    hide SelectAndValidate, PerEfSummaries, ValidatePopulation, Insufficient, Side, SplitThreshold;
    var valid := ValidatePopulation(population, config.efGrid);
    if valid.Err? {
      return Err(valid.error);
    }
    ValidIsSwept(population, config.efGrid);
    var perEf := PerEfSummaries(population, config);
    if perEf.Err? {
      return Err(perEf.error);
    }
    var sides := SplitPopulation(population, config);
    var (train, test) := sides.value;
    var insufficient := Insufficient(config, aborted, |train|, |test|);
    if insufficient.Err? {
      return Err(insufficient.error);
    }
    if insufficient.value {
      return Ok(Decision(population, perEf.value, train, test, None));
    }
    var selection := SelectAndValidate(config, train, test);
    if selection.Err? {
      return Err(selection.error);
    }
    return Ok(Decision(population, perEf.value, train, test, Some(selection.value)));
  }

  method AggregateOnce(input: AggregationInput) returns (r: Result<RoundOutput, AggregateError>)
    ensures r == Aggregate(input)
  {
    hide Publish, Decide, SplitThreshold, WellShaped, Available, DroppedFraction, CoverageOf, InOrder;
    var config := input.config;
    var valid := ValidateConfig(config);
    if valid.Err? {
      return Err(valid.error);
    }
    var expected := InScopeWindowStarts(input.roundEnd, config.windowDuration, config.storageWindow);
    if expected.Err? {
      return Err(expected.error);
    }
    var lower := Lower(input.roundEnd, config.windowDuration);
    if lower.Err? {
      return Err(lower.error);
    }
    var listed := UniqueInScopeParts(input.listedParts, lower.value, input.roundEnd);
    if listed.Err? {
      return Err(listed.error);
    }
    var coverage := CoverageOf(expected.value, listed.value);
    var available := TotalAvailable(InOrder(listed.value));
    if available.Err? {
      return Err(available.error);
    }
    var dropFraction := DroppedFrameFraction(InOrder(listed.value));
    if dropFraction.Err? {
      return Err(dropFraction.error);
    }
    var intermediates := UniqueIntermediates(input.intermediates);
    if intermediates.Err? {
      return Err(intermediates.error);
    }
    var tally := TallyIntermediates(config, listed.value, input.phaseAIncompatibleParts, InOrder(intermediates.value));
    if tally.Err? {
      return Err(tally.error);
    }
    var population := DeduplicateSamples(SamplesOf(tally.value.used));
    var decision := DecideRound(config, input.phaseAAbort.Some?, population);
    if decision.Err? {
      return Err(decision.error);
    }
    var accounts := Accounts(expected.value, listed.value, coverage, available.value, dropFraction.value);
    return Ok(Publish(input, accounts, tally.value, decision.value));
  }
}
