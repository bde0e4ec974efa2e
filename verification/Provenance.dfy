/** Where a published recommendation comes from, and what the recommendation server makes of it. */
module Provenance {
  import opened Wrappers
  import opened Bytes
  import opened Model
  import opened Ordered
  import opened Aggregation
  import opened AggregationLaws
  import opened Pipeline
  import Accounting
  import Population
  import opened Phases
  import opened Resume
  import Timestamp

  // ----- the records that have been the latest -----

  /** Something happens to the store: a round runs as far as its budget, or the latest record becomes
      unreadable. */
  datatype Event = Ran(run: Run, budget: nat) | LatestDamaged

  function Happen(b: Bucket, e: Event): Bucket {
    match e
    case Ran(run, budget) => After(b, run, budget)
    case LatestDamaged => b.(latest := Some(Malformed))
  }

  function HappenAll(b0: Bucket, events: seq<Event>): Bucket {
    if events == [] then b0 else Happen(HappenAll(b0, events[..|events| - 1]), events[|events| - 1])
  }

  /** The aggregation a run performs from a store, when it gets that far. */
  function InputAt(b: Bucket, run: Run): AggregationInput
    requires Sources(run).Ok?
  {
    var m := MeasuringOf(b, run);
    InputOf(run, Previous(b), Jobs(run), Scanned(b, run.config, Jobs(run)).incompatible,
            if m.ended.Some? && m.ended.value.Aborting? then Some(m.ended.value.abort) else None, m.compatible)
  }

  predicate Publishes(b: Bucket, run: Run, budget: nat) { OutcomeAfter(b, run, budget).Ok? }

  /** The inputs of the rounds that replaced the latest record, in order. */
  function Published(b0: Bucket, events: seq<Event>): seq<AggregationInput> {
    if events == [] then []
    else
      var before, last := Published(b0, events[..|events| - 1]), events[|events| - 1];
      var b := HappenAll(b0, events[..|events| - 1]);
      if last.Ran? && Publishes(b, last.run, last.budget) && Sources(last.run).Ok? then before + [InputAt(b, last.run)]
      else before
  }

  function Out(input: AggregationInput): RoundOutput
    requires Aggregate(input).Ok?
  {
    Aggregate(input).value
  }

  /** Each round read the record of the one before it, or none. */
  predicate Linked(inputs: seq<AggregationInput>) {
    && (forall i :: 0 <= i < |inputs| ==> Aggregate(inputs[i]).Ok?)
    && (inputs != [] ==> inputs[0].previousRound == None)
    && (forall i :: 0 < i < |inputs| ==>
         (inputs[i].previousRound == None || inputs[i].previousRound == Some(Out(inputs[i - 1]))))
  }

  predicate LatestIs(latest: Option<RoundOutput>, inputs: seq<AggregationInput>)
    requires Linked(inputs)
  {
    latest == None || (inputs != [] && latest == Some(Out(inputs[|inputs| - 1])))
  }

  /** What a round that gets through leaves as the latest record. */
  lemma LatestAfter(b: Bucket, run: Run, budget: nat)
    ensures !Publishes(b, run, budget) ==> After(b, run, budget).latest == b.latest
    ensures Publishes(b, run, budget) ==>
      (Sources(run).Ok? && Aggregate(InputAt(b, run)).Ok?
       && Previous(After(b, run, budget)) == Some(Out(InputAt(b, run))))
  {
    hide Scanned, MeasurePending, ApplyAll, Sources, Aggregate, InputOf;
    if Sources(run).Ok? {
      var scan := Scanned(b, run.config, Jobs(run));
      PairPutsOnly(run, scan.compatible, scan.pending);
      FinishedWrites(b, run, scan.incompatible, MeasurePending(run, scan.compatible, scan.pending), budget);
    } else {
      NothingApplied(b);
    }
  }

  lemma {:induction false} PublishedLinked(b0: Bucket, events: seq<Event>)
    requires b0.latest == None
    ensures Linked(Published(b0, events)) && LatestIs(Previous(HappenAll(b0, events)), Published(b0, events))
  {
    hide Aggregate, InputAt, After, Publishes, Sources;
    if events != [] {
      var n := |events| - 1;
      PublishedLinked(b0, events[..n]);
      var b, before := HappenAll(b0, events[..n]), Published(b0, events[..n]);
      if events[n].Ran? {
        LatestAfter(b, events[n].run, events[n].budget);
        ReadsPrevious(b, events[n].run);
      }
    }
  }

  lemma ReadsPrevious(b: Bucket, run: Run)
    ensures Sources(run).Ok? ==> InputAt(b, run).previousRound == Previous(b)
  {
    hide Sources, MeasuringOf;
  }

  // ----- provenance -----

  predicate SameFingerprint(c: AggregationConfig, d: AggregationConfig) {
    && c.cohort == d.cohort && c.index == d.index && c.efGrid == d.efGrid && c.k == d.k && c.value == d.value
    && c.percentile == d.percentile && c.selectionConfidence == d.selectionConfidence
    && c.approvalConfidence == d.approvalConfidence
  }

  /** The round selected exactly this recommendation and approved it on its holdout. */
  predicate Approved(out: RoundOutput, config: AggregationConfig, e: EffectiveRecommendation) {
    && out.status == StatusOk && out.recommendedEf == Some(e.recommendedEf) && out.confidence == Some(e.confidence)
    && e.confidence >= config.approvalConfidence && e.recommendedEf in config.efGrid
    && e.sourceRound == out.window.end
  }

  /** From round `j` on, every round carried the previous record under one fingerprint. */
  predicate Unbroken(inputs: seq<AggregationInput>, j: nat)
    requires j < |inputs| && Linked(inputs)
  {
    && (forall i :: j < i < |inputs| ==> inputs[i].previousRound == Some(Out(inputs[i - 1])))
    && (forall i :: j <= i < |inputs| ==> SameFingerprint(inputs[i].config, inputs[|inputs| - 1].config))
  }

  lemma FingerprintOf(input: AggregationInput, config: AggregationConfig)
    requires Aggregate(input).Ok? && CarryFingerprintMatches(config, Out(input))
    ensures SameFingerprint(input.config, config)
  {
    EffectiveMeaning(input);
    hide Aggregate;
  }

  lemma LinkedBefore(inputs: seq<AggregationInput>)
    requires inputs != [] && Linked(inputs)
    ensures Linked(inputs[..|inputs| - 1])
  {
    hide Out, Aggregate;
    assert forall i :: 0 <= i < |inputs| - 1 ==> inputs[..|inputs| - 1][i] == inputs[i];
  }

  lemma ChainGrows(inputs: seq<AggregationInput>, j: nat)
    requires |inputs| > 1 && Linked(inputs) && Linked(inputs[..|inputs| - 1]) && j < |inputs| - 1
    requires var n := |inputs| - 1;
             && Unbroken(inputs[..n], j) && inputs[n].previousRound == Some(Out(inputs[n - 1]))
             && SameFingerprint(inputs[n - 1].config, inputs[n].config)
    ensures Unbroken(inputs, j)
  {
    hide Out, Aggregate;
    var n := |inputs| - 1;
    assert forall i :: 0 <= i < n ==> inputs[..n][i] == inputs[i];
  }

  lemma FirstHasNoPrevious(inputs: seq<AggregationInput>)
    requires inputs != [] && Linked(inputs) && inputs[|inputs| - 1].previousRound.Some?
    ensures |inputs| > 1 && inputs[|inputs| - 1].previousRound == Some(Out(inputs[|inputs| - 2]))
  {
    hide Out, Aggregate;
  }

  /** The recommendation in a record is the round's own, or the previous record's. */
  lemma OwnOrCarried(input: AggregationInput)
    requires Aggregate(input).Ok? && Out(input).effective.Some?
    ensures var e := Out(input).effective.value;
            if e.carried then
              input.previousRound.Some? && CarryFingerprintMatches(input.config, input.previousRound.value)
              && input.previousRound.value.effective.Some?
              && e == input.previousRound.value.effective.value.(carried := true)
            else Approved(Out(input), input.config, e)
  {
    EffectiveMeaning(input);
    hide Aggregate, CarryFingerprintMatches;
  }

  lemma StillApproved(out: RoundOutput, c: AggregationConfig, d: AggregationConfig, e: EffectiveRecommendation)
    requires Approved(out, c, e) && SameFingerprint(c, d)
    ensures Approved(out, d, e.(carried := true))
  {
  }

  /** Every published recommendation was selected and approved by some round of the unbroken chain
      behind it: one whose fingerprint all rounds since have shared, so that a configuration changed
      away and back cannot bring an old value back. */
  lemma {:induction false} RecommendationHasSource(inputs: seq<AggregationInput>) returns (j: nat)
    requires inputs != [] && Linked(inputs) && Out(inputs[|inputs| - 1]).effective.Some?
    ensures j < |inputs| && Unbroken(inputs, j)
    ensures Approved(Out(inputs[j]), inputs[|inputs| - 1].config, Out(inputs[|inputs| - 1]).effective.value)
    ensures Out(inputs[|inputs| - 1]).effective.value.carried <==> j < |inputs| - 1
    decreases |inputs|
  {
    hide Aggregate, Out, SameFingerprint, Approved, CarryFingerprintMatches;
    var n := |inputs| - 1;
    var config, e := inputs[n].config, Out(inputs[n]).effective.value;
    OwnOrCarried(inputs[n]);
    if !e.carried {
      j := n;
      Reflexive(config);
    } else {
      FirstHasNoPrevious(inputs);
      LinkedBefore(inputs);
      var before := inputs[..n];
      assert before[n - 1] == inputs[n - 1];
      j := RecommendationHasSource(before);
      assert before[j] == inputs[j];
      FingerprintOf(inputs[n - 1], config);
      ChainGrows(inputs, j);
      hide Unbroken;
      StillApproved(Out(inputs[j]), inputs[n - 1].config, config, Out(inputs[n - 1]).effective.value);
    }
  }

  lemma Reflexive(c: AggregationConfig)
    ensures SameFingerprint(c, c)
  {
  }

  /** The same over every history of rounds that run, break off or leave an unreadable latest record,
      from an empty store. */
  lemma LatestHasSource(b0: Bucket, events: seq<Event>) returns (j: nat)
    requires b0.latest == None
    requires Previous(HappenAll(b0, events)).Some? && Previous(HappenAll(b0, events)).value.effective.Some?
    ensures var inputs := Published(b0, events);
            && j < |inputs| && Linked(inputs) && Unbroken(inputs, j)
            && Approved(Out(inputs[j]), inputs[|inputs| - 1].config,
                        Previous(HappenAll(b0, events)).value.effective.value)
  {
    PublishedLinked(b0, events);
    hide Aggregate, Published, HappenAll, Previous;
    j := RecommendationHasSource(Published(b0, events));
  }

  // ----- approvals last -----

  /** Round `i` is the last of the rounds whose record shows an approved selection. */
  predicate LastApproving(inputs: seq<AggregationInput>, i: nat)
    requires i < |inputs| && Linked(inputs)
  {
    && Approves(Out(inputs[i]), inputs[i].config)
    && forall m :: i < m < |inputs| ==> !Approves(Out(inputs[m]), inputs[m].config)
  }

  /** A record carries its fingerprint with it: it matches exactly the configurations that share it. */
  lemma FingerprintMatches(input: AggregationInput, config: AggregationConfig)
    requires Aggregate(input).Ok?
    ensures CarryFingerprintMatches(config, Out(input)) <==> SameFingerprint(input.config, config)
  {
    EffectiveMeaning(input);
    hide Aggregate;
  }

  lemma ChainShrinks(inputs: seq<AggregationInput>, j: nat)
    requires Linked(inputs) && j < |inputs| - 1 && Unbroken(inputs, j)
    ensures Linked(inputs[..|inputs| - 1]) && Unbroken(inputs[..|inputs| - 1], j)
  {
    hide Out, Aggregate, SameFingerprint;
    LinkedBefore(inputs);
    hide Linked;
    var n := |inputs| - 1;
    forall i | j <= i < n ensures SameFingerprint(inputs[i].config, inputs[n - 1].config) {
      Shared(inputs[i].config, inputs[n - 1].config, inputs[n].config);
    }
    assert forall i :: 0 <= i < n ==> inputs[..n][i] == inputs[i];
  }

  lemma Shared(c: AggregationConfig, d: AggregationConfig, e: AggregationConfig)
    requires SameFingerprint(c, e) && SameFingerprint(d, e)
    ensures SameFingerprint(c, d)
  {
  }

  lemma LastApprovingGrows(inputs: seq<AggregationInput>, i: nat)
    requires Linked(inputs) && i < |inputs| - 1 && Linked(inputs[..|inputs| - 1])
    requires LastApproving(inputs[..|inputs| - 1], i)
    requires !Approves(Out(inputs[|inputs| - 1]), inputs[|inputs| - 1].config)
    ensures LastApproving(inputs, i)
  {
    hide Out, Aggregate, Approves;
    var before := inputs[..|inputs| - 1];
    assert forall m :: 0 <= m < |before| ==> before[m] == inputs[m];
  }

  /** A round that shows no approved selection of its own keeps the recommendation it reads. */
  lemma KeepsRecommendation(before: AggregationInput, input: AggregationInput)
    requires Aggregate(before).Ok? && Aggregate(input).Ok? && input.previousRound == Some(Out(before))
    requires SameFingerprint(before.config, input.config) && Out(before).effective.Some?
    requires !Approves(Out(input), input.config)
    ensures Out(input).effective == Some(Out(before).effective.value.(carried := true))
  {
    EffectiveExactly(input);
    FingerprintMatches(before, input.config);
    hide Aggregate, CarryFingerprintMatches, SameFingerprint, Approves;
  }

  lemma KeepsOwn(input: AggregationInput)
    requires Aggregate(input).Ok? && Approves(Out(input), input.config)
    ensures Out(input).effective == Some(OwnSelection(Out(input), false))
  {
    EffectiveExactly(input);
    hide Aggregate;
  }

  /** Once a round has approved its selection, every later record of an unbroken chain has a
      recommendation, and it is what the last approving round selected. */
  lemma {:induction false} ApprovalLasts(inputs: seq<AggregationInput>, j: nat) returns (i: nat)
    requires Linked(inputs) && j < |inputs| && Unbroken(inputs, j) && Approves(Out(inputs[j]), inputs[j].config)
    ensures j <= i < |inputs| && LastApproving(inputs, i)
    ensures Out(inputs[|inputs| - 1]).effective == Some(OwnSelection(Out(inputs[i]), i < |inputs| - 1))
    decreases |inputs|
  {
    hide Aggregate, Out, SameFingerprint, Approves;
    var n := |inputs| - 1;
    if Approves(Out(inputs[n]), inputs[n].config) {
      i := n;
      KeepsOwn(inputs[n]);
    } else {
      ChainShrinks(inputs, j);
      var before := inputs[..n];
      assert before[j] == inputs[j] && before[n - 1] == inputs[n - 1];
      i := ApprovalLasts(before, j);
      assert before[i] == inputs[i];
      KeepsRecommendation(inputs[n - 1], inputs[n]);
      LastApprovingGrows(inputs, i);
    }
  }

  /** As long as the latest record stays readable, every round reads the record of the one before it. */
  lemma {:induction false} UndamagedLinks(b0: Bucket, events: seq<Event>)
    requires b0.latest == None && forall e :: e in events ==> e.Ran?
    ensures Linked(Published(b0, events)) && Previous(HappenAll(b0, events)).Some? == (Published(b0, events) != [])
    ensures forall i :: 0 < i < |Published(b0, events)| ==>
      Published(b0, events)[i].previousRound == Some(Out(Published(b0, events)[i - 1]))
  {
    hide Aggregate, InputAt, After, Publishes, Sources, Out;
    PublishedLinked(b0, events);
    if events != [] {
      var n := |events| - 1;
      UndamagedLinks(b0, events[..n]);
      PublishedLinked(b0, events[..n]);
      var b := HappenAll(b0, events[..n]);
      assert events[n] in events;
      LatestAfter(b, events[n].run, events[n].budget);
      ReadsPrevious(b, events[n].run);
    }
  }

  /** The same over every history of rounds that run, break off or leave an unreadable latest record,
      from an empty store: whenever the latest record can be read, it recommends what the last approving
      round selected. */
  lemma LatestKeepsApproval(b0: Bucket, events: seq<Event>, j: nat) returns (i: nat)
    requires b0.latest == None && Previous(HappenAll(b0, events)).Some?
    requires Linked(Published(b0, events)) && j < |Published(b0, events)| && Unbroken(Published(b0, events), j)
    requires Approves(Out(Published(b0, events)[j]), Published(b0, events)[j].config)
    ensures var inputs, latest := Published(b0, events), Previous(HappenAll(b0, events)).value;
            && j <= i < |inputs| && LastApproving(inputs, i)
            && latest.effective == Some(OwnSelection(Out(inputs[i]), i < |inputs| - 1))
  {
    hide Aggregate, Published, HappenAll, Previous, Linked, Unbroken, LastApproving, Out, Approves, OwnSelection;
    PublishedLinked(b0, events);
    i := ApprovalLasts(Published(b0, events), j);
  }

  // ----- the server -----

  const MIN_EF_SEARCH: int := 1
  const LATEST_JSON_MAX_BYTES: nat := 262144

  datatype Defect =
    | TooLarge(actualBytes: nat)
    | MalformedRecord
    | UnsupportedFormat(formatVersion: nat)
    | CohortMismatch(expected: seq<Byte>, actual: seq<Byte>)
    | InvalidEf(ef: int)

  datatype Lookup = Found(ef: int) | Missing | Defective(defect: Defect)

  /** The latest object as the server fetches it, with the size of its text. */
  function LoadEffectiveEf(latest: Option<Stored<RoundOutput>>, size: nat, cohort: seq<Byte>): Lookup {
    match latest
    case None => Missing
    case Some(stored) =>
      if size > LATEST_JSON_MAX_BYTES then Defective(TooLarge(size))
      else match stored
        case Malformed => Defective(MalformedRecord)
        case Readable(round) =>
          if round.formatVersion != 1 then Defective(UnsupportedFormat(round.formatVersion))
          else if round.cohort != cohort then Defective(CohortMismatch(cohort, round.cohort))
          else match round.effective
            case None => Missing
            case Some(e) =>
              if !(MIN_EF_SEARCH <= e.recommendedEf <= MAX_EF_SEARCH) then Defective(InvalidEf(e.recommendedEf))
              else Found(e.recommendedEf)
  }

  /** A stored record the server can use: not too large, readable, of this format and for this cohort. */
  predicate Usable(stored: Stored<RoundOutput>, size: nat, cohort: seq<Byte>) {
    && size <= LATEST_JSON_MAX_BYTES && stored.Readable? && stored.value.formatVersion == 1
    && stored.value.cohort == cohort
  }

  /** The server recommends an ef exactly when it has a usable record that recommends it, within bounds; it
      says that there is none exactly when nothing is stored or a usable record has none; and it calls
      everything else defective. */
  lemma ServedExactly(latest: Option<Stored<RoundOutput>>, size: nat, cohort: seq<Byte>)
    ensures var lookup := LoadEffectiveEf(latest, size, cohort);
            && (forall ef :: lookup == Found(ef) <==>
                 latest.Some? && Usable(latest.value, size, cohort) && latest.value.value.effective.Some?
                 && latest.value.value.effective.value.recommendedEf == ef && 1 <= ef <= 1000)
            && (lookup == Missing <==>
                 latest.None? || (Usable(latest.value, size, cohort) && latest.value.value.effective.None?))
  {
  }

  lemma ApprovedInRange(input: AggregationInput, config: AggregationConfig, e: EffectiveRecommendation)
    requires Aggregate(input).Ok? && SameFingerprint(input.config, config) && e.recommendedEf in config.efGrid
    ensures MIN_EF_SEARCH <= e.recommendedEf <= MAX_EF_SEARCH
  {
    hide Account, Accounting.DistinctIntermediates, TallyParts, Decide, Publish, Population.SplitThreshold,
         PopulationOf, Population.InOrder;
    assert WellShaped(input.config);
    var i :| 0 <= i < |config.efGrid| && config.efGrid[i] == e.recommendedEf;
    assert config.efGrid[0] <= config.efGrid[i];
  }

  /** Whatever rounds publish, the server serves it: the approved ef when there is one, and otherwise
      that there is none. It never takes a published record for a defective one. */
  lemma PublishedIsServed(inputs: seq<AggregationInput>, size: nat)
    requires inputs != [] && Linked(inputs) && size <= LATEST_JSON_MAX_BYTES
    ensures var last := inputs[|inputs| - 1];
            var lookup := LoadEffectiveEf(Some(Readable(Out(last))), size, last.config.cohort);
            lookup == match Out(last).effective case Some(e) => Found(e.recommendedEf) case None => Missing
  {
    var last := inputs[|inputs| - 1];
    EffectiveMeaning(last);
    FormatOf(last);
    if Out(last).effective.Some? {
      var j := RecommendationHasSource(inputs);
      ApprovedInRange(inputs[j], last.config, Out(last).effective.value);
    }
    hide Aggregate;
  }

  lemma FormatOf(input: AggregationInput)
    requires Aggregate(input).Ok?
    ensures Out(input).formatVersion == 1 && Out(input).cohort == input.config.cohort
  {
    hide Account, Accounting.DistinctIntermediates, TallyParts, Decide, ValidateConfig, PopulationOf,
         Population.InOrder, Effective, Latency;
  }
}
