/** How a round ends, told by what the database answered: which answers stop it without a trace in the
    published records, and which make it publish that there is too little to go by. */
module Endings {
  import opened Wrappers
  import opened Bytes
  import opened Model
  import opened Ordered
  import opened Aggregation
  import opened Accounting
  import opened AggregationLaws
  import opened Measure
  import opened Measurement
  import opened Pipeline
  import opened Phases
  import opened Resume
  import Population

  // ----- what the database is asked -----

  /** The samples of a source part, if its segment can be prepared under the run's configuration. */
  function SamplesIn(run: Run, x: SourcePart): seq<PreparedSample> {
    match Prepared(x.bytes, run.config.cohort, x.listed.windowStart, run.config.storageWindow)
    case Ok(part) => part.samples
    case Err(_) => []
  }

  /** What the database answers for the sample; a sample that cannot be asked about is none. */
  function AnswerFor(run: Run, s: PreparedSample): Option<SampleOutcome> {
    if Measurable(s) then Some(run.measurer(s.vector.value, run.config)) else None
  }

  /** The round goes on after this answer: it counts or only fails the sample. */
  predicate GoesOn(run: Run, s: PreparedSample) {
    var answer := AnswerFor(run, s);
    || answer.None? || answer.value.DatabaseFailed?
    || (answer.value.Measured?
        && (!Consistent(answer.value.m, run.config)
            || forall r :: r in answer.value.m.sweeps ==> |r.returnedKeys| < I32_LIMIT))
  }

  predicate AllGoOn(run: Run, samples: seq<PreparedSample>) {
    forall i :: 0 <= i < |samples| ==> GoesOn(run, samples[i])
  }

  /** Measuring reaches the `j`-th sample of `x`: everything that is asked before it lets the round go on. */
  predicate Reaches(b: Bucket, run: Run, x: SourcePart, j: nat)
    requires Sources(run).Ok?
  {
    && x in PendingOf(b, run) && j < |SamplesIn(run, x)| && AllGoOn(run, SamplesIn(run, x)[..j])
    && forall y :: y in PendingOf(b, run) && y.listed.partUlid < x.listed.partUlid ==> AllGoOn(run, SamplesIn(run, y))
  }

  lemma {:induction false} RowsFit(recordIndex: int, sweeps: seq<SampleSweepResult>)
    ensures SweepRows(recordIndex, sweeps).Ok? <==> forall r :: r in sweeps ==> |r.returnedKeys| < I32_LIMIT
    ensures SweepRows(recordIndex, sweeps).Err? ==> SweepRows(recordIndex, sweeps).error.ResultCountOutOfRange?
  {
    if sweeps != [] {
      var n := |sweeps| - 1;
      RowsFit(recordIndex, sweeps[..n]);
      assert sweeps == sweeps[..n] + [sweeps[n]];
    }
  }

  /** Measuring some samples succeeds exactly when every answer lets it go on, and otherwise ends at the
      first one that does not. */
  lemma {:induction false} SamplesGoOn(run: Run, samples: seq<PreparedSample>)
    ensures MeasureSamples(samples, run.config, run.measurer).Ok? <==> AllGoOn(run, samples)
  {
    hide Consistent, TruthRow;
    if samples != [] {
      var n := |samples| - 1;
      SamplesGoOn(run, samples[..n]);
      assert samples == samples[..n] + [samples[n]];
      var answer := AnswerFor(run, samples[n]);
      if answer.Some? && answer.value.Measured? { RowsFit(samples[n].recordIndex, answer.value.m.sweeps); }
      hide SweepRows;
      AllButLast(run, samples);
      hide AllGoOn;
    }
  }

  lemma AllButLast(run: Run, samples: seq<PreparedSample>)
    requires samples != []
    ensures AllGoOn(run, samples) <==> AllGoOn(run, samples[..|samples| - 1]) && GoesOn(run, samples[|samples| - 1])
  {
    hide GoesOn;
    var rest := samples[..|samples| - 1];
    assert forall i :: 0 <= i < |rest| ==> rest[i] == samples[i];
  }

  /** The measurement ends at the sample that is reached and does not let it go on. */
  lemma SamplesEndAt(run: Run, samples: seq<PreparedSample>, j: nat)
    requires j < |samples| && AllGoOn(run, samples[..j]) && AnswerFor(run, samples[j]).Some?
    ensures var r := MeasureSamples(samples, run.config, run.measurer);
            match AnswerFor(run, samples[j]).value
            case ConnectionLost => r == Err(ConnectionUnavailable)
            case CancelledBeforeTransaction => r == Err(MeasuringCancelled)
            case TooFewRows(returned) => r == Err(Abort(TableSmallerThanK(returned, run.config.k)))
            case _ => true
  {
    hide AllGoOn, Consistent, SweepRows, TruthRow;
    SamplesGoOn(run, samples[..j]);
    MeasureNext(samples, run.config, run.measurer, j);
  }

  /** An abort was asked for by some sample's answer. */
  lemma {:induction false} AbortHasSample(run: Run, samples: seq<PreparedSample>, abort: PhaseAAbort) returns (j: nat)
    requires MeasureSamples(samples, run.config, run.measurer) == Err(Abort(abort))
    ensures j < |samples| && AllGoOn(run, samples[..j])
    ensures AnswerFor(run, samples[j]) == Some(TooFewRows(abort.returned)) && abort.k == run.config.k
  {
    hide AllGoOn, Consistent, SweepRows, TruthRow;
    var n := |samples| - 1;
    if MeasureSamples(samples[..n], run.config, run.measurer).Ok? {
      SamplesGoOn(run, samples[..n]);
      j := n;
    } else {
      j := AbortHasSample(run, samples[..n], abort);
      assert samples[..n][..j] == samples[..j];
    }
  }

  // ----- how the measuring phase ends -----

  /** A part whose answers all let the round go on is measured. */
  lemma PartGoesOn(run: Run, x: SourcePart)
    requires Sources(run).Ok? && x in Jobs(run)
    ensures MeasureSource(run, x).Ok? <==> AllGoOn(run, SamplesIn(run, x))
  {
    JobFrom(run, x);
    SamplesGoOn(run, SamplesIn(run, x));
    hide Sources, Jobs, Prepared, MeasureSamples, AllGoOn;
  }

  /** How measuring one part ends, told by the answer it ends at. */
  predicate EndsBy(ends: Option<Ending>, answer: SampleOutcome, partUlid: nat, k: nat) {
    match answer
    case ConnectionLost => ends == Some(Stopping(Disconnected(partUlid)))
    case CancelledBeforeTransaction => ends == Some(Stopping(Cancelled))
    case TooFewRows(returned) => ends == Some(Aborting(TableSmallerThanK(returned, k)))
    case _ => true
  }

  lemma PartEndsAt(run: Run, x: SourcePart, j: nat)
    requires j < |SamplesIn(run, x)| && AllGoOn(run, SamplesIn(run, x)[..j]) && !GoesOn(run, SamplesIn(run, x)[j])
    ensures MeasureSource(run, x).Err?
    ensures EndsBy(Some(MeasureSource(run, x).error), AnswerFor(run, SamplesIn(run, x)[j]).value, x.listed.partUlid,
                   run.config.k)
  {
    SamplesEndAt(run, SamplesIn(run, x), j);
    SamplesGoOn(run, SamplesIn(run, x));
    hide Prepared, MeasureSamples, GoesOn;
  }

  /** The phase ends at the sample that is reached and does not let it go on. */
  lemma PhaseEndsAt(b: Bucket, run: Run, x: SourcePart, j: nat)
    requires Sources(run).Ok? && Reaches(b, run, x, j) && !GoesOn(run, SamplesIn(run, x)[j])
    ensures EndsBy(EndsWith(run, PendingOf(b, run)), AnswerFor(run, SamplesIn(run, x)[j]).value, x.listed.partUlid,
                   run.config.k)
    ensures EndsWith(run, PendingOf(b, run)).Some?
  {
    hide Sources, Jobs, MeasureSource, AllGoOn, GoesOn, SamplesIn, AnswerFor, PendingOf, EndsWith, EndsBy, UlidsAscend;
    PendingExact(b, run);
    PartEndsAt(run, x, j);
    forall y | y in PendingOf(b, run) && y.listed.partUlid < x.listed.partUlid ensures MeasureSource(run, y).Ok? {
      PartGoesOn(run, y);
    }
    EndsWithFirst(run, PendingOf(b, run), x);
  }

  /** The phase gets through all pending parts exactly when every answer lets it go on. */
  lemma PhaseGoesOn(b: Bucket, run: Run)
    requires Sources(run).Ok?
    ensures EndsWith(run, PendingOf(b, run)).None? <==>
            forall x :: x in PendingOf(b, run) ==> AllGoOn(run, SamplesIn(run, x))
  {
    hide Sources, Jobs, MeasureSource, AllGoOn, SamplesIn, PendingOf, EndsWith;
    PendingExact(b, run);
    EndsExactly(run, PendingOf(b, run));
    forall x | x in PendingOf(b, run) ensures MeasureSource(run, x).Ok? <==> AllGoOn(run, SamplesIn(run, x)) {
      PartGoesOn(run, x);
    }
  }

  /** An abort of the phase was asked for by the answer to a sample that was reached. */
  lemma AbortWasReached(b: Bucket, run: Run, abort: PhaseAAbort) returns (x: SourcePart, j: nat)
    requires Sources(run).Ok? && EndsWith(run, PendingOf(b, run)) == Some(Aborting(abort))
    ensures Reaches(b, run, x, j) && AnswerFor(run, SamplesIn(run, x)[j]) == Some(TooFewRows(abort.returned))
    ensures abort.k == run.config.k
  {
    hide Sources, Jobs, MeasureSource, AllGoOn, AnswerFor, SamplesIn, PendingOf, EndsWith, UlidsAscend;
    PendingExact(b, run);
    x := FirstBad(run, PendingOf(b, run));
    j := AbortInPart(run, x, abort);
    forall y | y in PendingOf(b, run) && y.listed.partUlid < x.listed.partUlid ensures AllGoOn(run, SamplesIn(run, y)) {
      PartGoesOn(run, y);
    }
  }

  lemma AbortInPart(run: Run, x: SourcePart, abort: PhaseAAbort) returns (j: nat)
    requires MeasureSource(run, x) == Err(Aborting(abort))
    ensures j < |SamplesIn(run, x)| && AllGoOn(run, SamplesIn(run, x)[..j])
    ensures AnswerFor(run, SamplesIn(run, x)[j]) == Some(TooFewRows(abort.returned)) && abort.k == run.config.k
  {
    hide Prepared, MeasureSamples, AllGoOn, AnswerFor;
    j := AbortHasSample(run, SamplesIn(run, x), abort);
  }

  // ----- what the round then does -----

  lemma {:induction false} PairPutsKeepHistory(b: Bucket, puts: seq<Put>)
    requires forall p :: p in puts ==> p.PutTruth? || p.PutSweep?
    ensures ApplyAll(b, puts).history == b.history && ApplyAll(b, puts).latest == b.latest
  {
    if puts != [] { PairPutsKeepHistory(b, puts[..|puts| - 1]); }
  }

  lemma StoppedPlan(b: Bucket, run: Run, error: PipelineError)
    requires Sources(run).Ok? && StrictlyAscending(run.config.efGrid)
    requires EndsWith(run, PendingOf(b, run)) == Some(Stopping(error))
    ensures Plan(b, run) == RoundPlan(MeasuringOf(b, run).puts, Err(error))
  {
    PlanIs(b, run);
    hide Plan, Sources, Jobs, MeasuringOf, PendingOf, EndsWith, OutdatedPairs;
  }

  lemma OnlyPairs(b: Bucket, run: Run)
    requires Sources(run).Ok?
    ensures forall p :: p in MeasuringOf(b, run).puts ==> p.PutTruth? || p.PutSweep?
  {
    PairPutsOnly(run, Scanned(b, run.config, Jobs(run)).compatible, PendingOf(b, run));
    hide Sources, Jobs, Scanned, MeasurePending;
  }

  /** The database breaks off at sample `j` of `x`, which measuring reaches: the connection is lost, or the
      round is cancelled. */
  predicate BreaksOff(b: Bucket, run: Run, x: SourcePart, j: nat, error: PipelineError)
    requires Sources(run).Ok?
  {
    && Reaches(b, run, x, j)
    && match error
       case Disconnected(partUlid) =>
         partUlid == x.listed.partUlid && AnswerFor(run, SamplesIn(run, x)[j]) == Some(ConnectionLost)
       case Cancelled => AnswerFor(run, SamplesIn(run, x)[j]) == Some(CancelledBeforeTransaction)
       case _ => false
  }

  lemma BrokenEnding(b: Bucket, run: Run, x: SourcePart, j: nat, error: PipelineError)
    requires Sources(run).Ok? && BreaksOff(b, run, x, j, error)
    ensures EndsWith(run, PendingOf(b, run)) == Some(Stopping(error))
  {
    hide Sources, PendingOf, EndsWith, SamplesIn, Reaches;
    StopsAt(b, run, x, j);
    PhaseEndsAt(b, run, x, j);
  }

  lemma StopsAt(b: Bucket, run: Run, x: SourcePart, j: nat)
    requires Sources(run).Ok? && Reaches(b, run, x, j) && AnswerFor(run, SamplesIn(run, x)[j]).Some?
    requires var answer := AnswerFor(run, SamplesIn(run, x)[j]).value;
             answer.ConnectionLost? || answer.CancelledBeforeTransaction?
    ensures !GoesOn(run, SamplesIn(run, x)[j])
  {
    hide Sources, PendingOf, SamplesIn, AllGoOn, AnswerFor;
  }

  /** When the connection is lost, or the round cancelled, at a sample that measuring reaches, the round
      fails with that very error and leaves every published record as it was, whatever the store held and
      however far its writes got. */
  lemma BrokenOffPublishesNothing(b: Bucket, run: Run, budget: nat, x: SourcePart, j: nat, error: PipelineError)
    requires Sources(run).Ok? && StrictlyAscending(run.config.efGrid) && BreaksOff(b, run, x, j, error)
    ensures OutcomeAfter(b, run, budget) == Err(if budget >= |Plan(b, run).puts| then error else Interrupted)
    ensures After(b, run, budget).latest == b.latest && After(b, run, budget).history == b.history
  {
    hide Sources, PendingOf, EndsWith, BreaksOff, Plan, After, OutcomeAfter, StrictlyAscending;
    BrokenEnding(b, run, x, j, error);
    StoppedRound(b, run, budget, error);
  }

  lemma StoppedRound(b: Bucket, run: Run, budget: nat, error: PipelineError)
    requires Sources(run).Ok? && StrictlyAscending(run.config.efGrid)
    requires EndsWith(run, PendingOf(b, run)) == Some(Stopping(error))
    ensures OutcomeAfter(b, run, budget) == Err(if budget >= |Plan(b, run).puts| then error else Interrupted)
    ensures After(b, run, budget).latest == b.latest && After(b, run, budget).history == b.history
  {
    hide Sources, Jobs, MeasuringOf, PendingOf, EndsWith, Plan, ApplyAll, StrictlyAscending;
    StoppedPlan(b, run, error);
    OnlyPairs(b, run);
    PairPutsKeepHistory(b, Cut(MeasuringOf(b, run).puts, budget));
  }

  lemma RecordError(input: AggregationInput)
    requires Aggregate(input).Ok?
    ensures Aggregate(input).value.error == input.phaseAAbort
    ensures input.phaseAAbort.Some? ==> Aggregate(input).value.status == InsufficientSamples
  {
    ComputedDecision(input);
    hide Compute, Latency, WindowOf, Effective, PreviousEffective, TargetOf;
  }

  /** Measuring reaches sample `j` of `x`, and the database finds the table too small for it. */
  predicate TooSmallAt(b: Bucket, run: Run, x: SourcePart, j: nat, returned: nat)
    requires Sources(run).Ok?
  {
    Reaches(b, run, x, j) && AnswerFor(run, SamplesIn(run, x)[j]) == Some(TooFewRows(returned))
  }

  predicate AllAnswersGoOn(b: Bucket, run: Run)
    requires Sources(run).Ok?
  {
    forall x :: x in PendingOf(b, run) ==> AllGoOn(run, SamplesIn(run, x))
  }

  /** A record says of the database what the database said: it has an error exactly when some answer on
      the way found the table too small, and then repeats that answer and is one of insufficient samples.
      Without it every answer let the round go on. */
  ghost predicate ErrorExplained(b: Bucket, run: Run, out: RoundOutput)
    requires Sources(run).Ok?
  {
    && (out.error.None? <==> AllAnswersGoOn(b, run))
    && (out.error.Some? ==>
         (out.status == InsufficientSamples && out.error.value.k == run.config.k
         && exists x, j :: TooSmallAt(b, run, x, j, out.error.value.returned)))
  }

  lemma PublishedError(b: Bucket, run: Run, budget: nat)
    requires OutcomeAfter(b, run, budget).Ok?
    ensures Sources(run).Ok? && ErrorExplained(b, run, OutcomeAfter(b, run, budget).value)
  {
    PublishedGrid(b, run);
    PlanIs(b, run);
    var m := MeasuringOf(b, run);
    hide Sources, Jobs, MeasuringOf, PendingOf, EndsWith, Plan, TooSmallAt, AllAnswersGoOn, OutdatedPairs, Aggregate,
         InputOf;
    FinishedEnding(b, run, OutdatedPairs(b, run), m);
    EveryAnswerGoesOn(b, run);
    var abort := if m.ended.Some? then Some(m.ended.value.abort) else None;
    PublishedWith(b, run, OutdatedPairs(b, run), m, abort);
    if abort.Some? { WasTooSmall(b, run, abort.value); }
  }

  lemma EveryAnswerGoesOn(b: Bucket, run: Run)
    requires Sources(run).Ok?
    ensures EndsWith(run, PendingOf(b, run)).None? <==> AllAnswersGoOn(b, run)
  {
    hide Sources, PendingOf, EndsWith, SamplesIn, AllGoOn;
    PhaseGoesOn(b, run);
  }

  lemma WasTooSmall(b: Bucket, run: Run, abort: PhaseAAbort)
    requires Sources(run).Ok? && EndsWith(run, PendingOf(b, run)) == Some(Aborting(abort))
    ensures abort.k == run.config.k && exists x, j :: TooSmallAt(b, run, x, j, abort.returned)
  {
    hide Sources, PendingOf, EndsWith, SamplesIn, AnswerFor, Reaches;
    var x, j := AbortWasReached(b, run, abort);
    assert TooSmallAt(b, run, x, j, abort.returned);
  }

  lemma PublishedWith(b: Bucket, run: Run, n: nat, m: Measuring, abort: Option<PhaseAAbort>)
    requires Sources(run).Ok? && Finish(b, run, Jobs(run), n, m).outcome.Ok?
    requires m.ended == match abort case None => None case Some(a) => Some(Aborting(a))
    ensures var out := Finish(b, run, Jobs(run), n, m).outcome.value;
            out.error == abort && (abort.Some? ==> out.status == InsufficientSamples)
  {
    RecordError(InputOf(run, Previous(b), Jobs(run), n, abort, m.compatible));
    hide Sources, Jobs, Aggregate;
  }

  // ----- the published records -----

  /** Every other round end keeps its history. */
  ghost predicate OthersKept(b: Bucket, b': Bucket, roundEnd: nat) {
    forall e :: e != roundEnd ==>
      (e in b'.history <==> e in b.history) && (e in b.history ==> b'.history[e] == b.history[e])
  }

  predicate InHistory(b: Bucket, roundEnd: nat, out: RoundOutput) {
    roundEnd in b.history && b.history[roundEnd] == Readable(out)
  }

  predicate SameHistoryAt(b: Bucket, b': Bucket, roundEnd: nat) {
    (roundEnd in b'.history <==> roundEnd in b.history)
    && (roundEnd in b.history ==> b'.history[roundEnd] == b.history[roundEnd])
  }

  /** The published records after a round that was `through` with its planned writes, or was cut short. */
  ghost predicate RecordsLeft(b: Bucket, b': Bucket, roundEnd: nat, plan: RoundPlan, through: bool) {
    && OthersKept(b, b', roundEnd)
    && if through && plan.outcome.Ok? then
         InHistory(b', roundEnd, plan.outcome.value) && b'.latest == Some(Readable(plan.outcome.value))
       else
         && b'.latest == b.latest
         && (SameHistoryAt(b, b', roundEnd) || (plan.outcome.Ok? && InHistory(b', roundEnd, plan.outcome.value)))
  }

  /** A published record is in the history under its own round end, and is the latest. A round cut short
      leaves the latest record alone and may at most have put its record in the history. No round touches
      the history of another round end. */
  lemma RecordsAfter(b: Bucket, run: Run, budget: nat)
    ensures RecordsLeft(b, After(b, run, budget), run.roundEnd, Plan(b, run), budget >= |Plan(b, run).puts|)
  {
    hide Sources, Scanned, MeasurePending, Finish, ApplyAll, RecordsLeft;
    if Sources(run).Ok? {
      OnlyPairs(b, run);
      FinishedRecords(b, run, Scanned(b, run.config, Jobs(run)).incompatible, MeasuringOf(b, run), budget);
    } else {
      NothingPlanned(b, run, budget);
    }
  }

  lemma NothingPlanned(b: Bucket, run: Run, budget: nat)
    requires Sources(run).Err?
    ensures RecordsLeft(b, After(b, run, budget), run.roundEnd, Plan(b, run), budget >= |Plan(b, run).puts|)
  {
    hide Sources, ApplyAll;
    NothingApplied(b);
  }

  lemma FinishedRecords(b: Bucket, run: Run, n: nat, m: Measuring, budget: nat)
    requires Sources(run).Ok? && forall p :: p in m.puts ==> p.PutTruth? || p.PutSweep?
    ensures var plan := Finish(b, run, Jobs(run), n, m);
            RecordsLeft(b, ApplyAll(b, Cut(plan.puts, budget)), run.roundEnd, plan, budget >= |plan.puts|)
  {
    hide ApplyAll, Sources, Jobs, InputOf, Aggregate;
    var plan := Finish(b, run, Jobs(run), n, m);
    PairPutsKeepHistory(b, m.puts);
    PairPutsKeepHistory(b, Cut(m.puts, budget));
    FinishExtends(b, run, Jobs(run), n, m);
    if budget < |m.puts| {
      assert plan.puts[..budget] == m.puts[..budget];
    } else if plan.outcome.Ok? {
      var history, latest := PutHistory(run.roundEnd, plan.outcome.value), PutLatest(plan.outcome.value);
      assert plan.puts == m.puts + [history, latest];
      CutExtends(b, m.puts, history, latest, budget);
    } else {
      assert plan.puts == m.puts;
    }
  }
}
