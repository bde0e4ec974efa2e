/** A round that resumes interrupted ones publishes what one uninterrupted round would have. */
module Resume {
  import opened Wrappers
  import opened Bytes
  import opened Model
  import opened Ordered
  import opened Population
  import opened Aggregation
  import opened Accounting
  import opened AggregationLaws
  import opened Intermediate
  import opened Measure
  import opened Measurement
  import opened Pipeline
  import opened Phases

  // ----- rounds that only differ in when they ran and where they broke off -----

  predicate Agrees(answer: SampleOutcome, reference: SampleOutcome) {
    answer == reference || answer.ConnectionLost? || answer.CancelledBeforeTransaction?
  }

  /** `r` runs the same configuration with a measurer that answers like the reference's, unless it
      breaks off. It may have listed other segments, as long as none was rewritten in between. */
  ghost predicate SameSetup(r: Run, reference: Run) {
    && r.config == reference.config && NeverRewritten(r.objects, reference.objects)
    && forall v :: Agrees(r.measurer(v, r.config), reference.measurer(v, r.config))
  }

  function At(m: MeasuredPart, t: U64): MeasuredPart {
    m.(metadata := m.metadata.(computedAtUs := t))
  }

  predicate SameUnlessBroken(p: Result<Progress, Stop>, reference: Result<Progress, Stop>) {
    p == reference || p == Err(ConnectionUnavailable) || p == Err(MeasuringCancelled)
  }

  lemma {:induction false} SamplesAgree(samples: seq<PreparedSample>, r: Run, reference: Run)
    requires SameSetup(r, reference)
    ensures SameUnlessBroken(MeasureSamples(samples, r.config, r.measurer),
                             MeasureSamples(samples, r.config, reference.measurer))
  {
    hide SweepRows, TruthRow, Consistent;
    if samples != [] {
      var n := |samples| - 1;
      SamplesAgree(samples[..n], r, reference);
      if Measurable(samples[n]) {
        assert Agrees(r.measurer(samples[n].vector.value, r.config),
                      reference.measurer(samples[n].vector.value, r.config));
      }
    }
  }

  /** A measured source part is the same in every run, but for the time it is stamped with. */
  lemma SourcesAgree(r: Run, reference: Run, x: SourcePart)
    requires SameSetup(r, reference)
    ensures MeasureSource(r, x).Ok? ==>
      (MeasureSource(reference, x).Ok?
       && MeasureSource(r, x).value == At(MeasureSource(reference, x).value, r.computedAtUs))
  {
    hide Prepared, MeasureSamples;
    var prepared := Prepared(x.bytes, r.config.cohort, x.listed.windowStart, r.config.storageWindow);
    if prepared.Ok? { SamplesAgree(prepared.value.samples, r, reference); }
  }

  function RunAt(run: Run, t: U64): Run { run.(computedAtUs := t) }

  lemma MeasuredAtTime(run: Run, x: SourcePart, t: U64)
    requires MeasureSource(run, x).Ok?
    ensures MeasureSource(RunAt(run, t), x) == Ok(At(MeasureSource(run, x).value, t))
    ensures Timeless(PartFrom(RunAt(run, t), x)) == Timeless(PartFrom(run, x))
  {
    hide Prepared, MeasureSamples, Joined;
  }

  // ----- what interrupted rounds leave behind -----

  predicate Intact(b0: Bucket, b: Bucket, x: SourcePart) {
    SameTruth(b0, b, SlotOf(x)) && SameSweep(b0, b, SlotOf(x))
  }

  predicate TouchedAt(b0: Bucket, b: Bucket, reference: Run, x: SourcePart, t: U64)
    requires MeasureSource(reference, x).Ok?
  {
    var m := At(MeasureSource(reference, x).value, t);
    HoldsTruth(b, SlotOf(x), m) && (SameSweep(b0, b, SlotOf(x)) || HoldsSweep(b, SlotOf(x), m))
  }

  /** The pair of `x` was missing, and has since been measured: completely, or up to its truth file. */
  predicate Touched(b0: Bucket, b: Bucket, reference: Run, times: set<U64>, x: SourcePart) {
    && !Look(b0, reference.config, x).Usable?
    && MeasureSource(reference, x).Ok?
    && exists t :: t in times && TouchedAt(b0, b, reference, x, t)
  }

  predicate Aborts(reference: Run, x: SourcePart) {
    MeasureSource(reference, x).Err? && MeasureSource(reference, x).error.Aborting?
  }

  /** No missing part up to `x` makes the round abort. */
  predicate BeforeAbort(b0: Bucket, reference: Run, x: SourcePart)
    requires Sources(reference).Ok?
  {
    forall y :: y in Jobs(reference) && y.listed.partUlid <= x.listed.partUlid ==>
      Look(b0, reference.config, y).Usable? || !Aborts(reference, y)
  }

  /** Every part of the reference round is as it was, or measured in its turn. */
  predicate Progressed(b0: Bucket, b: Bucket, reference: Run, times: set<U64>, inTurn: bool)
    requires Sources(reference).Ok?
  {
    forall x :: x in Jobs(reference) ==>
      Intact(b0, b, x) || (Touched(b0, b, reference, times, x) && (inTurn ==> BeforeAbort(b0, reference, x)))
  }

  /** None of the times is one an initial sweep file was stamped with. */
  predicate Fresh(b0: Bucket, reference: Run, times: set<U64>)
    requires Sources(reference).Ok?
  {
    forall x :: x in Jobs(reference) && SlotOf(x) in b0.sweeps && b0.sweeps[SlotOf(x)].Readable? ==>
      b0.sweeps[SlotOf(x)].value.metadata.computedAtUs !in times
  }

  lemma LookIntact(b0: Bucket, b: Bucket, config: AggregationConfig, x: SourcePart)
    requires Intact(b0, b, x)
    ensures Look(b, config, x) == Look(b0, config, x)
  {
    hide ReadPair, MatchesSource, IsCompatible;
  }

  lemma JobFrom(run: Run, x: SourcePart)
    requires Sources(run).Ok? && x in Jobs(run)
    ensures x.listed.partUlid in Sources(run).value && Sources(run).value[x.listed.partUlid] == x
    ensures var p := Prepared(x.bytes, run.config.cohort, x.listed.windowStart, run.config.storageWindow);
            p.Ok? && x.listed == HeaderOf(x.listed.partUlid, p.value) && p.value.cohort == run.config.cohort
  {
    SourcesExact(run);
    JobsExact(run);
    hide Sources, Jobs, Prepared, WindowStarts;
    var starts := WindowStarts(run.roundEnd, run.config.windowDuration, run.config.storageWindow).value;
    var u := x.listed.partUlid;
    var i :| 0 <= i < |run.objects| && run.objects[i].windowStart in starts && run.objects[i].partUlid == Some(u);
    assert ComesFrom(x, run.objects[i], run.config.cohort, run.config.storageWindow);
    PreparedWindow(run.objects[i].bytes, run.config.cohort, run.objects[i].windowStart, run.config.storageWindow);
  }

  /** A complete pair is used as the reference round would have measured it; a torn one is not. */
  lemma LookTouched(b0: Bucket, b: Bucket, reference: Run, times: set<U64>, x: SourcePart, t: U64)
    requires Sources(reference).Ok? && x in Jobs(reference) && StrictlyAscending(reference.config.efGrid)
    requires MeasureSource(reference, x).Ok? && TouchedAt(b0, b, reference, x, t) && t in times
    requires Fresh(b0, reference, times)
    ensures Look(b, reference.config, x) == NotUsable
            || (Look(b, reference.config, x).Usable?
                && Timeless(Look(b, reference.config, x).part) == Timeless(PartFrom(reference, x)))
    ensures Look(b, reference.config, x).Usable? || SameSweep(b0, b, SlotOf(x))
  {
    var run := RunAt(reference, t);
    MeasuredAtTime(reference, x, t);
    hide TruthFileOf, SweepFileOf;
    MeasuredReadsBack(run, x);
    JobFrom(reference, x);
    MatchesOwnSource(run, x);
    var m := At(MeasureSource(reference, x).value, t);
    if HoldsSweep(b, SlotOf(x), m) {
      assert PairAt(b, SlotOf(x)) == Some(PartFrom(run, x));
    } else {
      TornUnreadable(b0, b, reference, times, x, t);
    }
  }

  lemma MatchesOwnSource(run: Run, x: SourcePart)
    requires MeasureSource(run, x).Ok?
    requires var p := Prepared(x.bytes, run.config.cohort, x.listed.windowStart, run.config.storageWindow);
             p.Ok? && x.listed == HeaderOf(x.listed.partUlid, p.value) && p.value.cohort == run.config.cohort
    ensures MatchesSource(PartFrom(run, x), x, run.config.cohort)
  {
    hide Prepared, MeasureSamples, Joined;
  }

  lemma TornUnreadable(b0: Bucket, b: Bucket, reference: Run, times: set<U64>, x: SourcePart, t: U64)
    requires Sources(reference).Ok? && x in Jobs(reference) && MeasureSource(reference, x).Ok? && t in times
    requires HoldsTruth(b, SlotOf(x), At(MeasureSource(reference, x).value, t)) && SameSweep(b0, b, SlotOf(x))
    requires Fresh(b0, reference, times)
    ensures PairAt(b, SlotOf(x)) == None
  {
    hide MeasureSource, Jobs, Sources, TruthSamples, WithSweeps;
  }

  // ----- one interrupted attempt -----

  /** No missing part of the reference round makes it abort. */
  predicate NeverAborts(b0: Bucket, reference: Run)
    requires Sources(reference).Ok?
  {
    forall y :: y in Jobs(reference) && !Look(b0, reference.config, y).Usable? ==> !Aborts(reference, y)
  }

  lemma NotUsableBefore(b0: Bucket, b: Bucket, reference: Run, times: set<U64>, inTurn: bool, x: SourcePart)
    requires Sources(reference).Ok? && x in Jobs(reference) && StrictlyAscending(reference.config.efGrid)
    requires Progressed(b0, b, reference, times, inTurn) && Fresh(b0, reference, times)
    ensures !Look(b, reference.config, x).Usable? ==>
            !Look(b0, reference.config, x).Usable? && SameSweep(b0, b, SlotOf(x))
    ensures Look(b, reference.config, x).Usable? && !Look(b0, reference.config, x).Usable? ==>
      (MeasureSource(reference, x).Ok?
       && Timeless(Look(b, reference.config, x).part) == Timeless(PartFrom(reference, x))
       && (inTurn ==> BeforeAbort(b0, reference, x)))
    ensures Look(b0, reference.config, x).Usable? ==> Look(b, reference.config, x) == Look(b0, reference.config, x)
    ensures Look(b, reference.config, x).Outdated? ==> Look(b0, reference.config, x).Outdated? && Intact(b0, b, x)
  {
    hide Look, Jobs, Sources, MeasureSource, PartFrom, BeforeAbort;
    if Intact(b0, b, x) {
      LookIntact(b0, b, reference.config, x);
    } else {
      var t :| t in times && TouchedAt(b0, b, reference, x, t);
      LookTouched(b0, b, reference, times, x, t);
    }
  }

  /** The parts `r` rewrites among those of the reference round come in their turn. */
  lemma RewrittenInTurn(b0: Bucket, b: Bucket, r: Run, reference: Run, times: set<U64>, pending: seq<SourcePart>,
                        x: SourcePart)
    requires Sources(reference).Ok? && Sources(r).Ok? && StrictlyAscending(reference.config.efGrid)
             && SameSetup(r, reference)
    requires Progressed(b0, b, reference, times, true) && Fresh(b0, reference, times)
    requires Sources(r) == Sources(reference) || NeverAborts(b0, reference)
    requires PendingAs(pending, b, r.config, Jobs(r)) && BeforeBad(r, pending, x)
    ensures BeforeAbort(b0, reference, x)
  {
    hide Look, Sources, MeasureSource, PartFrom;
    if Sources(r) == Sources(reference) {
      forall y | y in Jobs(reference) && y.listed.partUlid <= x.listed.partUlid
        && !Look(b0, reference.config, y).Usable?
        ensures !Aborts(reference, y)
      {
        NotUsableBefore(b0, b, reference, times, true, y);
        if !Look(b, reference.config, y).Usable? {
          assert y in pending;
          SourcesAgree(r, reference, y);
        }
      }
    }
  }

  lemma SlotProgress(b0: Bucket, b: Bucket, b': Bucket, r: Run, reference: Run, times: set<U64>, inTurn: bool,
                     pending: seq<SourcePart>, x: SourcePart)
    requires Sources(reference).Ok? && Sources(r).Ok? && StrictlyAscending(reference.config.efGrid)
             && SameSetup(r, reference)
    requires Progressed(b0, b, reference, times, inTurn) && Fresh(b0, reference, times) && r.computedAtUs in times
    requires inTurn ==> Sources(r) == Sources(reference) || NeverAborts(b0, reference)
    requires PendingAs(pending, b, r.config, Jobs(r)) && SlotStep(b, b', r, pending, SlotOf(x)) && x in Jobs(reference)
    ensures Intact(b0, b', x) || (Touched(b0, b', reference, times, x) && (inTurn ==> BeforeAbort(b0, reference, x)))
  {
    hide Look, Sources, Jobs, MeasureSource, PartFrom, BeforeAbort;
    if SameTruth(b, b', SlotOf(x)) && SameSweep(b, b', SlotOf(x)) {
      if !Intact(b0, b, x) {
        var t :| t in times && TouchedAt(b0, b, reference, x, t);
        assert TouchedAt(b0, b', reference, x, t);
      }
    } else {
      var x' :| BeforeBad(r, pending, x') && SlotOf(x') == SlotOf(x) && Overwritten(b, b', r, x');
      JobFrom(reference, x);
      JobFrom(r, x');
      SameSource(r, reference, x.listed.partUlid);
      assert x' == x;
      NotUsableBefore(b0, b, reference, times, inTurn, x);
      if inTurn { RewrittenInTurn(b0, b, r, reference, times, pending, x); }
      SourcesAgree(r, reference, x);
      assert TouchedAt(b0, b', reference, x, r.computedAtUs);
    }
  }

  lemma MeasuringProgress(b0: Bucket, b: Bucket, r: Run, reference: Run, times: set<U64>, inTurn: bool, n: nat)
    requires Sources(reference).Ok? && Sources(r).Ok? && StrictlyAscending(reference.config.efGrid)
             && SameSetup(r, reference)
    requires Progressed(b0, b, reference, times, inTurn) && Fresh(b0, reference, times) && r.computedAtUs in times
    requires inTurn ==> Sources(r) == Sources(reference) || NeverAborts(b0, reference)
    requires var scan := Scanned(b, r.config, Jobs(r)); n <= |MeasurePending(r, scan.compatible, scan.pending).puts|
    ensures var scan := Scanned(b, r.config, Jobs(r));
            Progressed(b0, ApplyAll(b, MeasurePending(r, scan.compatible, scan.pending).puts[..n]), reference, times,
                       inTurn)
  {
    JobsExact(r);
    ScannedExact(b, r.config, Jobs(r));
    hide Look, Sources, Jobs, MeasureSource, PartFrom, BeforeAbort, Scanned, MeasurePending, ApplyAll, SlotStep;
    var scan := Scanned(b, r.config, Jobs(r));
    var b' := ApplyAll(b, MeasurePending(r, scan.compatible, scan.pending).puts[..n]);
    forall x | x in Jobs(reference)
      ensures Intact(b0, b', x) || (Touched(b0, b', reference, times, x) && (inTurn ==> BeforeAbort(b0, reference, x)))
    {
      assert UlidsAscend(scan.pending) by { PendingIsAscending(scan.pending, b, r.config, Jobs(r)); }
      PhaseSlots(b, r, scan.compatible, scan.pending, n, SlotOf(x));
      SlotProgress(b0, b, b', r, reference, times, inTurn, scan.pending, x);
    }
  }

  lemma PendingIsAscending(pending: seq<SourcePart>, b: Bucket, config: AggregationConfig, sources: seq<SourcePart>)
    requires PendingAs(pending, b, config, sources)
    ensures UlidsAscend(pending)
  {
  }

  /** An attempt that did not get as far as replacing the latest record. */
  predicate Unpublished(b: Bucket, r: Run, budget: nat) {
    OutcomeAfter(b, r, budget).Err?
  }

  function PendingOf(b: Bucket, run: Run): seq<SourcePart>
    requires Sources(run).Ok?
  {
    Scanned(b, run.config, Jobs(run)).pending
  }

  function MeasuringOf(b: Bucket, run: Run): Measuring
    requires Sources(run).Ok?
  {
    MeasurePending(run, Scanned(b, run.config, Jobs(run)).compatible, PendingOf(b, run))
  }

  /** What such an attempt wrote: part of its measuring phase, and perhaps a history record. */
  lemma UnpublishedWrites(b: Bucket, r: Run, budget: nat)
    requires Unpublished(b, r, budget)
    ensures Sources(r).Err? ==> After(b, r, budget) == b
    ensures Sources(r).Ok? ==> SamePairsAs(After(b, r, budget), b, MeasuringOf(b, r).puts, budget)
    ensures After(b, r, budget).latest == b.latest
  {
    hide Scanned, MeasurePending, ApplyAll, Sources, Finish;
    if Sources(r).Err? {
      NothingApplied(b);
    } else {
      var scan := Scanned(b, r.config, Jobs(r));
      PairPutsOnly(r, scan.compatible, scan.pending);
      FinishedWrites(b, r, scan.incompatible, MeasurePending(r, scan.compatible, scan.pending), budget);
    }
  }

  /** `b'` holds the pairs of `b` after a cut of `puts`. */
  predicate SamePairsAs(b': Bucket, b: Bucket, puts: seq<Put>, budget: nat) {
    var m := ApplyAll(b, Cut(puts, budget));
    b'.truths == m.truths && b'.sweeps == m.sweeps
  }

  lemma FinishedWrites(b: Bucket, r: Run, incompatible: nat, m: Measuring, budget: nat)
    requires Sources(r).Ok? && forall p :: p in m.puts ==> p.PutTruth? || p.PutSweep?
    ensures SamePairsAs(ApplyAll(b, Cut(Finish(b, r, Jobs(r), incompatible, m).puts, budget)), b, m.puts, budget)
    ensures var plan := Finish(b, r, Jobs(r), incompatible, m);
            ApplyAll(b, Cut(plan.puts, budget)).latest
            == (if budget >= |plan.puts| && plan.outcome.Ok? then Some(Readable(plan.outcome.value)) else b.latest)
  {
    hide ApplyAll, Sources, Jobs, InputOf, Aggregate;
    var plan := Finish(b, r, Jobs(r), incompatible, m);
    assert forall p :: p in Cut(m.puts, budget) ==> p in m.puts;
    PairPutsKeepLatest(b, Cut(m.puts, budget));
    FinishExtends(b, r, Jobs(r), incompatible, m);
    if budget < |m.puts| {
      assert plan.puts[..budget] == m.puts[..budget];
    } else if plan.outcome.Ok? {
      assert plan.puts == m.puts + [PutHistory(r.roundEnd, plan.outcome.value), PutLatest(plan.outcome.value)];
      CutExtends(b, m.puts, PutHistory(r.roundEnd, plan.outcome.value), PutLatest(plan.outcome.value), budget);
    } else {
      assert plan.puts == m.puts;
    }
  }

  /** The pairs a round leaves behind are those of its measuring phase. */
  lemma RoundPairs(b: Bucket, r: Run, budget: nat)
    requires Sources(r).Ok?
    ensures SamePairsAs(After(b, r, budget), b, MeasuringOf(b, r).puts, budget)
  {
    hide Scanned, MeasurePending, ApplyAll, Sources, Finish;
    var scan := Scanned(b, r.config, Jobs(r));
    PairPutsOnly(r, scan.compatible, scan.pending);
    FinishedWrites(b, r, scan.incompatible, MeasurePending(r, scan.compatible, scan.pending), budget);
  }

  // ----- any history of interrupted attempts -----

  datatype Attempt = Attempt(run: Run, budget: nat)

  function AfterAll(b0: Bucket, attempts: seq<Attempt>): Bucket {
    if attempts == [] then b0
    else After(AfterAll(b0, attempts[..|attempts| - 1]), attempts[|attempts| - 1].run, attempts[|attempts| - 1].budget)
  }

  /** An attempt of the reference round's setup, from `b`, that does not publish. */
  ghost predicate Interrupts(b0: Bucket, b: Bucket, a: Attempt, reference: Run, times: set<U64>, inTurn: bool)
    requires Sources(reference).Ok?
  {
    && SameSetup(a.run, reference) && a.run.computedAtUs in times
    && (inTurn ==> Sources(a.run) == Sources(reference) || NeverAborts(b0, reference))
    && Unpublished(b, a.run, a.budget)
  }

  ghost predicate AllInterrupted(b0: Bucket, attempts: seq<Attempt>, reference: Run, times: set<U64>, inTurn: bool)
    requires Sources(reference).Ok?
  {
    attempts == []
    || (var n := |attempts| - 1;
        AllInterrupted(b0, attempts[..n], reference, times, inTurn)
        && Interrupts(b0, AfterAll(b0, attempts[..n]), attempts[n], reference, times, inTurn))
  }

  lemma AttemptProgress(b0: Bucket, b: Bucket, a: Attempt, reference: Run, times: set<U64>, inTurn: bool)
    requires Sources(reference).Ok? && StrictlyAscending(reference.config.efGrid)
    requires Progressed(b0, b, reference, times, inTurn) && Fresh(b0, reference, times)
             && Interrupts(b0, b, a, reference, times, inTurn)
    ensures Progressed(b0, After(b, a.run, a.budget), reference, times, inTurn)
            && After(b, a.run, a.budget).latest == b.latest
  {
    hide Look, Sources, Jobs, MeasureSource, BeforeAbort, Scanned, MeasurePending, After, Touched;
    UnpublishedWrites(b, a.run, a.budget);
    if Sources(a.run).Ok? {
      var scan := Scanned(b, a.run.config, Jobs(a.run));
      var puts := MeasurePending(a.run, scan.compatible, scan.pending).puts;
      var n := if a.budget < |puts| then a.budget else |puts|;
      assert Cut(puts, a.budget) == puts[..n];
      MeasuringProgress(b0, b, a.run, reference, times, inTurn, n);
      hide ApplyAll;
      SamePairs(b0, ApplyAll(b, puts[..n]), After(b, a.run, a.budget), reference, times, inTurn);
    }
  }

  lemma SamePairs(b0: Bucket, b: Bucket, b': Bucket, reference: Run, times: set<U64>, inTurn: bool)
    requires Sources(reference).Ok? && Progressed(b0, b, reference, times, inTurn)
    requires b'.truths == b.truths && b'.sweeps == b.sweeps
    ensures Progressed(b0, b', reference, times, inTurn)
  {
    hide Look, Sources, Jobs, MeasureSource, BeforeAbort;
    forall x | x in Jobs(reference)
      ensures Intact(b0, b', x) || (Touched(b0, b', reference, times, x) && (inTurn ==> BeforeAbort(b0, reference, x)))
    {
      if !Intact(b0, b, x) {
        var t :| t in times && TouchedAt(b0, b, reference, x, t);
        assert TouchedAt(b0, b', reference, x, t);
      }
    }
  }

  lemma {:induction false} HistoryProgress(b0: Bucket, attempts: seq<Attempt>, reference: Run, times: set<U64>,
                                           inTurn: bool)
    requires Sources(reference).Ok? && StrictlyAscending(reference.config.efGrid)
    requires Fresh(b0, reference, times) && AllInterrupted(b0, attempts, reference, times, inTurn)
    ensures Progressed(b0, AfterAll(b0, attempts), reference, times, inTurn)
            && AfterAll(b0, attempts).latest == b0.latest
  {
    hide Sources, After, Interrupts, Touched, BeforeAbort, Fresh;
    if attempts != [] {
      var n := |attempts| - 1;
      HistoryProgress(b0, attempts[..n], reference, times, inTurn);
      AttemptProgress(b0, AfterAll(b0, attempts[..n]), attempts[n], reference, times, inTurn);
      hide Progressed;
    }
  }

  // ----- the round that completes -----

  lemma {:induction false} FirstBad(run: Run, pending: seq<SourcePart>) returns (x: SourcePart)
    requires UlidsAscend(pending) && EndsWith(run, pending).Some?
    ensures x in pending && MeasureSource(run, x) == Err(EndsWith(run, pending).value)
    ensures forall y :: y in pending && y.listed.partUlid < x.listed.partUlid ==> MeasureSource(run, y).Ok?
  {
    hide MeasureSource;
    var rest, last := pending[..|pending| - 1], pending[|pending| - 1];
    assert pending == rest + [last];
    EndsExactly(run, rest);
    if EndsWith(run, rest).Some? {
      x := FirstBad(run, rest);
      RestBelow(rest, last, x);
    } else {
      x := last;
    }
  }

  lemma EndsWithFirst(run: Run, pending: seq<SourcePart>, x: SourcePart)
    requires UlidsAscend(pending) && x in pending && MeasureSource(run, x).Err?
    requires forall y :: y in pending && y.listed.partUlid < x.listed.partUlid ==> MeasureSource(run, y).Ok?
    ensures EndsWith(run, pending) == Some(MeasureSource(run, x).error)
  {
    hide MeasureSource, EndsWith;
    EndsExactly(run, pending);
    var z := FirstBad(run, pending);
    SameUlid(pending, x, z);
  }

  lemma SameUlid(s: seq<SourcePart>, x: SourcePart, y: SourcePart)
    requires UlidsAscend(s) && x in s && y in s && x.listed.partUlid == y.listed.partUlid
    ensures x == y
  {
    var i :| 0 <= i < |s| && s[i] == x;
    var j :| 0 <= j < |s| && s[j] == y;
  }

  /** Every part measured meanwhile is one the reference round would have got to before aborting. */
  predicate InTurn(b0: Bucket, b: Bucket, reference: Run)
    requires Sources(reference).Ok?
  {
    forall x :: x in Jobs(reference) && Look(b, reference.config, x).Usable? ==>
      Look(b0, reference.config, x).Usable? || BeforeAbort(b0, reference, x)
  }

  /** The completing round: it starts from progress on what the reference round starts from. */
  predicate Continues(b0: Bucket, b: Bucket, reference: Run, times: set<U64>)
  {
    && Sources(reference).Ok? && StrictlyAscending(reference.config.efGrid)
    && Progressed(b0, b, reference, times, false) && Fresh(b0, reference, times)
  }

  lemma PendingExact(b: Bucket, run: Run)
    requires Sources(run).Ok?
    ensures UlidsAscend(Jobs(run)) && UlidsAscend(PendingOf(b, run))
    ensures forall x :: x in PendingOf(b, run) ==> x in Jobs(run) && !Look(b, run.config, x).Usable?
    ensures forall x :: x in Jobs(run) && !Look(b, run.config, x).Usable? ==> x in PendingOf(b, run)
  {
    JobsExact(run);
    hide Sources, Jobs, Look, Scanned;
    ScannedExact(b, run.config, Jobs(run));
  }

  /** The resumed round aborts, stops or completes its measuring phase as the reference round does. */
  lemma SameEnding(b0: Bucket, b: Bucket, reference: Run, times: set<U64>)
    requires Continues(b0, b, reference, times)
    ensures EndsWith(reference, PendingOf(b, reference)) == EndsWith(reference, PendingOf(b0, reference))
  {
    PendingExact(b0, reference);
    PendingExact(b, reference);
    hide Look, Sources, Jobs, PendingOf, MeasureSource, PartFrom, BeforeAbort, EndsWith, Progressed, Fresh;
    var p0, p := PendingOf(b0, reference), PendingOf(b, reference);
    forall x | x in p ensures x in p0 { NotUsableBefore(b0, b, reference, times, false, x); }
    EndsExactly(reference, p0);
    EndsExactly(reference, p);
    if EndsWith(reference, p0).Some? {
      var x := FirstBad(reference, p0);
      NotUsableBefore(b0, b, reference, times, false, x);
      EndsWithFirst(reference, p, x);
    }
  }

  /** A part is in the resumed round's pairs exactly when it is in the reference round's, and was
      measured to the same answers. */
  lemma SamePart(b0: Bucket, b: Bucket, reference: Run, times: set<U64>, x: SourcePart)
    requires Continues(b0, b, reference, times) && x in Jobs(reference)
    requires Look(b, reference.config, x).Usable? && !Look(b0, reference.config, x).Usable? ==>
             BeforeAbort(b0, reference, x)
    requires var e := EndsWith(reference, PendingOf(b0, reference)); e.None? || e.value.Aborting?
    ensures var c0, c, u := MeasuringOf(b0, reference).compatible, MeasuringOf(b, reference).compatible,
            x.listed.partUlid;
            && (u in c0 <==> u in c)
            && (u in c0 ==> Timeless(c0[u]) == Timeless(c[u]))
  {
    PartAt(b0, reference, x);
    PartAt(b, reference, x);
    PendingExact(b0, reference);
    PendingExact(b, reference);
    NotUsableBefore(b0, b, reference, times, false, x);
    hide Look, Sources, Jobs, PendingOf, MeasuringOf, MeasureSource, PartFrom, EndsWith, Progressed, Fresh;
    var p0, p := PendingOf(b0, reference), PendingOf(b, reference);
    if !Look(b0, reference.config, x).Usable? {
      if Look(b, reference.config, x).Usable? {
        MeasuredInTurn(b0, reference, x);
      } else {
        forall y | y in p && y.listed.partUlid <= x.listed.partUlid && BeforeBad(reference, p0, x)
          ensures MeasureSource(reference, y).Ok?
        {
          NotUsableBefore(b0, b, reference, times, false, y);
        }
        forall y | y in p0 && y.listed.partUlid <= x.listed.partUlid && BeforeBad(reference, p, x)
          ensures MeasureSource(reference, y).Ok?
        {
          NotUsableBefore(b0, b, reference, times, false, y);
        }
      }
    }
  }

  /** What the measuring phase makes of one part. */
  lemma PartAt(b: Bucket, run: Run, x: SourcePart)
    requires Sources(run).Ok? && StrictlyAscending(run.config.efGrid) && x in Jobs(run)
    ensures var c, u, found := MeasuringOf(b, run).compatible, x.listed.partUlid, Look(b, run.config, x);
            && (u in c <==> found.Usable? || BeforeBad(run, PendingOf(b, run), x))
            && (found.Usable? ==> c[u] == found.part)
            && (!found.Usable? && u in c ==> MeasureSource(run, x).Ok? && c[u] == PartFrom(run, x))
  {
    JobsExact(run);
    ScannedExact(b, run.config, Jobs(run));
    PendingExact(b, run);
    hide Look, Sources, Jobs, MeasureSource, PartFrom, Scanned, MeasurePending;
    var scan := Scanned(b, run.config, Jobs(run));
    if Look(b, run.config, x).Usable? {
      forall y | y in scan.pending ensures y.listed.partUlid != x.listed.partUlid {
        if y.listed.partUlid == x.listed.partUlid { SameUlid(Jobs(run), x, y); }
      }
      MeasuredElsewhere(run, scan.compatible, scan.pending, x.listed.partUlid);
    } else {
      assert x.listed.partUlid !in scan.compatible by {
        forall y | y in Jobs(run) && y.listed.partUlid == x.listed.partUlid
          ensures y == x { SameUlid(Jobs(run), x, y); }
      }
      MeasuredAt(run, scan.compatible, scan.pending, x);
      OnlyPending(run, scan.pending, x);
    }
  }

  lemma MeasuredInTurn(b0: Bucket, reference: Run, x: SourcePart)
    requires Sources(reference).Ok? && x in Jobs(reference) && x in PendingOf(b0, reference)
    requires BeforeAbort(b0, reference, x)
    requires var e := EndsWith(reference, PendingOf(b0, reference)); e.None? || e.value.Aborting?
    ensures BeforeBad(reference, PendingOf(b0, reference), x)
  {
    PendingExact(b0, reference);
    hide Look, Sources, Jobs, PendingOf, MeasureSource, EndsWith;
    var p0 := PendingOf(b0, reference);
    EndsExactly(reference, p0);
    if EndsWith(reference, p0).Some? {
      var z := FirstBad(reference, p0);
      assert Aborts(reference, z);
      assert z.listed.partUlid > x.listed.partUlid;
    }
  }

  lemma KeyIsJob(b: Bucket, run: Run, u: nat)
    requires Sources(run).Ok? && u in MeasuringOf(b, run).compatible
    ensures exists x :: x in Jobs(run) && x.listed.partUlid == u
  {
    JobsExact(run);
    ScannedExact(b, run.config, Jobs(run));
    PendingExact(b, run);
    hide Look, Sources, Jobs, MeasureSource, Scanned, MeasurePending;
    var scan := Scanned(b, run.config, Jobs(run));
    if x :| x in scan.pending && x.listed.partUlid == u {
      assert x in Jobs(run);
    } else {
      MeasuredElsewhere(run, scan.compatible, scan.pending, u);
    }
  }

  /** All pairs a round aggregates are compatible and filed under their own ULID. */
  lemma PairsAreKeyed(b: Bucket, run: Run)
    requires Sources(run).Ok? && StrictlyAscending(run.config.efGrid)
    ensures KeyedByUlid(MeasuringOf(b, run).compatible)
    ensures forall u :: u in MeasuringOf(b, run).compatible ==>
            IsCompatible(run.config, MeasuringOf(b, run).compatible[u])
  {
    hide Sources, Jobs, MeasureSource, MeasuringOf, PartFrom, IsCompatible;
    var c := MeasuringOf(b, run).compatible;
    forall u | u in c ensures c[u].metadata.partUlid == u && IsCompatible(run.config, c[u]) {
      KeyIsJob(b, run, u);
      var x :| x in Jobs(run) && x.listed.partUlid == u;
      PartAt(b, run, x);
      if Look(b, run.config, x).Usable? {
        UsableMatches(b, run.config, x);
      } else {
        MeasuredKeyed(run, x);
      }
    }
  }

  lemma UsableMatches(b: Bucket, config: AggregationConfig, x: SourcePart)
    requires Look(b, config, x).Usable?
    ensures Look(b, config, x).part.metadata.partUlid == x.listed.partUlid
            && IsCompatible(config, Look(b, config, x).part)
  {
    hide PairAt, IsCompatible;
  }

  lemma MeasuredKeyed(run: Run, x: SourcePart)
    requires MeasureSource(run, x).Ok? && StrictlyAscending(run.config.efGrid)
    ensures PartFrom(run, x).metadata.partUlid == x.listed.partUlid && IsCompatible(run.config, PartFrom(run, x))
  {
    hide MeasureSource, ReadPair, IsCompatible, Joined;
    MeasuredReadsBack(run, x);
  }

  lemma SameParts(b0: Bucket, b: Bucket, reference: Run, times: set<U64>)
    requires Continues(b0, b, reference, times) && InTurn(b0, b, reference)
    requires var e := EndsWith(reference, PendingOf(b0, reference)); e.None? || e.value.Aborting?
    ensures var c0, c := MeasuringOf(b0, reference).compatible, MeasuringOf(b, reference).compatible;
            c0.Keys == c.Keys && forall u :: u in c0 ==> Timeless(c0[u]) == Timeless(c[u])
  {
    hide Look, Sources, Jobs, PendingOf, MeasuringOf, MeasureSource, EndsWith, Progressed, Fresh, Timeless;
    var c0, c := MeasuringOf(b0, reference).compatible, MeasuringOf(b, reference).compatible;
    forall u | u in c0 ensures u in c && Timeless(c0[u]) == Timeless(c[u]) {
      KeyIsJob(b0, reference, u);
      var x :| x in Jobs(reference) && x.listed.partUlid == u;
      SamePart(b0, b, reference, times, x);
    }
    forall u | u in c ensures u in c0 {
      KeyIsJob(b, reference, u);
      var x :| x in Jobs(reference) && x.listed.partUlid == u;
      SamePart(b0, b, reference, times, x);
    }
  }

  /** How many in-scope pairs of another configuration the round finds. */
  function OutdatedPairs(b: Bucket, run: Run): nat
    requires Sources(run).Ok?
  {
    CountOutdated(b, run.config, Jobs(run))
  }

  lemma {:induction false} FewerOutdated(b0: Bucket, b: Bucket, reference: Run, times: set<U64>,
                                         sources: seq<SourcePart>)
    requires Continues(b0, b, reference, times) && forall x :: x in sources ==> x in Jobs(reference)
    ensures CountOutdated(b, reference.config, sources) <= CountOutdated(b0, reference.config, sources)
    ensures CountOutdated(b, reference.config, sources) == CountOutdated(b0, reference.config, sources) <==>
            forall x :: x in sources && Look(b0, reference.config, x).Outdated? ==>
              Look(b, reference.config, x).Outdated?
  {
    hide Look, Sources, Jobs, Progressed, Fresh;
    if sources != [] {
      var rest, last := sources[..|sources| - 1], sources[|sources| - 1];
      assert sources == rest + [last];
      FewerOutdated(b0, b, reference, times, rest);
      NotUsableBefore(b0, b, reference, times, false, last);
    }
  }

  lemma PlanIs(b: Bucket, run: Run)
    requires Sources(run).Ok? && StrictlyAscending(run.config.efGrid)
    ensures Plan(b, run) == Finish(b, run, Jobs(run), OutdatedPairs(b, run), MeasuringOf(b, run))
    ensures MeasuringOf(b, run).ended == EndsWith(run, PendingOf(b, run))
  {
    JobsExact(run);
    ScannedExact(b, run.config, Jobs(run));
    var scan := Scanned(b, run.config, Jobs(run));
    MeasuringEnds(run, scan.compatible, scan.pending);
    hide Look, Sources, MeasureSource, Scanned, MeasurePending, Finish, EndsWith;
  }

  lemma PublishedGrid(b: Bucket, run: Run)
    requires Plan(b, run).outcome.Ok?
    ensures Sources(run).Ok? && StrictlyAscending(run.config.efGrid)
  {
    hide Sources, Scanned, MeasurePending, Account, DistinctIntermediates, TallyParts, Decide, Publish, SplitThreshold,
         PopulationOf, InOrder;
  }

  lemma SameRecord(b0: Bucket, b: Bucket, run: Run, m0: Measuring, m: Measuring, n0: nat, n: nat,
                   sources: seq<SourcePart>)
    requires Previous(b) == Previous(b0) && m.ended == m0.ended
    requires KeyedByUlid(m0.compatible) && KeyedByUlid(m.compatible)
    requires forall u :: u in m.compatible ==> IsCompatible(run.config, m.compatible[u])
    requires m0.compatible.Keys == m.compatible.Keys
    requires forall u :: u in m0.compatible ==> Timeless(m0.compatible[u]) == Timeless(m.compatible[u])
    requires Finish(b0, run, sources, n0, m0).outcome.Ok?
    ensures Finish(b, run, sources, n, m).outcome
            == Ok(Finish(b0, run, sources, n0, m0).outcome.value.(incompatibleParts := n))
    ensures Finish(b0, run, sources, n0, m0).outcome.value.incompatibleParts == n0
  {
    hide Aggregate, InOrder, IsCompatible, KeyedByUlid, Timeless, ListedOf, Previous;
    var abort := if m0.ended.Some? then Some(m0.ended.value.abort) else None;
    var input := InputOf(run, Previous(b0), sources, n0, abort, m.compatible);
    AggregationIgnoresMeasureTime(input, m0.compatible, m.compatible);
    assert input.(intermediates := InOrder(m0.compatible))
      == InputOf(run, Previous(b0), sources, n0, abort, m0.compatible);
    AggregationShift(input, m.compatible, n);
    assert input.(phaseAIncompatibleParts := n) == InputOf(run, Previous(b), sources, n, abort, m.compatible);
  }

  lemma ContinuesAfter(b0: Bucket, attempts: seq<Attempt>, reference: Run, times: set<U64>)
    requires Plan(b0, reference).outcome.Ok? && Sources(reference).Ok?
    requires Fresh(b0, reference, times) && AllInterrupted(b0, attempts, reference, times, false)
    ensures Continues(b0, AfterAll(b0, attempts), reference, times) && AfterAll(b0, attempts).latest == b0.latest
  {
    PublishedGrid(b0, reference);
    HistoryProgress(b0, attempts, reference, times, false);
  }

  lemma InTurnSame(b0: Bucket, b: Bucket, reference: Run, times: set<U64>)
    requires Plan(b0, reference).outcome.Ok? && Continues(b0, b, reference, times) && b.latest == b0.latest
    requires InTurn(b0, b, reference)
    ensures Plan(b, reference).outcome
            == Ok(Plan(b0, reference).outcome.value.(incompatibleParts := OutdatedPairs(b, reference)))
    ensures Plan(b0, reference).outcome.value.incompatibleParts == OutdatedPairs(b0, reference)
  {
    hide Sources, Jobs, Look, MeasuringOf, PendingOf, Progressed, Fresh, EndsWith, Finish, Plan, InTurn;
    PlanIs(b0, reference);
    PlanIs(b, reference);
    SameEnding(b0, b, reference, times);
    FinishedEnding(b0, reference, OutdatedPairs(b0, reference), MeasuringOf(b0, reference));
    SameParts(b0, b, reference, times);
    PairsAreKeyed(b0, reference);
    PairsAreKeyed(b, reference);
    SameRecord(b0, b, reference, MeasuringOf(b0, reference), MeasuringOf(b, reference),
               OutdatedPairs(b0, reference), OutdatedPairs(b, reference), Jobs(reference));
    hide KeyedByUlid, IsCompatible, Timeless;
  }

  /** A part measured out of turn is one the clean round, which aborts before it, does not use. */
  lemma OutOfTurnUsed(b0: Bucket, b: Bucket, reference: Run, times: set<U64>, x: SourcePart)
    requires Continues(b0, b, reference, times) && x in Jobs(reference)
    requires Look(b, reference.config, x).Usable? && !Look(b0, reference.config, x).Usable?
    requires !BeforeAbort(b0, reference, x)
    ensures x.listed.partUlid in MeasuringOf(b, reference).compatible
    ensures x.listed.partUlid !in MeasuringOf(b0, reference).compatible
  {
    PartAt(b0, reference, x);
    PartAt(b, reference, x);
    PendingExact(b0, reference);
    hide Look, Sources, Jobs, PendingOf, MeasuringOf, MeasureSource, Progressed, Fresh;
    var y :| y in Jobs(reference) && y.listed.partUlid <= x.listed.partUlid && !Look(b0, reference.config, y).Usable?
      && Aborts(reference, y);
    assert y in PendingOf(b0, reference);
  }

  lemma MorePart(b0: Bucket, b: Bucket, reference: Run, times: set<U64>, x: SourcePart)
    requires Continues(b0, b, reference, times) && x in Jobs(reference)
    ensures x.listed.partUlid in MeasuringOf(b0, reference).compatible ==>
            x.listed.partUlid in MeasuringOf(b, reference).compatible
  {
    PartAt(b0, reference, x);
    PartAt(b, reference, x);
    PendingExact(b0, reference);
    PendingExact(b, reference);
    NotUsableBefore(b0, b, reference, times, false, x);
    hide Look, Sources, Jobs, PendingOf, MeasuringOf, MeasureSource, PartFrom, Progressed, Fresh;
    var p0, p := PendingOf(b0, reference), PendingOf(b, reference);
    if BeforeBad(reference, p0, x) && !Look(b, reference.config, x).Usable? {
      forall y | y in p && y.listed.partUlid <= x.listed.partUlid ensures MeasureSource(reference, y).Ok? {
        NotUsableBefore(b0, b, reference, times, false, y);
      }
    }
  }

  lemma OutOfTurnMore(b0: Bucket, b: Bucket, reference: Run, times: set<U64>)
    requires Continues(b0, b, reference, times) && !InTurn(b0, b, reference)
    ensures |MeasuringOf(b0, reference).compatible| < |MeasuringOf(b, reference).compatible|
  {
    hide Look, Sources, Jobs, MeasuringOf, Progressed, Fresh, BeforeAbort;
    var c0, c := MeasuringOf(b0, reference).compatible, MeasuringOf(b, reference).compatible;
    forall u | u in c0 ensures u in c {
      KeyIsJob(b0, reference, u);
      var x :| x in Jobs(reference) && x.listed.partUlid == u;
      MorePart(b0, b, reference, times, x);
    }
    var x :| x in Jobs(reference) && Look(b, reference.config, x).Usable? && !Look(b0, reference.config, x).Usable?
             && !BeforeAbort(b0, reference, x);
    OutOfTurnUsed(b0, b, reference, times, x);
    ProperSubset(c0.Keys, c.Keys, x.listed.partUlid);
    assert |c0.Keys| == |c0| && |c.Keys| == |c|;
  }

  lemma ProperSubset(a: set<nat>, b: set<nat>, x: nat)
    requires a <= b && x in b && x !in a
    ensures |a| < |b|
  {
    assert b == a + (b - a) && x in b - a;
    assert |b| == |a| + |b - a|;
  }

  // how many parts a record says it used

  lemma {:induction false} TallyUsesAll(config: AggregationConfig, listed: map<nat, ListedPart>, n: nat,
                                        parts: seq<IntermediatePart>)
    requires forall p :: p in parts ==> IsCompatible(config, p) && p.metadata.partUlid in listed
    requires TallyParts(config, listed, n, parts).Ok?
    ensures |TallyParts(config, listed, n, parts).value.used| == |parts|
  {
    hide IsCompatible;
    if parts != [] {
      var k := |parts| - 1;
      assert parts[k] in parts && forall p :: p in parts[..k] ==> p in parts;
      TallyUsesAll(config, listed, n, parts[..k]);
    }
  }

  lemma LoadedInScope(m: map<nat, SourcePart>, objects: seq<SourceObject>, starts: seq<nat>, cohort: seq<Byte>,
                      width: nat,
                      lower: nat, roundEnd: nat, u: nat)
    requires LoadedAs(m, objects, starts, cohort, width) && u in m
    requires forall s: nat :: s in starts ==> lower <= s && s + width <= roundEnd
    ensures InScope(m[u].listed, lower, roundEnd)
  {
    hide Prepared;
    var i :| 0 <= i < |objects| && objects[i].windowStart in starts && objects[i].partUlid == Some(u);
    assert ComesFrom(m[u], objects[i], cohort, width);
    PreparedWindow(objects[i].bytes, cohort, objects[i].windowStart, width);
  }

  lemma ScopeOf(run: Run, x: SourcePart)
    requires Sources(run).Ok? && x in Jobs(run)
    ensures run.config.windowDuration <= run.roundEnd
    ensures InScope(x.listed, run.roundEnd - run.config.windowDuration, run.roundEnd)
  {
    SourcesExact(run);
    JobFrom(run, x);
    WindowStartsExact(run.roundEnd, run.config.windowDuration, run.config.storageWindow);
    hide Sources, Jobs, Prepared, WindowStarts, LoadedAs, StrictlyAscending;
    LoadedInScope(Sources(run).value, run.objects,
                  WindowStarts(run.roundEnd, run.config.windowDuration, run.config.storageWindow).value,
                  run.config.cohort, run.config.storageWindow,
                  run.roundEnd - run.config.windowDuration, run.roundEnd, x.listed.partUlid);
  }

  lemma ListedIsGathered(parts: seq<ListedPart>, lower: nat, roundEnd: nat, i: nat)
    requires InScopeParts(parts, lower, roundEnd).Ok? && i < |parts| && InScope(parts[i], lower, roundEnd)
    ensures parts[i].partUlid in InScopeParts(parts, lower, roundEnd).value
  {
    var steps := ListedSteps(parts, lower, roundEnd);
    GatherExact(steps);
    hide Gather;
    assert steps[i] in steps && !steps[i].Reject?;
    assert steps[i].Entry? && steps[i].partUlid == parts[i].partUlid;
  }

  lemma JobListed(run: Run, x: SourcePart)
    requires Sources(run).Ok? && x in Jobs(run) && run.config.windowDuration <= run.roundEnd
    requires InScopeParts(ListedOf(Jobs(run)), run.roundEnd - run.config.windowDuration, run.roundEnd).Ok?
    ensures x.listed.partUlid in InScopeParts(ListedOf(Jobs(run)), run.roundEnd - run.config.windowDuration,
                                              run.roundEnd).value
  {
    hide Sources, Jobs, InScopeParts, InScope, ListedOf;
    ScopeOf(run, x);
    ElementListed(Jobs(run), x, run.roundEnd - run.config.windowDuration, run.roundEnd);
  }

  lemma ElementListed(sources: seq<SourcePart>, x: SourcePart, lower: nat, roundEnd: nat)
    requires x in sources && InScope(x.listed, lower, roundEnd) && InScopeParts(ListedOf(sources), lower, roundEnd).Ok?
    ensures x.listed.partUlid in InScopeParts(ListedOf(sources), lower, roundEnd).value
  {
    hide InScopeParts, InScope;
    var i :| 0 <= i < |sources| && sources[i] == x;
    ListedIsGathered(ListedOf(sources), lower, roundEnd, i);
  }

  /** Every pair a round has is compatible and belongs to a listed part. */
  lemma PairsListed(b: Bucket, run: Run, listed: map<nat, ListedPart>)
    requires Sources(run).Ok? && StrictlyAscending(run.config.efGrid) && run.config.windowDuration <= run.roundEnd
    requires InScopeParts(ListedOf(Jobs(run)), run.roundEnd - run.config.windowDuration, run.roundEnd) == Ok(listed)
    ensures forall p :: p in InOrder(MeasuringOf(b, run).compatible) ==>
            IsCompatible(run.config, p) && p.metadata.partUlid in listed
  {
    var c := MeasuringOf(b, run).compatible;
    PairsAreKeyed(b, run);
    KeyedEntries(c);
    hide Sources, Jobs, MeasuringOf, InOrder, IsCompatible, KeyedByUlid, InScopeParts, ListedOf;
    forall p | p in InOrder(c) ensures IsCompatible(run.config, p) && p.metadata.partUlid in listed {
      var i :| 0 <= i < |c| && InOrder(c)[i] == p;
      KeyIsJob(b, run, p.metadata.partUlid);
      var x :| x in Jobs(run) && x.listed.partUlid == p.metadata.partUlid;
      JobListed(run, x);
    }
  }

  /** A published round used every pair it had. */
  lemma UsesEveryPair(b: Bucket, run: Run, n: nat, abort: Option<PhaseAAbort>)
    requires Sources(run).Ok? && StrictlyAscending(run.config.efGrid)
    requires Aggregate(InputOf(run, Previous(b), Jobs(run), n, abort, MeasuringOf(b, run).compatible)).Ok?
    ensures Aggregate(InputOf(run, Previous(b), Jobs(run), n, abort, MeasuringOf(b, run).compatible)).value.partsUsed
         == |MeasuringOf(b, run).compatible|
  {
    hide Sources, Jobs, MeasuringOf, InOrder, IsCompatible, KeyedByUlid, Aggregate, DistinctIntermediates, Account,
         ValidateConfig,
         InScopeParts, Remainder, ListedOf, Previous;
    var c := MeasuringOf(b, run).compatible;
    var input := InputOf(run, Previous(b), Jobs(run), n, abort, c);
    PairsAreKeyed(b, run);
    GatherKeyed(c);
    AggregateIs(input, c);
    AccountedListed(input);
    var accounts := Account(input.config, input.roundEnd, input.listedParts).value;
    PairsListed(b, run, accounts.listed);
    RemainderUses(input, accounts, InOrder(c));
  }

  lemma AccountedListed(input: AggregationInput)
    requires Startable(input)
    ensures input.config.windowDuration <= input.roundEnd
    ensures InScopeParts(input.listedParts, input.roundEnd - input.config.windowDuration, input.roundEnd)
         == Ok(Account(input.config, input.roundEnd, input.listedParts).value.listed)
  {
    hide InScopeParts, Available, DroppedFraction, CoverageOf, InOrder, WindowStarts, ValidateConfig;
  }

  lemma RemainderUses(input: AggregationInput, accounts: Accounts, parts: seq<IntermediatePart>)
    requires input.config.windowDuration <= input.roundEnd && Remainder(input, accounts, parts).Ok?
    requires forall p :: p in parts ==> IsCompatible(input.config, p) && p.metadata.partUlid in accounts.listed
    ensures Remainder(input, accounts, parts).value.partsUsed == |parts|
  {
    TallyUsesAll(input.config, accounts.listed, input.phaseAIncompatibleParts, parts);
    hide TallyParts, Decide, PopulationOf, IsCompatible, Effective, Latency, WindowOf, TargetOf, PreviousEffective;
  }

  lemma PublishedUses(b: Bucket, run: Run)
    requires Plan(b, run).outcome.Ok? && Sources(run).Ok? && StrictlyAscending(run.config.efGrid)
    ensures Plan(b, run).outcome.value.partsUsed == |MeasuringOf(b, run).compatible|
  {
    PlanIs(b, run);
    var m := MeasuringOf(b, run);
    hide Plan, Sources, Jobs, MeasuringOf, Aggregate, InputOf, OutdatedPairs;
    FinishedEnding(b, run, OutdatedPairs(b, run), m);
    UsesEveryPair(b, run, OutdatedPairs(b, run), if m.ended.Some? then Some(m.ended.value.abort) else None);
  }

  /** Any history of rounds that crash, lose their connection or are cancelled, whatever their round
      end, followed by one that completes, publishes the record one uninterrupted round would have
      published from the same start, exactly when no part was measured that the clean round would
      have aborted before; but for the pairs of another configuration that were already replaced:
      those are no longer there to be counted. */
  lemma ResumeEqualsClean(b0: Bucket, attempts: seq<Attempt>, reference: Run, times: set<U64>)
    requires Plan(b0, reference).outcome.Ok? && Sources(reference).Ok?
    requires Fresh(b0, reference, times) && AllInterrupted(b0, attempts, reference, times, false)
    ensures var b, clean := AfterAll(b0, attempts), Plan(b0, reference).outcome.value;
            && (Plan(b, reference).outcome == Ok(clean.(incompatibleParts := OutdatedPairs(b, reference))) <==>
                InTurn(b0, b, reference))
            && OutdatedPairs(b, reference) <= OutdatedPairs(b0, reference) == clean.incompatibleParts
  {
    ContinuesAfter(b0, attempts, reference, times);
    hide Sources, Jobs, Look, AllInterrupted, AfterAll, MeasuringOf, Progressed, Fresh, Plan, InTurn, Continues;
    var b := AfterAll(b0, attempts);
    CleanCount(b0, reference);
    if InTurn(b0, b, reference) {
      InTurnSame(b0, b, reference, times);
    } else if Plan(b, reference).outcome.Ok? {
      OutOfTurnMore(b0, b, reference, times);
      PublishedGrid(b0, reference);
      PublishedUses(b0, reference);
      PublishedUses(b, reference);
    }
    ReplacedAreFewer(b0, b, reference, times);
  }

  lemma CleanCount(b0: Bucket, reference: Run)
    requires Plan(b0, reference).outcome.Ok? && Sources(reference).Ok?
    ensures Plan(b0, reference).outcome.value.incompatibleParts == OutdatedPairs(b0, reference)
  {
    PublishedGrid(b0, reference);
    PlanIs(b0, reference);
    PairsAreKeyed(b0, reference);
    var m := MeasuringOf(b0, reference);
    hide Sources, Jobs, MeasuringOf, Plan, OutdatedPairs, IsCompatible, KeyedByUlid;
    FinishedEnding(b0, reference, OutdatedPairs(b0, reference), m);
    SameRecord(b0, b0, reference, m, m, OutdatedPairs(b0, reference), OutdatedPairs(b0, reference), Jobs(reference));
  }

  lemma ReplacedAreFewer(b0: Bucket, b: Bucket, reference: Run, times: set<U64>)
    requires Continues(b0, b, reference, times)
    ensures OutdatedPairs(b, reference) <= OutdatedPairs(b0, reference)
    ensures OutdatedPairs(b, reference) == OutdatedPairs(b0, reference) <==>
            forall x :: x in Jobs(reference) && Look(b0, reference.config, x).Outdated? ==>
              Look(b, reference.config, x).Outdated?
  {
    hide Progressed, Fresh, Look, Sources, Jobs;
    FewerOutdated(b0, b, reference, times, Jobs(reference));
  }

  /** So the resumed record is the clean one, down to that count, exactly when moreover no outdated pair
      was replaced before. */
  lemma ResumeEqualsCleanExactly(b0: Bucket, attempts: seq<Attempt>, reference: Run, times: set<U64>)
    requires Plan(b0, reference).outcome.Ok? && Sources(reference).Ok?
    requires Fresh(b0, reference, times) && AllInterrupted(b0, attempts, reference, times, false)
    ensures var b := AfterAll(b0, attempts);
            Plan(b, reference).outcome == Plan(b0, reference).outcome <==>
            (InTurn(b0, b, reference)
             && forall x :: x in Jobs(reference) && Look(b0, reference.config, x).Outdated? ==>
               Look(b, reference.config, x).Outdated?)
  {
    ContinuesAfter(b0, attempts, reference, times);
    hide Sources, Jobs, Look, AllInterrupted, AfterAll, Fresh, Plan, InTurn, Continues, OutdatedPairs;
    var b := AfterAll(b0, attempts);
    ResumeEqualsClean(b0, attempts, reference, times);
    ReplacedAreFewer(b0, b, reference, times);
    if Plan(b, reference).outcome == Plan(b0, reference).outcome { CleanCount(b, reference); }
  }

  /** Two ways to be in turn: all attempts were for the same parts, or no missing part aborts. */
  lemma AttemptsInTurn(b0: Bucket, attempts: seq<Attempt>, reference: Run, times: set<U64>)
    requires Sources(reference).Ok? && StrictlyAscending(reference.config.efGrid)
    requires Fresh(b0, reference, times) && AllInterrupted(b0, attempts, reference, times, true)
    ensures InTurn(b0, AfterAll(b0, attempts), reference)
  {
    HistoryProgress(b0, attempts, reference, times, true);
    hide Sources, Jobs, Look, AllInterrupted, AfterAll, Progressed, Fresh, BeforeAbort;
    var b := AfterAll(b0, attempts);
    forall x | x in Jobs(reference) && Look(b, reference.config, x).Usable? && !Look(b0, reference.config, x).Usable?
      ensures BeforeAbort(b0, reference, x)
    {
      NotUsableBefore(b0, b, reference, times, true, x);
    }
  }

  lemma FinishedEnding(b: Bucket, run: Run, n: nat, m: Measuring)
    requires Sources(run).Ok? && Finish(b, run, Jobs(run), n, m).outcome.Ok?
    ensures m.ended.None? || m.ended.value.Aborting?
  {
    hide Sources, Jobs, Aggregate;
  }

  /** A listing names no path twice with different contents. */
  predicate ListedOnce(objects: seq<SourceObject>) { NeverRewritten(objects, objects) }

  /** The second condition is needed: after an attempt that replaces only the truth file of an outdated
      pair, the resumed record counts fewer incompatible pairs than the clean one, and agrees otherwise. */
  lemma ReplacedPairGoesUncounted(b0: Bucket, reference: Run, t: U64)
    requires ListedOnce(reference.objects)
    requires Plan(b0, reference).outcome.Ok? && Sources(reference).Ok? && Fresh(b0, reference, {t})
    requires PendingOf(b0, reference) != [] && Look(b0, reference.config, PendingOf(b0, reference)[0]).Outdated?
    requires MeasureSource(reference, PendingOf(b0, reference)[0]).Ok?
    ensures var attempts, clean := [Attempt(RunAt(reference, t), 1)], Plan(b0, reference).outcome.value;
            var uncounted := OutdatedPairs(AfterAll(b0, attempts), reference);
            && AllInterrupted(b0, attempts, reference, {t}, true)
            && Plan(AfterAll(b0, attempts), reference).outcome == Ok(clean.(incompatibleParts := uncounted))
            && uncounted < clean.incompatibleParts
  {
    hide Sources, Jobs, Look, Plan, After, MeasureSource, PendingOf, Fresh, AllInterrupted, InTurn, OutdatedPairs;
    var attempts := [Attempt(RunAt(reference, t), 1)];
    PublishedGrid(b0, reference);
    OneAttempt(b0, reference, t);
    OneAfter(b0, RunAt(reference, t));
    AttemptsInTurn(b0, attempts, reference, {t});
    ResumeEqualsClean(b0, attempts, reference, {t});
    ResumeEqualsCleanExactly(b0, attempts, reference, {t});
    NoLongerOutdated(b0, After(b0, RunAt(reference, t), 1), reference, t);
    hide AfterAll;
    var x := PendingOf(b0, reference)[0];
    assert !(Look(b0, reference.config, x).Outdated? ==> Look(AfterAll(b0, attempts), reference.config, x).Outdated?);
  }

  lemma OneAfter(b0: Bucket, r: Run)
    ensures AfterAll(b0, [Attempt(r, 1)]) == After(b0, r, 1)
  {
    hide After;
    assert [Attempt(r, 1)][..0] == [];
  }

  lemma SameRunElsewhen(b0: Bucket, reference: Run, t: U64)
    requires Sources(reference).Ok?
    ensures Sources(RunAt(reference, t)) == Sources(reference)
    ensures ListedOnce(reference.objects) ==> SameSetup(RunAt(reference, t), reference)
    ensures PendingOf(b0, RunAt(reference, t)) == PendingOf(b0, reference)
  {
    hide Loaded, Scanned, InWindows, InOrder;
  }

  lemma OneAttempt(b0: Bucket, reference: Run, t: U64)
    requires ListedOnce(reference.objects) && Sources(reference).Ok? && StrictlyAscending(reference.config.efGrid)
    requires PendingOf(b0, reference) != [] && MeasureSource(reference, PendingOf(b0, reference)[0]).Ok?
    ensures AllInterrupted(b0, [Attempt(RunAt(reference, t), 1)], reference, {t}, true)
    ensures AllInterrupted(b0, [Attempt(RunAt(reference, t), 1)], reference, {t}, false)
  {
    hide Sources, Jobs, MeasureSource, PendingOf, NeverAborts, After;
    var a := Attempt(RunAt(reference, t), 1);
    SameRunElsewhen(b0, reference, t);
    MeasuredAtTime(reference, PendingOf(b0, reference)[0], t);
    FirstWrite(b0, a.run);
    assert [a][..0] == [];
    hide Plan, SameSetup;
    assert AfterAll(b0, []) == b0;
  }

  lemma NoLongerOutdated(b0: Bucket, b: Bucket, reference: Run, t: U64)
    requires Sources(reference).Ok? && StrictlyAscending(reference.config.efGrid) && Fresh(b0, reference, {t})
    requires PendingOf(b0, reference) != [] && MeasureSource(reference, PendingOf(b0, reference)[0]).Ok?
    requires b == After(b0, RunAt(reference, t), 1)
    ensures PendingOf(b0, reference)[0] in Jobs(reference)
    ensures !Look(b, reference.config, PendingOf(b0, reference)[0]).Outdated?
  {
    var x := PendingOf(b0, reference)[0];
    PendingExact(b0, reference);
    hide Sources, Jobs, Look, MeasureSource, PendingOf, After, Plan, Fresh, TouchedAt, Apply, TruthFileOf, SlotOf, At,
         RunAt, SameSetup;
    SameRunElsewhen(b0, reference, t);
    MeasuredAtTime(reference, x, t);
    FirstWrite(b0, RunAt(reference, t));
    TruthOnly(b0, b, reference, x, t);
    LookTouched(b0, b, reference, {t}, x, t);
  }

  lemma TruthOnly(b0: Bucket, b: Bucket, reference: Run, x: SourcePart, t: U64)
    requires MeasureSource(reference, x).Ok?
    requires b == Apply(b0, PutTruth(SlotOf(x), TruthFileOf(At(MeasureSource(reference, x).value, t))))
    ensures TouchedAt(b0, b, reference, x, t)
  {
    hide MeasureSource;
  }

  /** The first write of a round that has a measurable part pending is that part's truth file. */
  lemma FirstWrite(b: Bucket, run: Run)
    requires Sources(run).Ok? && StrictlyAscending(run.config.efGrid)
    requires PendingOf(b, run) != [] && MeasureSource(run, PendingOf(b, run)[0]).Ok?
    ensures |Plan(b, run).puts| > 1
    ensures var x := PendingOf(b, run)[0];
            After(b, run, 1) == Apply(b, PutTruth(SlotOf(x), TruthFileOf(MeasureSource(run, x).value)))
  {
    hide Sources, MeasureSource, Plan, ReadPair, ApplyAll, MeasurePending, Scanned, TruthFileOf, SlotOf;
    var scan, x := Scanned(b, run.config, Jobs(run)), PendingOf(b, run)[0];
    FirstMeasured(run, scan.compatible, scan.pending);
    PlanExtends(b, run, 1);
    var first := PutTruth(SlotOf(x), TruthFileOf(MeasureSource(run, x).value));
    FirstOf(PairPuts(SlotOf(x), MeasureSource(run, x).value), MeasurePending(run, scan.compatible, scan.pending).puts,
            Plan(b, run).puts, first);
    OneApplied(b, first);
  }

  lemma FirstMeasured(run: Run, c: map<nat, IntermediatePart>, pending: seq<SourcePart>)
    requires pending != [] && MeasureSource(run, pending[0]).Ok?
    ensures PairPuts(SlotOf(pending[0]), MeasureSource(run, pending[0]).value) <= MeasurePending(run, c, pending).puts
  {
    hide MeasureSource, MeasurePending, PairPuts;
    PendingPrefix(run, c, pending, 1);
    assert pending[..1] == [pending[0]];
    FirstPair(run, c, pending[0]);
  }

  lemma FirstOf(pair: seq<Put>, puts: seq<Put>, all: seq<Put>, first: Put)
    requires |pair| == 2 && pair[0] == first && pair <= puts && puts <= all
    ensures |all| > 1 && Cut(all, 1) == [first]
  {
    assert all[..1] == [all[0]];
  }

  lemma FirstPair(run: Run, c: map<nat, IntermediatePart>, x: SourcePart)
    requires MeasureSource(run, x).Ok?
    ensures MeasurePending(run, c, [x]).puts == PairPuts(SlotOf(x), MeasureSource(run, x).value)
  {
    hide MeasureSource, ReadPair;
    assert [x][..0] == [];
  }

  lemma OneApplied(b: Bucket, put: Put)
    ensures ApplyAll(b, [put]) == Apply(b, put)
  {
    assert [put][..0] == [];
  }
}
