/** No torn pair is ever accepted: whatever rounds ran and wherever they broke off, a pair that reads
    back was written by one measurement. */
module Torn {
  import opened Wrappers
  import opened Bytes
  import opened Model
  import opened Ordered
  import opened Aggregation
  import opened Intermediate
  import opened Measure
  import opened Measurement
  import opened Pipeline
  import opened Phases
  import opened Resume

  /** `m` is what the run measured for the slot. */
  ghost predicate Wrote(run: Run, slot: Slot, m: MeasuredPart) {
    Sources(run).Ok? && exists x :: x in Jobs(run) && SlotOf(x) == slot && MeasureSource(run, x) == Ok(m)
  }

  ghost predicate TruthFrom(b: Bucket, attempts: seq<Attempt>, slot: Slot) {
    slot in b.truths ==> exists i, m :: 0 <= i < |attempts| && Wrote(attempts[i].run, slot, m) && HoldsTruth(b, slot, m)
  }

  ghost predicate SweepFrom(b: Bucket, attempts: seq<Attempt>, slot: Slot) {
    slot in b.sweeps ==> exists i, m :: 0 <= i < |attempts| && Wrote(attempts[i].run, slot, m) && HoldsSweep(b, slot, m)
  }

  /** Each configuration passed start-up validation, and no two rounds share their timestamp. */
  predicate ValidHistory(attempts: seq<Attempt>) {
    && (forall i :: 0 <= i < |attempts| ==> StrictlyAscending(attempts[i].run.config.efGrid))
    && (forall i, j :: 0 <= i < j < |attempts| ==> attempts[i].run.computedAtUs != attempts[j].run.computedAtUs)
  }

  lemma TruthKept(b: Bucket, b': Bucket, attempts: seq<Attempt>, a: Attempt, slot: Slot)
    requires TruthFrom(b, attempts, slot) && SameTruth(b, b', slot)
    ensures TruthFrom(b', attempts + [a], slot)
  {
    hide Wrote, TruthFileOf;
    if slot in b.truths {
      var i, m :| 0 <= i < |attempts| && Wrote(attempts[i].run, slot, m) && HoldsTruth(b, slot, m);
      assert (attempts + [a])[i] == attempts[i] && HoldsTruth(b', slot, m);
    }
  }

  lemma SweepKept(b: Bucket, b': Bucket, attempts: seq<Attempt>, a: Attempt, slot: Slot)
    requires SweepFrom(b, attempts, slot) && SameSweep(b, b', slot)
    ensures SweepFrom(b', attempts + [a], slot)
  {
    hide Wrote, SweepFileOf;
    if slot in b.sweeps {
      var i, m :| 0 <= i < |attempts| && Wrote(attempts[i].run, slot, m) && HoldsSweep(b, slot, m);
      assert (attempts + [a])[i] == attempts[i] && HoldsSweep(b', slot, m);
    }
  }

  lemma FilesStep(b: Bucket, b': Bucket, attempts: seq<Attempt>, a: Attempt, pending: seq<SourcePart>, slot: Slot)
    requires Sources(a.run).Ok? && forall x :: x in pending ==> x in Jobs(a.run)
    requires SlotStep(b, b', a.run, pending, slot)
    requires TruthFrom(b, attempts, slot) && SweepFrom(b, attempts, slot)
    ensures TruthFrom(b', attempts + [a], slot) && SweepFrom(b', attempts + [a], slot)
  {
    hide Sources, Jobs, MeasureSource, TruthFileOf, SweepFileOf, TruthFrom, SweepFrom;
    if SameTruth(b, b', slot) && SameSweep(b, b', slot) {
      TruthKept(b, b', attempts, a, slot);
      SweepKept(b, b', attempts, a, slot);
    } else {
      var x :| BeforeBad(a.run, pending, x) && SlotOf(x) == slot && Overwritten(b, b', a.run, x);
      var m := MeasureSource(a.run, x).value;
      assert Wrote(a.run, slot, m);
      JustWrote(b', attempts, a, slot, m);
      if SameSweep(b, b', slot) { SweepKept(b, b', attempts, a, slot); }
    }
  }

  lemma JustWrote(b: Bucket, attempts: seq<Attempt>, a: Attempt, slot: Slot, m: MeasuredPart)
    requires Wrote(a.run, slot, m)
    ensures HoldsTruth(b, slot, m) ==> TruthFrom(b, attempts + [a], slot)
    ensures HoldsSweep(b, slot, m) ==> SweepFrom(b, attempts + [a], slot)
  {
    hide Wrote, HoldsTruth, HoldsSweep;
    assert (attempts + [a])[|attempts|] == a;
  }

  lemma RoundFiles(b: Bucket, attempts: seq<Attempt>, a: Attempt, slot: Slot)
    requires StrictlyAscending(a.run.config.efGrid)
    requires TruthFrom(b, attempts, slot) && SweepFrom(b, attempts, slot)
    ensures TruthFrom(After(b, a.run, a.budget), attempts + [a], slot)
            && SweepFrom(After(b, a.run, a.budget), attempts + [a], slot)
  {
    hide Sources, Jobs, Look, MeasuringOf, TruthFrom, SweepFrom, ApplyAll, SlotStep;
    var b' := After(b, a.run, a.budget);
    if Sources(a.run).Ok? {
      RoundPairs(b, a.run, a.budget);
      PendingExact(b, a.run);
      var puts := MeasuringOf(b, a.run).puts;
      var n := if a.budget < |puts| then a.budget else |puts|;
      assert Cut(puts, a.budget) == puts[..n];
      MeasuringSlots(b, a.run, n, slot);
      SamePairsStep(b, ApplyAll(b, puts[..n]), b', a.run, PendingOf(b, a.run), slot);
      FilesStep(b, b', attempts, a, PendingOf(b, a.run), slot);
    } else {
      NothingWritten(b, a.run, a.budget);
      TruthKept(b, b', attempts, a, slot);
      SweepKept(b, b', attempts, a, slot);
    }
  }

  lemma MeasuringSlots(b: Bucket, run: Run, n: nat, slot: Slot)
    requires Sources(run).Ok? && StrictlyAscending(run.config.efGrid) && n <= |MeasuringOf(b, run).puts|
    ensures SlotStep(b, ApplyAll(b, MeasuringOf(b, run).puts[..n]), run, PendingOf(b, run), slot)
  {
    PendingExact(b, run);
    hide Sources, Jobs, Look, Scanned, ApplyAll, SlotStep;
    PhaseSlots(b, run, Scanned(b, run.config, Jobs(run)).compatible, PendingOf(b, run), n, slot);
  }

  lemma SamePairsStep(b: Bucket, m: Bucket, b': Bucket, run: Run, pending: seq<SourcePart>, slot: Slot)
    requires SlotStep(b, m, run, pending, slot) && b'.truths == m.truths && b'.sweeps == m.sweeps
    ensures SlotStep(b, b', run, pending, slot)
  {
    hide MeasureSource, BeforeBad;
    if !(SameTruth(b, m, slot) && SameSweep(b, m, slot)) {
      var x :| BeforeBad(run, pending, x) && SlotOf(x) == slot && Overwritten(b, m, run, x);
      assert Overwritten(b, b', run, x);
    }
  }

  lemma NothingWritten(b: Bucket, run: Run, budget: nat)
    requires Sources(run).Err?
    ensures After(b, run, budget) == b
  {
    hide Sources;
    NothingApplied(b);
  }

  lemma {:induction false} HistoryFiles(b0: Bucket, attempts: seq<Attempt>, slot: Slot)
    requires b0.truths == map[] && b0.sweeps == map[] && ValidHistory(attempts)
    ensures TruthFrom(AfterAll(b0, attempts), attempts, slot) && SweepFrom(AfterAll(b0, attempts), attempts, slot)
  {
    hide After, TruthFrom, SweepFrom;
    if attempts == [] {
      NoFiles(b0, slot);
    } else {
      var n := |attempts| - 1;
      assert attempts == attempts[..n] + [attempts[n]];
      HistoryFiles(b0, attempts[..n], slot);
      RoundFiles(AfterAll(b0, attempts[..n]), attempts[..n], attempts[n], slot);
    }
  }

  lemma NoFiles(b0: Bucket, slot: Slot)
    requires b0.truths == map[] && b0.sweeps == map[]
    ensures TruthFrom(b0, [], slot) && SweepFrom(b0, [], slot)
  {
  }

  lemma WroteAt(run: Run, slot: Slot, m: MeasuredPart)
    requires Wrote(run, slot, m)
    ensures m.metadata.computedAtUs == run.computedAtUs
  {
    hide Sources, Jobs, Prepared, MeasureSamples;
  }

  /** A run measures each slot once. */
  lemma WroteOnce(run: Run, slot: Slot, m: MeasuredPart, m': MeasuredPart)
    requires Wrote(run, slot, m) && Wrote(run, slot, m')
    ensures m == m'
  {
    JobsExact(run);
    hide Sources, Jobs, MeasureSource;
    var x :| x in Jobs(run) && SlotOf(x) == slot && MeasureSource(run, x) == Ok(m);
    var y :| y in Jobs(run) && SlotOf(y) == slot && MeasureSource(run, y) == Ok(m');
    SameUlid(Jobs(run), x, y);
  }

  /** The two files of an accepted pair come from one measurement by one run. */
  lemma AcceptedPairIsWhole(b0: Bucket, attempts: seq<Attempt>, slot: Slot) returns (i: nat, m: MeasuredPart)
    requires b0.truths == map[] && b0.sweeps == map[] && ValidHistory(attempts)
    requires PairAt(AfterAll(b0, attempts), slot).Some?
    ensures i < |attempts| && Wrote(attempts[i].run, slot, m)
    ensures HoldsTruth(AfterAll(b0, attempts), slot, m) && HoldsSweep(AfterAll(b0, attempts), slot, m)
  {
    hide AfterAll, Wrote, TruthSamples, WithSweeps;
    var b := AfterAll(b0, attempts);
    HistoryFiles(b0, attempts, slot);
    var j, m' :| 0 <= j < |attempts| && Wrote(attempts[j].run, slot, m') && HoldsSweep(b, slot, m');
    i, m :| 0 <= i < |attempts| && Wrote(attempts[i].run, slot, m) && HoldsTruth(b, slot, m);
    WroteAt(attempts[i].run, slot, m);
    WroteAt(attempts[j].run, slot, m');
    assert m.metadata == m'.metadata;
    WroteOnce(attempts[i].run, slot, m, m');
  }

  /** The settings a stored measurement depends on. */
  predicate SameDatabase(c: AggregationConfig, d: AggregationConfig) {
    c.k == d.k && c.index == d.index && c.table == d.table && c.column == d.column && c.key == d.key
      && c.efGrid == d.efGrid
  }

  lemma WroteSource(run: Run, slot: Slot, m: MeasuredPart) returns (x: SourcePart)
    requires Wrote(run, slot, m)
    ensures Sources(run).Ok? && x in Jobs(run) && SlotOf(x) == slot && MeasureSource(run, x) == Ok(m)
    ensures m.metadata.cohort == run.config.cohort && m.metadata.windowSeconds == run.config.storageWindow
  {
    hide Sources, Jobs, Prepared, MeasureSamples;
    x :| x in Jobs(run) && SlotOf(x) == slot && MeasureSource(run, x) == Ok(m);
    PreparedWindow(x.bytes, run.config.cohort, x.listed.windowStart, run.config.storageWindow);
  }

  /** A usable pair carries the cohort and window width of the round that uses it. */
  lemma UsableFrom(b: Bucket, run: Run, x: SourcePart, m: MeasuredPart)
    requires Sources(run).Ok? && x in Jobs(run) && Look(b, run.config, x).Usable? && HoldsTruth(b, SlotOf(x), m)
    ensures m.metadata == Look(b, run.config, x).part.metadata
    ensures m.metadata.cohort == run.config.cohort && m.metadata.windowSeconds == run.config.storageWindow
  {
    hide Prepared, TruthSamples, WithSweeps;
    JobFrom(run, x);
    PreparedWindow(x.bytes, run.config.cohort, x.listed.windowStart, run.config.storageWindow);
    hide Sources, Jobs, IsCompatible;
  }

  /** Every cached pair a round uses was produced by a single earlier measurement of that very source
      part, by a run with the same settings; whatever configurations, windows and listings the rounds
      before it had. */
  lemma NoTornPair(b0: Bucket, attempts: seq<Attempt>, run: Run, x: SourcePart) returns (i: nat)
    requires b0.truths == map[] && b0.sweeps == map[] && ValidHistory(attempts)
    requires forall j :: 0 <= j < |attempts| ==> NeverRewritten(attempts[j].run.objects, run.objects)
    requires Sources(run).Ok? && x in Jobs(run) && Look(AfterAll(b0, attempts), run.config, x).Usable?
    ensures i < |attempts| && SameDatabase(attempts[i].run.config, run.config)
    ensures MeasureSource(attempts[i].run, x).Ok?
    ensures Look(AfterAll(b0, attempts), run.config, x).part == PartFrom(attempts[i].run, x)
  {
    var b := AfterAll(b0, attempts);
    hide AfterAll, Sources, Jobs, MeasureSource, Wrote, Look, PairAt, HoldsTruth, HoldsSweep, PartFrom, NeverRewritten;
    UsableIsReadable(b, run.config, x);
    var m;
    i, m := AcceptedPairIsWhole(b0, attempts, SlotOf(x));
    UsableWasMeasured(b, attempts[i].run, run, x, m);
  }

  /** A usable pair that is one measurement of `r` is what `r` measured for this very part. */
  lemma UsableWasMeasured(b: Bucket, r: Run, run: Run, x: SourcePart, m: MeasuredPart)
    requires Wrote(r, SlotOf(x), m) && HoldsTruth(b, SlotOf(x), m) && HoldsSweep(b, SlotOf(x), m)
    requires Sources(run).Ok? && x in Jobs(run) && Look(b, run.config, x).Usable?
    requires NeverRewritten(r.objects, run.objects) && StrictlyAscending(r.config.efGrid)
    ensures SameDatabase(r.config, run.config) && MeasureSource(r, x).Ok?
    ensures Look(b, run.config, x).part == PartFrom(r, x)
  {
    hide Sources, Jobs, MeasureSource, ReadPair, Joined, Wrote, Look, PairAt, HoldsTruth, HoldsSweep, NeverRewritten;
    var y := WroteSource(r, SlotOf(x), m);
    UsableFrom(b, run, x, m);
    SameJob(r, y, run, x);
    MeasuredReadsBack(r, x);
    UsableIs(b, run.config, x, m);
  }

  lemma UsableIsReadable(b: Bucket, config: AggregationConfig, x: SourcePart)
    requires Look(b, config, x).Usable?
    ensures PairAt(b, SlotOf(x)).Some?
  {
    hide PairAt, MatchesSource, IsCompatible;
  }

  /** Two runs that take a slot of one cohort and window width mean the same stored part. */
  lemma SameJob(r: Run, y: SourcePart, run: Run, x: SourcePart)
    requires r.config.cohort == run.config.cohort && r.config.storageWindow == run.config.storageWindow
    requires NeverRewritten(r.objects, run.objects) && Sources(r).Ok? && Sources(run).Ok?
    requires y in Jobs(r) && x in Jobs(run) && SlotOf(y) == SlotOf(x)
    ensures y == x
  {
    hide Sources, Jobs, Prepared, NeverRewritten;
    JobFrom(r, y);
    JobFrom(run, x);
    SameSource(r, run, x.listed.partUlid);
  }

  lemma UsableIs(b: Bucket, config: AggregationConfig, x: SourcePart, m: MeasuredPart)
    requires Look(b, config, x).Usable? && HoldsTruth(b, SlotOf(x), m) && HoldsSweep(b, SlotOf(x), m)
    ensures ReadPair(TruthFileOf(m), SweepFileOf(m)) == Ok(Look(b, config, x).part)
    ensures IsCompatible(config, Look(b, config, x).part)
  {
    hide ReadPair, MatchesSource, IsCompatible;
  }

  /** Distinct timestamps matter: when two measurements share theirs, and agree on which samples were
      measured, and the second breaks off after its truth file, the pair reads back as the second's
      truths with the first's sweeps. That is the first measurement exactly when their truths agree,
      and the second exactly when their sweeps do. */
  lemma EqualTimesMix(b: Bucket, slot: Slot, m: MeasuredPart, m': MeasuredPart)
    requires m.metadata == m'.metadata && Indexes(m.truths) == Indexes(m'.truths) && |m.truths| == |m'.truths|
    requires AscendingTruths(m.truths) && AscendingTruths(m'.truths)
    requires ReadPair(TruthFileOf(m), SweepFileOf(m)).Ok?
    ensures var mixed := Joined(m'.truths, m.sweeps);
            && PairAt(ApplyAll(b, PairPuts(slot, m) + [PutTruth(slot, TruthFileOf(m'))]), slot)
               == Some(IntermediatePart(m.metadata, mixed))
            && (mixed == Joined(m.truths, m.sweeps) <==>
                 forall j :: 0 <= j < |m.truths| ==> SampleOf(m.truths[j], map[]) == SampleOf(m'.truths[j], map[]))
            && (mixed == Joined(m'.truths, m'.sweeps) <==>
                 forall k :: k in Indexes(m.truths) ==> SweepsOf(m.sweeps, k) == SweepsOf(m'.sweeps, k))
  {
    MixReadsBack(m, m');
    MixedTruths(m.truths, m'.truths, m.sweeps);
    MixedSweeps(m'.truths, m.sweeps, m'.sweeps);
    hide ReadPair, Indexes, Joined, SweepsOf, AscendingTruths, ApplyAll, PairPuts;
    TruthReplaced(b, slot, m, m');
  }

  lemma TruthReplaced(b: Bucket, slot: Slot, m: MeasuredPart, m': MeasuredPart)
    ensures var b' := ApplyAll(b, PairPuts(slot, m) + [PutTruth(slot, TruthFileOf(m'))]);
            HoldsTruth(b', slot, m') && HoldsSweep(b', slot, m)
  {
    hide TruthFileOf, SweepFileOf;
    var first, second := PutTruth(slot, TruthFileOf(m)), PutSweep(slot, SweepFileOf(m));
    var third := PutTruth(slot, TruthFileOf(m'));
    assert PairPuts(slot, m) + [third] == [first] + [second, third];
    ApplyTwo(b, [first], second, third);
    assert [] + [first] == [first];
    ApplyTwo(b, [], first, second);
    hide ApplyAll;
  }

  lemma MixReadsBack(m: MeasuredPart, m': MeasuredPart)
    requires m.metadata == m'.metadata && Indexes(m.truths) == Indexes(m'.truths) && |m.truths| == |m'.truths|
    requires AscendingTruths(m'.truths) && ReadPair(TruthFileOf(m), SweepFileOf(m)).Ok?
    ensures ReadPair(TruthFileOf(m'), SweepFileOf(m)) == Ok(IntermediatePart(m.metadata, Joined(m'.truths, m.sweeps)))
  {
    ReadableExactly(TruthFileOf(m), SweepFileOf(m));
    ReadableExactly(TruthFileOf(m'), SweepFileOf(m));
    hide ReadPair, Indexes, Joined;
    assert DistinctTruths(m'.truths);
    JoinReturnsRows(TruthFileOf(m'), SweepFileOf(m));
  }

  lemma MixedTruths(truths: seq<TruthMeasurement>, truths': seq<TruthMeasurement>, sweeps: seq<SweepMeasurementRow>)
    requires |truths| == |truths'| && Indexes(truths) == Indexes(truths')
    requires AscendingTruths(truths) && AscendingTruths(truths')
    ensures Joined(truths', sweeps) == Joined(truths, sweeps) <==>
            forall j :: 0 <= j < |truths| ==> SampleOf(truths[j], map[]) == SampleOf(truths'[j], map[])
  {
    hide SweepsOf, Indexes, AscendingTruths;
    var mixed, whole := Joined(truths', sweeps), Joined(truths, sweeps);
    if mixed == whole {
      forall j | 0 <= j < |truths| ensures SampleOf(truths[j], map[]) == SampleOf(truths'[j], map[]) {
        assert mixed[j] == whole[j];
      }
    }
  }

  lemma MixedSweeps(truths: seq<TruthMeasurement>, sweeps: seq<SweepMeasurementRow>, sweeps': seq<SweepMeasurementRow>)
    ensures Joined(truths, sweeps) == Joined(truths, sweeps') <==>
            forall k :: k in Indexes(truths) ==> SweepsOf(sweeps, k) == SweepsOf(sweeps', k)
  {
    hide SweepsOf;
    var mixed, whole := Joined(truths, sweeps), Joined(truths, sweeps');
    if mixed == whole {
      forall k | k in Indexes(truths) ensures SweepsOf(sweeps, k) == SweepsOf(sweeps', k) {
        var j :| 0 <= j < |truths| && truths[j].recordIndex == k;
        assert mixed[j] == whole[j];
      }
    } else {
      var j :| 0 <= j < |truths| && mixed[j] != whole[j];
      assert truths[j].recordIndex in Indexes(truths);
    }
  }
}
