/** A history in which two rounds share a timestamp, after which a mixture of two measurements is
    accepted. */
module TornExample {
  import opened Wrappers
  import opened Bytes
  import opened Model
  import opened Ordered
  import opened Fnv
  import opened Population
  import opened Aggregation
  import opened Intermediate
  import opened Measure
  import opened Measurement
  import opened Pipeline
  import opened Phases
  import opened Resume
  import opened ResumeExamples
  import opened Torn

  // ----- how it comes about -----

  /** A run for the one part `x`, which it can measure. */
  predicate Measures(r: Run, x: SourcePart) {
    Sources(r).Ok? && Jobs(r) == [x] && MeasureSource(r, x).Ok? && StrictlyAscending(r.config.efGrid)
  }

  /** A run that does not find the pair usable and breaks off after one write leaves its truth file. */
  lemma TruthLeft(b: Bucket, r: Run, x: SourcePart)
    requires Measures(r, x) && !Look(b, r.config, x).Usable?
    ensures After(b, r, 1) == Apply(b, PutTruth(SlotOf(x), TruthFileOf(MeasureSource(r, x).value)))
  {
    hide Sources, Jobs, MeasureSource, Look, Scanned, After, TruthFileOf, SlotOf;
    ScannedOne(b, r.config, x);
    FirstWrite(b, r);
  }

  lemma PairLeft(r: Run, x: SourcePart)
    requires Measures(r, x)
    ensures After(EMPTY_BUCKET, r, 2) == LeftBehind(r, x)
    ensures HoldsTruth(LeftBehind(r, x), SlotOf(x), MeasureSource(r, x).value)
    ensures HoldsSweep(LeftBehind(r, x), SlotOf(x), MeasureSource(r, x).value)
    ensures PairAt(LeftBehind(r, x), SlotOf(x)) == Some(PartFrom(r, x))
  {
    hide Sources, Jobs, MeasureSource, Look, Scanned, After, ReadPair, PartFrom, PairPuts, ApplyAll;
    NothingFound(r.config, x);
    ScannedOne(EMPTY_BUCKET, r.config, x);
    FirstPairWritten(EMPTY_BUCKET, r);
    PairApplied(EMPTY_BUCKET, SlotOf(x), MeasureSource(r, x).value);
    MeasuredReadsBack(r, x);
  }

  /** A pair made under incompatible settings is not usable, and its sweep does not go with a truth file
      made under the others. */
  lemma OtherSettings(r: Run, other: Run, x: SourcePart)
    requires Measures(r, x) && Measures(other, x) && !IsCompatible(other.config, PartFrom(r, x))
    ensures MeasureSource(r, x).value.metadata != MeasureSource(other, x).value.metadata
    ensures !Look(LeftBehind(r, x), other.config, x).Usable?
  {
    hide Sources, Jobs, MeasureSource, ReadPair, Joined, LeftBehind, After;
    PairLeft(r, x);
    MeasuredReadsBack(other, x);
  }

  lemma TornUnusable(b: Bucket, config: AggregationConfig, x: SourcePart, m: MeasuredPart, m': MeasuredPart)
    requires HoldsTruth(b, SlotOf(x), m) && HoldsSweep(b, SlotOf(x), m') && m.metadata != m'.metadata
    ensures Look(b, config, x) == NotUsable
  {
    hide TruthSamples, WithSweeps;
  }

  lemma TruthPut(b: Bucket, slot: Slot, m: MeasuredPart, m': MeasuredPart)
    requires HoldsSweep(b, slot, m')
    ensures var b' := Apply(b, PutTruth(slot, TruthFileOf(m)));
            HoldsTruth(b', slot, m) && HoldsSweep(b', slot, m')
  {
  }

  function History(first: Run, other: Run, again: Run): seq<Attempt> {
    [Attempt(first, 2), Attempt(other, 1), Attempt(again, 1)]
  }

  lemma OneMoreAttempt(b0: Bucket, attempts: seq<Attempt>, a: Attempt)
    ensures AfterAll(b0, attempts + [a]) == After(AfterAll(b0, attempts), a.run, a.budget)
  {
    hide After;
    assert (attempts + [a])[..|attempts|] == attempts;
  }

  lemma ThreeAttempts(b0: Bucket, first: Run, other: Run, again: Run)
    ensures AfterAll(b0, History(first, other, again)) == After(After(After(b0, first, 2), other, 1), again, 1)
  {
    hide After, AfterAll;
    var a, b, c := Attempt(first, 2), Attempt(other, 1), Attempt(again, 1);
    OneCut(b0, first, 2);
    OneMoreAttempt(b0, [a], b);
    OneMoreAttempt(b0, [a] + [b], c);
    assert History(first, other, again) == [a] + [b] + [c];
  }

  /** `first` measures `x` completely; `other`, with other settings, and then `again`, with the first
      settings, each break off after the truth file. The sweep that is left is the first run's. */
  lemma MixtureLeft(first: Run, other: Run, again: Run, x: SourcePart)
    requires Measures(first, x) && Measures(other, x) && Measures(again, x)
    requires again.config == first.config && !IsCompatible(other.config, PartFrom(first, x))
    ensures var b := AfterAll(EMPTY_BUCKET, History(first, other, again));
            && HoldsTruth(b, SlotOf(x), MeasureSource(again, x).value)
            && HoldsSweep(b, SlotOf(x), MeasureSource(first, x).value)
  {
    hide Measures, Sources, Jobs, MeasureSource, Look, After, AfterAll, History, PartFrom, IsCompatible, LeftBehind,
         HoldsTruth, HoldsSweep, TruthFileOf, Apply;
    AllMeasured(first, other, again, x);
    var slot, m, m' := SlotOf(x), MeasureSource(first, x).value, MeasureSource(other, x).value;
    ThreeAttempts(EMPTY_BUCKET, first, other, again);
    PairLeft(first, x);
    OtherSettings(first, other, x);
    TruthLeft(LeftBehind(first, x), other, x);
    TruthPut(LeftBehind(first, x), slot, m', m);
    var torn := Apply(LeftBehind(first, x), PutTruth(slot, TruthFileOf(m')));
    TornUnusable(torn, again.config, x, m', m);
    TruthLeft(torn, again, x);
    TruthPut(torn, slot, MeasureSource(again, x).value, m);
  }

  lemma AllMeasured(first: Run, other: Run, again: Run, x: SourcePart)
    requires Measures(first, x) && Measures(other, x) && Measures(again, x)
    ensures MeasureSource(first, x).Ok? && MeasureSource(other, x).Ok? && MeasureSource(again, x).Ok?
  {
  }

  // ----- it does come about -----

  /** A table that answers every query with one row. */
  function Answer(recall: real, latencyMs: real): SampleOutcome {
    Measured(SampleMeasurement([7], [0.0], latencyMs, [SampleSweepResult(10, [7], recall, 1.0)]))
  }

  function Fast(vector: seq<Byte>, config: AggregationConfig): SampleOutcome { Answer(1.0, 1.0) }
  function Slow(vector: seq<Byte>, config: AggregationConfig): SampleOutcome { Answer(0.0, 2.0) }

  function LoudRun(index: string, computedAtUs: U64, measurer: Measurer): Run {
    Run(ConfigFor(MINUTE).(index := index), MINUTE, "", computedAtUs, measurer, [LoudObject(0, 1)])
  }

  function FirstRun(): Run { LoudRun("i", 5, Fast) }
  function OtherRun(): Run { LoudRun("j", 6, Fast) }
  function AgainRun(): Run { LoudRun("i", 5, Slow) }

  function Loud(): SourcePart { LoudSource(0, 1) }

  lemma LoudSources(index: string, computedAtUs: U64, measurer: Measurer)
    ensures var run := LoudRun(index, computedAtUs, measurer); Sources(run).Ok? && Jobs(run) == [Loud()]
  {
    var run := LoudRun(index, computedAtUs, measurer);
    InWindow(run, 0);
    LoudAdded(map[], 0, 1);
    hide FileOf, LoudPart, AddSource;
    OneSource(run, LoudObject(0, 1), Loud());
  }

  /** What a run measures for the one sample. */
  function LoudMeasurement(index: string, computedAtUs: U64, recall: real, latencyMs: real): MeasuredPart {
    var part, config := LoudPart(0), ConfigFor(MINUTE).(index := index);
    MeasuredPart(Metadata(part, 1, config, computedAtUs, 0, 1),
                 [TruthMeasurement(0, Fnv1a64(VECTOR), 1, 0, latencyMs, [7], [0.0])],
                 [SweepMeasurementRow(0, 10, [7], recall, 1.0, 1)])
  }

  lemma OneSwept(recall: real)
    ensures SweepRows(0, [SampleSweepResult(10, [7], recall, 1.0)])
            == Ok([SweepMeasurementRow(0, 10, [7], recall, 1.0, 1)])
  {
    var sweeps := [SampleSweepResult(10, [7], recall, 1.0)];
    assert sweeps[..0] == [] && SweepRows(0, []) == Ok([]);
    var none: seq<SweepMeasurementRow> := [];
    assert |sweeps[0].returnedKeys| == 1;
    assert none + [SweepRow(0, sweeps[0])] == [SweepMeasurementRow(0, 10, [7], recall, 1.0, 1)];
  }

  function LoudProgress(recall: real, latencyMs: real): Progress {
    var m := LoudMeasurement("", 0, recall, latencyMs);
    Progress(0, m.truths, m.sweeps)
  }

  lemma OneSample(config: AggregationConfig, measurer: Measurer, recall: real, latencyMs: real)
    requires config.k == 1 && config.efGrid == [10] && forall v, c :: measurer(v, c) == Answer(recall, latencyMs)
    ensures MeasureSamples(LoudPart(0).samples, config, measurer) == Ok(LoudProgress(recall, latencyMs))
  {
    OneSwept(recall);
    hide SweepRows, Fnv1a64;
    var samples := LoudPart(0).samples;
    var m := Answer(recall, latencyMs).m;
    assert samples[..0] == [] && MeasureSamples([], config, measurer) == Ok(Progress(0, [], []));
    assert Consistent(m, config);
    assert Measurable(samples[0]) && samples[0].recordIndex == 0;
    var noTruths: seq<TruthMeasurement>, noRows: seq<SweepMeasurementRow> := [], [];
    assert noTruths + [TruthRow(samples[0], m)] == LoudProgress(recall, latencyMs).truths;
    assert noRows + LoudProgress(recall, latencyMs).sweeps == LoudProgress(recall, latencyMs).sweeps;
    assert MeasureSample(Progress(0, [], []), samples[0], config, measurer) == Ok(LoudProgress(recall, latencyMs));
  }

  lemma LoudMeasured(index: string, computedAtUs: U64, measurer: Measurer, recall: real, latencyMs: real)
    requires forall v, c :: measurer(v, c) == Answer(recall, latencyMs)
    ensures MeasureSource(LoudRun(index, computedAtUs, measurer), Loud())
         == Ok(LoudMeasurement(index, computedAtUs, recall, latencyMs))
  {
    LoudPrepared(0);
    hide Prepared, FileOf, Fnv1a64, SweepRows, MeasureSamples;
    OneSample(LoudRun(index, computedAtUs, measurer).config, measurer, recall, latencyMs);
  }

  lemma LoudMeasures(index: string, computedAtUs: U64, measurer: Measurer, recall: real, latencyMs: real)
    requires forall v, c :: measurer(v, c) == Answer(recall, latencyMs)
    ensures Measures(LoudRun(index, computedAtUs, measurer), Loud())
  {
    LoudSources(index, computedAtUs, measurer);
    LoudMeasured(index, computedAtUs, measurer, recall, latencyMs);
    hide Sources, Jobs, MeasureSource, FileOf, Loud;
  }

  lemma OtherIncompatible()
    ensures MeasureSource(FirstRun(), Loud()).Ok? && !IsCompatible(OtherRun().config, PartFrom(FirstRun(), Loud()))
  {
    LoudMeasured("i", 5, Fast, 1.0, 1.0);
    hide MeasureSource, FileOf, Fnv1a64, Joined, LoudPart;
  }

  /** The first and the last run share their timestamp, 5. The pair they leave is readable, and neither
      run measured it: its truths are the last run's, its sweeps the first's. */
  lemma EqualTimesMixExample()
    ensures var b, slot := AfterAll(EMPTY_BUCKET, History(FirstRun(), OtherRun(), AgainRun())), SlotOf(Loud());
            var m, m' := LoudMeasurement("i", 5, 1.0, 1.0), LoudMeasurement("i", 5, 0.0, 2.0);
            && FirstRun().computedAtUs == AgainRun().computedAtUs != OtherRun().computedAtUs
            && MeasureSource(FirstRun(), Loud()) == Ok(m) && MeasureSource(AgainRun(), Loud()) == Ok(m')
            && PairAt(b, slot) == Some(IntermediatePart(m.metadata, Joined(m'.truths, m.sweeps)))
            && Joined(m'.truths, m.sweeps) != Joined(m.truths, m.sweeps)
            && Joined(m'.truths, m.sweeps) != Joined(m'.truths, m'.sweeps)
  {
    var m, m' := LoudMeasurement("i", 5, 1.0, 1.0), LoudMeasurement("i", 5, 0.0, 2.0);
    assert m.metadata == m'.metadata && FirstRun().config == AgainRun().config;
    hide LoudMeasurement, Loud, ConfigFor, FileOf, LoudObject, Joined, ReadPair, Measures, MeasureSource, AfterAll,
         History, PairAt, HoldsTruth, HoldsSweep, SlotOf, TruthFileOf, SweepFileOf;
    MixedReads(m, m');
    MixedDiffers(m, m');
    LoudMeasured("i", 5, Fast, 1.0, 1.0);
    LoudMeasured("i", 5, Slow, 0.0, 2.0);
    MixtureComesAbout();
    PairHeld(AfterAll(EMPTY_BUCKET, History(FirstRun(), OtherRun(), AgainRun())), SlotOf(Loud()), m', m);
  }

  lemma PairHeld(b: Bucket, slot: Slot, m: MeasuredPart, m': MeasuredPart)
    requires HoldsTruth(b, slot, m) && HoldsSweep(b, slot, m')
    requires ReadPair(TruthFileOf(m), SweepFileOf(m')).Ok?
    ensures PairAt(b, slot) == Some(ReadPair(TruthFileOf(m), SweepFileOf(m')).value)
  {
    hide ReadPair, TruthFileOf, SweepFileOf;
  }

  lemma MixtureComesAbout()
    ensures MeasureSource(FirstRun(), Loud()).Ok? && MeasureSource(AgainRun(), Loud()).Ok?
    ensures var b := AfterAll(EMPTY_BUCKET, History(FirstRun(), OtherRun(), AgainRun()));
            && HoldsTruth(b, SlotOf(Loud()), MeasureSource(AgainRun(), Loud()).value)
            && HoldsSweep(b, SlotOf(Loud()), MeasureSource(FirstRun(), Loud()).value)
  {
    assert FirstRun().config == AgainRun().config;
    OtherIncompatible();
    hide MeasureSource, Measures, AfterAll, History, Loud, PartFrom, IsCompatible, ConfigFor, FileOf, HoldsTruth,
         HoldsSweep;
    LoudMeasures("i", 5, Fast, 1.0, 1.0);
    LoudMeasures("j", 6, Fast, 1.0, 1.0);
    LoudMeasures("i", 5, Slow, 0.0, 2.0);
    AllMeasured(FirstRun(), OtherRun(), AgainRun(), Loud());
    MixtureLeft(FirstRun(), OtherRun(), AgainRun(), Loud());
  }

  lemma MixedReads(m: MeasuredPart, m': MeasuredPart)
    requires m == LoudMeasurement("i", 5, 1.0, 1.0) && m' == LoudMeasurement("i", 5, 0.0, 2.0)
    ensures ReadPair(TruthFileOf(m'), SweepFileOf(m)) == Ok(IntermediatePart(m.metadata, Joined(m'.truths, m.sweeps)))
  {
    ReadableExactly(TruthFileOf(m), SweepFileOf(m));
    hide ReadPair, Joined, Fnv1a64;
    assert m.truths[0].recordIndex == 0 && m'.truths[0].recordIndex == 0;
    assert Indexes(m.truths) == {0} && Indexes(m'.truths) == {0};
    MixReadsBack(m, m');
  }

  lemma MixedDiffers(m: MeasuredPart, m': MeasuredPart)
    requires m == LoudMeasurement("i", 5, 1.0, 1.0) && m' == LoudMeasurement("i", 5, 0.0, 2.0)
    ensures Joined(m'.truths, m.sweeps) != Joined(m.truths, m.sweeps)
    ensures Joined(m'.truths, m.sweeps) != Joined(m'.truths, m'.sweeps)
  {
    hide Fnv1a64;
    assert m.sweeps[..0] == [] && m'.sweeps[..0] == [];
    assert SweepsOf(m.sweeps, 0) == map[10 := SweepMeasurement(1.0, 1.0)];
    assert SweepsOf(m'.sweeps, 0) == map[10 := SweepMeasurement(0.0, 1.0)];
    assert SweepsOf(m.sweeps, 0)[10] != SweepsOf(m'.sweeps, 0)[10];
    assert Joined(m'.truths, m.sweeps)[0] != Joined(m.truths, m.sweeps)[0];
    assert Joined(m'.truths, m.sweeps)[0] != Joined(m'.truths, m'.sweeps)[0];
  }
}
