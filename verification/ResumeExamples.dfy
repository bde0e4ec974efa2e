/** Two histories after which the resumed round does not publish what an uninterrupted one would have. */
module ResumeExamples {
  import opened Wrappers
  import opened Bytes
  import opened Model
  import opened Ordered
  import opened Fnv
  import opened Population
  import opened Accounting
  import opened Aggregation
  import opened AggregationLaws
  import opened Intermediate
  import opened Measure
  import opened Measurement
  import opened Pipeline
  import opened Phases
  import opened Resume
  import Cohort
  import Frame
  import Segment

  // ----- rounds over parts without samples publish -----

  predicate Quiet(p: IntermediatePart) {
    p.samples == [] && p.metadata.measuredCount == 0 && p.metadata.failedCount == 0
  }

  lemma {:induction false} QuietTally(config: AggregationConfig, listed: map<nat, ListedPart>, n: nat,
                                      parts: seq<IntermediatePart>)
    requires forall p :: p in parts ==> Quiet(p) && IsCompatible(config, p) && p.metadata.partUlid in listed
    ensures TallyParts(config, listed, n, parts) == Ok(Tally(parts, n, 0, 0)) && SamplesOf(parts) == []
  {
    hide IsCompatible;
    if parts != [] {
      var k := |parts| - 1;
      assert parts == parts[..k] + [parts[k]];
      QuietTally(config, listed, n, parts[..k]);
    }
  }

  lemma NobodyDecides(config: AggregationConfig, aborted: bool)
    requires ValidateConfig(config).Ok?
    ensures Decide(config, aborted, []).Ok?
  {
    hide SplitThreshold;
  }

  lemma {:induction false} SmallSums(parts: seq<ListedPart>)
    requires |parts| < 1000 && forall p :: p in parts ==> p.recordCount <= p.receivedFrameCount <= 1
    ensures Available(parts).Ok? && Available(parts).value <= |parts|
    ensures FrameTotals(parts).Ok? && FrameTotals(parts).value.0 <= |parts| && FrameTotals(parts).value.1 <= |parts|
  {
    if parts != [] {
      var k := |parts| - 1;
      assert parts[k] in parts;
      SmallSums(parts[..k]);
    }
  }

  function Ulids(parts: seq<ListedPart>): (us: seq<nat>)
    ensures |us| == |parts| && forall i :: 0 <= i < |us| ==> us[i] == parts[i].partUlid
  {
    seq(|parts|, i requires 0 <= i < |parts| => parts[i].partUlid)
  }

  lemma FewListed(parts: seq<ListedPart>, lower: nat, roundEnd: nat)
    requires forall i, j :: 0 <= i < j < |parts| ==> parts[i].partUlid != parts[j].partUlid
    requires forall p :: p in parts ==> p.windowStart + p.windowSeconds < U64_LIMIT
    ensures InScopeParts(parts, lower, roundEnd).Ok?
    ensures var listed := InScopeParts(parts, lower, roundEnd).value;
            |listed| <= |parts| && forall u :: u in listed ==> listed[u] in parts
  {
    var steps := ListedSteps(parts, lower, roundEnd);
    GatherExact(steps);
    hide Gather;
    assert forall i :: 0 <= i < |parts| ==> parts[i] in parts;
    assert Admissible(steps);
    var listed := InScopeParts(parts, lower, roundEnd).value;
    forall u | u in listed ensures u in Ulids(parts) && listed[u] in parts {
      var s :| s in steps && s.Entry? && s.partUlid == u;
      var i :| 0 <= i < |steps| && steps[i] == s;
      assert Ulids(parts)[i] == u;
    }
    SetAtMost(listed.Keys, Ulids(parts));
  }

  lemma SetAtMost(s: set<nat>, t: seq<nat>)
    requires forall x :: x in s ==> x in t
    ensures |s| <= |t|
  {
    AtMostLength(s, t);
  }

  lemma SmallAccount(config: AggregationConfig, roundEnd: U64, parts: seq<ListedPart>)
    requires WindowStarts(roundEnd, config.windowDuration, config.storageWindow).Ok? && |parts| < 1000
    requires forall i, j :: 0 <= i < j < |parts| ==> parts[i].partUlid != parts[j].partUlid
    requires forall p :: p in parts ==>
      p.windowStart + p.windowSeconds < U64_LIMIT && p.recordCount <= p.receivedFrameCount <= 1
    ensures Account(config, roundEnd, parts).Ok?
  {
    WindowStartsExact(roundEnd, config.windowDuration, config.storageWindow);
    hide InScopeParts, Available, FrameTotals, CoverageOf, InOrder, WindowStarts, Admissible;
    FewListed(parts, roundEnd - config.windowDuration, roundEnd);
    var listed := InScopeParts(parts, roundEnd - config.windowDuration, roundEnd).value;
    InOrderValues(listed);
    SmallSums(InOrder(listed));
  }

  lemma QuietAggregate(b: Bucket, run: Run, n: nat, abort: Option<PhaseAAbort>)
    requires Sources(run).Ok? && ValidateConfig(run.config).Ok? && StrictlyAscending(run.config.efGrid)
    requires Account(run.config, run.roundEnd, ListedOf(Jobs(run))).Ok?
    requires forall u :: u in MeasuringOf(b, run).compatible ==> Quiet(MeasuringOf(b, run).compatible[u])
    ensures Aggregate(InputOf(run, Previous(b), Jobs(run), n, abort, MeasuringOf(b, run).compatible)).Ok?
  {
    hide Sources, Jobs, MeasuringOf, InOrder, IsCompatible, KeyedByUlid, Aggregate, DistinctIntermediates, Account,
         ValidateConfig, InScopeParts, Remainder, ListedOf, Previous, Quiet;
    var c := MeasuringOf(b, run).compatible;
    var input := InputOf(run, Previous(b), Jobs(run), n, abort, c);
    PairsAreKeyed(b, run);
    GatherKeyed(c);
    AggregateIs(input, c);
    AccountedListed(input);
    var accounts := Account(input.config, input.roundEnd, input.listedParts).value;
    PairsListed(b, run, accounts.listed);
    QuietRemainder(input, accounts, c);
  }

  /** Every pair the round has, cached or measured, is without samples. */
  predicate QuietPairs(b: Bucket, run: Run)
    requires Sources(run).Ok?
  {
    forall x :: x in Jobs(run) ==>
      && (Look(b, run.config, x).Usable? ==> Quiet(Look(b, run.config, x).part))
      && (MeasureSource(run, x).Ok? ==> Quiet(PartFrom(run, x)))
  }

  lemma OnlyQuietPairs(b: Bucket, run: Run)
    requires Sources(run).Ok? && StrictlyAscending(run.config.efGrid) && QuietPairs(b, run)
    ensures forall u :: u in MeasuringOf(b, run).compatible ==> Quiet(MeasuringOf(b, run).compatible[u])
  {
    hide Sources, Jobs, MeasuringOf, PartFrom, MeasureSource, Look, Quiet;
    forall u | u in MeasuringOf(b, run).compatible ensures Quiet(MeasuringOf(b, run).compatible[u]) {
      KeyIsJob(b, run, u);
      var x :| x in Jobs(run) && x.listed.partUlid == u;
      PartAt(b, run, x);
    }
  }

  /** A round that aborts or completes, and has only pairs without samples, publishes. */
  lemma QuietRoundPublishes(b: Bucket, run: Run)
    requires Sources(run).Ok? && ValidateConfig(run.config).Ok?
    requires Account(run.config, run.roundEnd, ListedOf(Jobs(run))).Ok?
    requires var e := EndsWith(run, PendingOf(b, run)); e.None? || e.value.Aborting?
    requires QuietPairs(b, run)
    ensures Plan(b, run).outcome.Ok?
  {
    assert StrictlyAscending(run.config.efGrid);
    OnlyQuietPairs(b, run);
    PlanIs(b, run);
    var m := MeasuringOf(b, run);
    hide Plan, Sources, Jobs, MeasuringOf, PendingOf, EndsWith, Aggregate, InputOf, OutdatedPairs, Account,
         ValidateConfig,
         Quiet, QuietPairs, ListedOf, StrictlyAscending;
    QuietAggregate(b, run, OutdatedPairs(b, run), if m.ended.Some? then Some(m.ended.value.abort) else None);
  }

  lemma QuietRemainder(input: AggregationInput, accounts: Accounts, c: map<nat, IntermediatePart>)
    requires input.config.windowDuration <= input.roundEnd && ValidateConfig(input.config).Ok?
    requires forall p :: p in InOrder(c) ==> IsCompatible(input.config, p) && p.metadata.partUlid in accounts.listed
    requires forall u :: u in c ==> Quiet(c[u])
    ensures Remainder(input, accounts, InOrder(c)).Ok?
  {
    InOrderValues(c);
    hide InOrder, IsCompatible, Quiet, ValidateConfig, Publish;
    QuietTally(input.config, accounts.listed, input.phaseAIncompatibleParts, InOrder(c));
    NobodyDecides(input.config, input.phaseAAbort.Some?);
    NoPopulation(InOrder(c));
    hide Decide, TallyParts, PopulationOf;
  }

  lemma NoPopulation(parts: seq<IntermediatePart>)
    requires SamplesOf(parts) == []
    ensures PopulationOf(parts) == []
  {
    assert Candidates([]) == [] && Survivors([]) == map[];
    hide SamplesOf, Survivors, Candidates;
  }

  // ----- stored segments -----

  const NAME: seq<Byte> := [97]
  const VECTOR: seq<Byte> := [0, 0, 0, 0]
  const WIDTH: nat := 60

  function OneRecord(): Segment.Record { Segment.Record(0, Frame.Layout(F32_DTYPE, 1, NAME, VECTOR)) }

  /** A segment of one received frame, of which these records were written. */
  function FileOf(windowStart: U64, records: seq<Segment.Record>): seq<Byte>
    requires |records| <= 1
  {
    Segment.SegmentBytes(Segment.Header(windowStart, WIDTH, 0, 0, 1, |records|, NAME), records)
  }

  lemma NameIsValid()
    ensures Cohort.ValidName(NAME)
  {
    var name: seq<int> := NAME;
    assert name[1..] == [] && Cohort.Split([]) == [[]];
    var none: seq<seq<int>> := [[]];
    assert none[1..] == [] && [97] + none[0] == name;
    assert Cohort.Split(name) == [name] && [name][1..] == [];
    assert Cohort.ValidateSegment(name).Ok?;
  }

  lemma FileParses(windowStart: U64, records: seq<Segment.Record>)
    requires |records| <= 1 && Segment.CheckFrames(records).Ok?
    ensures Segment.Parsed(FileOf(windowStart, records))
         == Ok(Segment.Segment(Segment.Header(windowStart, WIDTH, 0, 0, 1, |records|, NAME), records))
  {
    NameIsValid();
    hide Segment.Parsed, Segment.SegmentBytes, Cohort.ValidName, Segment.CheckFrames;
    Segment.WriteThenRead(Segment.Header(windowStart, WIDTH, 0, 0, 1, |records|, NAME), records);
  }

  function QuietPart(windowStart: U64): PreparedPart { PreparedPart(NAME, windowStart, WIDTH, 1, 0, []) }

  function LoudPart(windowStart: U64): PreparedPart {
    PreparedPart(NAME, windowStart, WIDTH, 1, 1, [PreparedSample(0, 1, Ok(0), Fnv1a64(VECTOR), Ok(VECTOR))])
  }

  lemma QuietPrepared(windowStart: U64)
    ensures Prepared(FileOf(windowStart, []), NAME, windowStart, WIDTH) == Ok(QuietPart(windowStart))
  {
    FileParses(windowStart, []);
    hide Segment.Parsed, FileOf;
  }

  lemma OneRecordParses()
    ensures Frame.ParseFrame(OneRecord().frame) == Ok(Frame.FrameHeader(29, F32_DTYPE, 1, 1, 4, NAME))
    ensures Frame.PayloadOf(OneRecord().frame) == VECTOR && Segment.CheckFrames([OneRecord()]).Ok?
  {
    NameIsValid();
    hide Frame.ParseFrame, Frame.Layout, Frame.PayloadOf, Cohort.ValidName;
    Frame.ValidNamesAreText(NAME);
    Frame.LayoutThenParse(F32_DTYPE, 1, NAME, VECTOR);
    assert [OneRecord()][1..] == [];
  }

  lemma LoudPrepared(windowStart: U64)
    ensures Prepared(FileOf(windowStart, [OneRecord()]), NAME, windowStart, WIDTH) == Ok(LoudPart(windowStart))
  {
    OneRecordParses();
    hide Segment.Parsed, FileOf, Frame.ParseFrame, Frame.Layout, Frame.PayloadOf, Fnv1a64, Segment.CheckFrames,
         OneRecord;
    var r := OneRecord();
    FileParses(windowStart, [r]);
    OneDeduped(r);
  }

  lemma OneDeduped(r: Segment.Record)
    requires r == OneRecord()
    ensures Deduped([r], NAME).Ok? && Deduped([r], NAME).value.samples == LoudPart(0).samples
  {
    OneRecordParses();
    hide Frame.ParseFrame, Frame.Layout, Frame.PayloadOf, Fnv1a64;
    assert [r][..0] == [];
  }

  // ----- the rounds -----

  function ConfigFor(duration: U64): AggregationConfig {
    AggregationConfig(NAME, "", "i", "t", "c", "k", 1, 0.9, 0.5, 0.5, 0.5, duration, WIDTH, [10], 0.5, 0)
  }

  lemma ConfigIsValid(duration: U64)
    requires duration == 60 || duration == 120
    ensures ValidateConfig(ConfigFor(duration)).Ok?
  {
    assert SplitThreshold(0.5) == Ok(5000);
  }

  /** A table that is always too small. */
  function NoRows(vector: seq<Byte>, config: AggregationConfig): SampleOutcome { TooFewRows(0) }

  function RoundOf(duration: U64, roundEnd: U64, computedAtUs: U64, objects: seq<SourceObject>): Run {
    Run(ConfigFor(duration), roundEnd, "", computedAtUs, NoRows, objects)
  }

  function QuietObject(windowStart: U64, partUlid: nat): SourceObject {
    SourceObject(windowStart, Some(partUlid), FileOf(windowStart, []))
  }

  function LoudObject(windowStart: U64, partUlid: nat): SourceObject {
    SourceObject(windowStart, Some(partUlid), FileOf(windowStart, [OneRecord()]))
  }

  function QuietSource(windowStart: U64, partUlid: nat): SourcePart {
    SourcePart(HeaderOf(partUlid, QuietPart(windowStart)), FileOf(windowStart, []))
  }

  function LoudSource(windowStart: U64, partUlid: nat): SourcePart {
    SourcePart(HeaderOf(partUlid, LoudPart(windowStart)), FileOf(windowStart, [OneRecord()]))
  }

  // ----- a replaced pair goes uncounted -----

  const MINUTE: nat := 60

  /** One closed window, and in it one part that only counts a dropped frame. */
  function MinuteRound(): Run { RoundOf(MINUTE, MINUTE, 2, [QuietObject(0, 1)]) }

  /** The part's pair, as an earlier configuration with another index measured it. */
  function OldPair(): MeasuredPart {
    MeasuredPart(Metadata(QuietPart(0), 1, ConfigFor(MINUTE).(index := "old"), 0, 0, 0), [], [])
  }

  function OldBucket(): Bucket {
    Bucket(map[Slot(0, 1) := Readable(TruthFileOf(OldPair()))], map[Slot(0, 1) := Readable(SweepFileOf(OldPair()))],
           map[], None)
  }

  lemma OneJob(jobs: seq<SourcePart>, x: SourcePart)
    requires JobsOf(jobs, map[x.listed.partUlid := x])
    ensures jobs == [x]
  {
    assert forall i :: 0 <= i < |jobs| ==> jobs[i] == x;
    assert map[x.listed.partUlid := x][x.listed.partUlid] in jobs;
    assert |jobs| > 1 ==> jobs[0].listed.partUlid < jobs[1].listed.partUlid;
  }

  lemma OneWindow(o: SourceObject, starts: seq<nat>)
    ensures InWindows([o], starts) == if o.windowStart in starts then [o] else []
  {
    assert [o][..0] == [];
  }

  lemma OneLoaded(o: SourceObject, cohort: seq<Byte>, width: nat)
    ensures Loaded([o], cohort, width) == AddSource(map[], o, cohort, width)
  {
    assert [o][..0] == [];
  }

  lemma TwoJobs(jobs: seq<SourcePart>, x: SourcePart, y: SourcePart)
    requires x.listed.partUlid < y.listed.partUlid
    requires JobsOf(jobs, map[y.listed.partUlid := y, x.listed.partUlid := x])
    ensures jobs == [x, y]
  {
    var m := map[y.listed.partUlid := y, x.listed.partUlid := x];
    assert m[x.listed.partUlid] in jobs && m[y.listed.partUlid] in jobs;
    var i :| 0 <= i < |jobs| && jobs[i] == x;
    var j :| 0 <= j < |jobs| && jobs[j] == y;
    assert forall k :: 0 <= k < |jobs| ==> jobs[k] == x || jobs[k] == y;
    assert jobs[0] == x;
    assert jobs[1] == y;
    assert |jobs| == 2;
  }

  lemma TwoLoaded(o: SourceObject, p: SourceObject, starts: seq<nat>, cohort: seq<Byte>, width: nat)
    requires o.windowStart in starts && p.windowStart in starts && AddSource(map[], o, cohort, width).Ok?
    ensures Loaded(InWindows([o, p], starts), cohort, width)
         == AddSource(AddSource(map[], o, cohort, width).value, p, cohort, width)
  {
    hide AddSource;
    assert [o, p][..1] == [o];
    OneWindow(o, starts);
    OneLoaded(o, cohort, width);
    assert InWindows([o, p], starts) == [o, p];
  }

  predicate Covers(run: Run, o: SourceObject) {
    var starts := WindowStarts(run.roundEnd, run.config.windowDuration, run.config.storageWindow);
    starts.Ok? && o.windowStart in starts.value
  }

  lemma InWindow(run: Run, windowStart: nat)
    requires run.config.storageWindow > 0 && run.roundEnd % run.config.storageWindow == 0
    requires run.config.windowDuration <= run.roundEnd
    requires windowStart % run.config.storageWindow == 0 && run.roundEnd - run.config.windowDuration <= windowStart
    requires windowStart + run.config.storageWindow <= run.roundEnd
    ensures WindowStarts(run.roundEnd, run.config.windowDuration, run.config.storageWindow).Ok?
    ensures windowStart in WindowStarts(run.roundEnd, run.config.windowDuration, run.config.storageWindow).value
  {
    WindowStartsExact(run.roundEnd, run.config.windowDuration, run.config.storageWindow);
  }

  lemma QuietAdded(m: map<nat, SourcePart>, windowStart: U64, partUlid: nat)
    requires partUlid !in m
    ensures AddSource(m, QuietObject(windowStart, partUlid), NAME, WIDTH)
         == Ok(m[partUlid := QuietSource(windowStart, partUlid)])
  {
    QuietPrepared(windowStart);
    hide Prepared, FileOf;
  }

  lemma LoudAdded(m: map<nat, SourcePart>, windowStart: U64, partUlid: nat)
    requires partUlid !in m
    ensures AddSource(m, LoudObject(windowStart, partUlid), NAME, WIDTH)
         == Ok(m[partUlid := LoudSource(windowStart, partUlid)])
  {
    LoudPrepared(windowStart);
    hide Prepared, FileOf, Fnv1a64;
  }

  lemma OneSource(run: Run, o: SourceObject, x: SourcePart)
    requires run.objects == [o] && Covers(run, o)
    requires AddSource(map[], o, run.config.cohort, run.config.storageWindow) == Ok(map[x.listed.partUlid := x])
    ensures Sources(run) == Ok(map[x.listed.partUlid := x]) && Jobs(run) == [x]
  {
    hide AddSource, Loaded, InWindows, InOrder, WindowStarts;
    OneWindow(o, WindowStarts(run.roundEnd, run.config.windowDuration, run.config.storageWindow).value);
    OneLoaded(o, run.config.cohort, run.config.storageWindow);
    JobsExact(run);
    OneJob(Jobs(run), x);
  }

  lemma TwoSources(run: Run, o: SourceObject, x: SourcePart, p: SourceObject, y: SourcePart)
    requires run.objects == [o, p] && Covers(run, o) && Covers(run, p) && y.listed.partUlid < x.listed.partUlid
    requires AddSource(map[], o, run.config.cohort, run.config.storageWindow) == Ok(map[x.listed.partUlid := x])
    requires AddSource(map[x.listed.partUlid := x], p, run.config.cohort, run.config.storageWindow)
          == Ok(map[x.listed.partUlid := x][y.listed.partUlid := y])
    ensures Sources(run) == Ok(map[x.listed.partUlid := x, y.listed.partUlid := y]) && Jobs(run) == [y, x]
  {
    hide AddSource, Loaded, InWindows, InOrder, WindowStarts;
    TwoLoaded(o, p, WindowStarts(run.roundEnd, run.config.windowDuration, run.config.storageWindow).value,
              run.config.cohort, run.config.storageWindow);
    JobsExact(run);
    TwoJobs(Jobs(run), y, x);
  }

  lemma MinuteSources()
    ensures Sources(MinuteRound()) == Ok(map[1 := QuietSource(0, 1)]) && Jobs(MinuteRound()) == [QuietSource(0, 1)]
  {
    InWindow(MinuteRound(), 0);
    QuietAdded(map[], 0, 1);
    hide FileOf, QuietPart, AddSource;
    OneSource(MinuteRound(), QuietObject(0, 1), QuietSource(0, 1));
  }

  lemma OldPairFound()
    ensures PairAt(OldBucket(), Slot(0, 1)) == Some(IntermediatePart(OldPair().metadata, []))
    ensures Look(OldBucket(), ConfigFor(MINUTE), QuietSource(0, 1)) == Outdated
  {
    assert ReadPair(TruthFileOf(OldPair()), SweepFileOf(OldPair())) == Ok(IntermediatePart(OldPair().metadata, [])) by {
      EmptyPairReads(OldPair().metadata);
    }
    hide ReadPair, FileOf;
  }

  lemma EmptyPairReads(m: IntermediateMetadata)
    requires m.measuredCount == 0
    ensures ReadPair(TruthFile(m, []), SweepFile(m, [])) == Ok(IntermediatePart(m, []))
  {
    assert TruthSamples([]) == Ok(map[]) && WithSweeps(map[], []) == Ok(map[]);
  }

  /** What measuring a part without samples yields. */
  lemma QuietMeasured(run: Run, windowStart: U64, partUlid: nat)
    requires run.config.cohort == NAME && run.config.storageWindow == WIDTH
    ensures MeasureSource(run, QuietSource(windowStart, partUlid))
         == Ok(MeasuredPart(Metadata(QuietPart(windowStart), partUlid, run.config, run.computedAtUs, 0, 0), [], []))
    ensures MeasureSource(run, QuietSource(windowStart, partUlid)).Ok? ==>
            Quiet(PartFrom(run, QuietSource(windowStart, partUlid)))
  {
    QuietPrepared(windowStart);
    hide Prepared, FileOf;
  }

  lemma ScannedOne(b: Bucket, config: AggregationConfig, x: SourcePart)
    ensures Scanned(b, config, [x]).pending == (if Look(b, config, x).Usable? then [] else [x])
    ensures Scanned(b, config, [x]).incompatible == CountOutdated(b, config, [x])
         == (if Look(b, config, x).Outdated? then 1 else 0)
  {
    hide Look;
    assert [x][..0] == [];
  }

  lemma EndsWithOne(run: Run, x: SourcePart)
    ensures EndsWith(run, []) == None
    ensures EndsWith(run, [x]) == match MeasureSource(run, x) case Ok(_) => None case Err(e) => Some(e)
  {
    hide MeasureSource;
    assert [x][..0] == [];
  }

  lemma MinuteAccount()
    ensures Account(ConfigFor(MINUTE), MINUTE, ListedOf([QuietSource(0, 1)])).Ok?
  {
    WindowStartsExact(MINUTE, MINUTE, WIDTH);
    hide FileOf, WindowStarts, Account;
    SmallAccount(ConfigFor(MINUTE), MINUTE, ListedOf([QuietSource(0, 1)]));
  }

  lemma MinuteOutdated()
    ensures Look(OldBucket(), MinuteRound().config, QuietSource(0, 1)).Outdated?
    ensures MeasureSource(MinuteRound(), QuietSource(0, 1)).Ok?
  {
    OldPairFound();
    QuietMeasured(MinuteRound(), 0, 1);
    hide Look, MeasureSource, FileOf, OldBucket;
  }

  lemma MinutePending()
    ensures Sources(MinuteRound()).Ok? && StrictlyAscending(MinuteRound().config.efGrid)
    ensures PendingOf(OldBucket(), MinuteRound()) == [QuietSource(0, 1)]
    ensures OutdatedPairs(OldBucket(), MinuteRound()) == 1
  {
    assert StrictlyAscending(MinuteRound().config.efGrid);
    MinuteSources();
    MinuteOutdated();
    hide MinuteRound, QuietSource, Look, OldBucket, Sources, Jobs, Scanned, CountOutdated, StrictlyAscending,
         MeasureSource;
    ScannedOne(OldBucket(), MinuteRound().config, QuietSource(0, 1));
  }

  lemma OneIsQuiet(b: Bucket, run: Run, x: SourcePart)
    requires Sources(run).Ok? && Jobs(run) == [x] && !Look(b, run.config, x).Usable?
    requires MeasureSource(run, x).Ok? && Quiet(PartFrom(run, x))
    ensures QuietPairs(b, run) && EndsWith(run, [x]) == None
  {
    hide Look, Sources, Jobs, MeasureSource, PartFrom, EndsWith, Quiet;
    EndsWithOne(run, x);
  }

  lemma MinuteIsQuiet()
    ensures Sources(MinuteRound()).Ok? && QuietPairs(OldBucket(), MinuteRound())
    ensures EndsWith(MinuteRound(), [QuietSource(0, 1)]) == None
  {
    hide Look, Sources, Jobs, MeasureSource, PartFrom, EndsWith, Quiet, QuietPairs, OldBucket, QuietSource;
    MinuteSources();
    MinuteOutdated();
    QuietMeasured(MinuteRound(), 0, 1);
    OneIsQuiet(OldBucket(), MinuteRound(), QuietSource(0, 1));
  }

  lemma MinuteRoundPublishes()
    ensures Sources(MinuteRound()).Ok? && Plan(OldBucket(), MinuteRound()).outcome.Ok?
  {
    MinuteSources();
    MinutePending();
    MinuteIsQuiet();
    MinuteAccount();
    ConfigIsValid(MINUTE);
    hide FileOf, QuietSource, OldBucket, Sources, Jobs, Account, ValidateConfig, EndsWith, QuietPairs, PendingOf, Plan,
         ListedOf;
    QuietRoundPublishes(OldBucket(), MinuteRound());
  }

  lemma MinuteIsFresh()
    ensures Sources(MinuteRound()).Ok? && Fresh(OldBucket(), MinuteRound(), {1}) && ListedOnce(MinuteRound().objects)
  {
    MinuteSources();
    hide Sources, Jobs, FileOf;
  }

  /** The attempt stops after replacing the old pair's truth file. The round that follows no longer
      counts the pair as incompatible, where an uninterrupted one counts it. */
  lemma ReplacedPairExample()
    ensures var b0, reference, attempts := OldBucket(), MinuteRound(), [Attempt(RunAt(MinuteRound(), 1), 1)];
            var clean, resumed := Plan(b0, reference).outcome, Plan(AfterAll(b0, attempts), reference).outcome;
            && Sources(reference).Ok? && Fresh(b0, reference, {1}) && AllInterrupted(b0, attempts, reference, {1}, true)
            && clean.Ok? && clean.value.incompatibleParts == 1
            && resumed == Ok(clean.value.(incompatibleParts := 0))
  {
    MinuteRoundPublishes();
    MinutePending();
    MinuteIsFresh();
    MinuteOutdated();
    hide MinuteRound, QuietSource, Look, OldBucket, Sources, Jobs, MeasureSource, Plan, Fresh, PendingOf, ListedOnce,
         AllInterrupted, AfterAll, RunAt, OutdatedPairs;
    ReplacedPairGoesUncounted(OldBucket(), MinuteRound(), 1);
    CleanCount(OldBucket(), MinuteRound());
  }

  // ----- a part measured past the clean round's abort -----

  const HOUR_PART: nat := 120

  /** The part with ULID 2 is in the earlier of the two windows and holds no records. */
  function EarlySource(): SourcePart { QuietSource(120, 2) }

  /** The part with ULID 1 is in the later window; its one record makes every round abort. */
  function LateSource(): SourcePart { LoudSource(180, 1) }

  /** The round that runs once both windows are closed. */
  function ClosedRound(): Run { RoundOf(HOUR_PART, 240, 2, [QuietObject(120, 2), LoudObject(180, 1)]) }

  /** An attempt that runs a window earlier, when the second part is not there yet. */
  function EarlierRound(): Run { RoundOf(HOUR_PART, 180, 1, [QuietObject(120, 2)]) }

  const EMPTY_BUCKET: Bucket := Bucket(map[], map[], map[], None)

  lemma EarlierSources()
    ensures Sources(EarlierRound()) == Ok(map[2 := EarlySource()]) && Jobs(EarlierRound()) == [EarlySource()]
  {
    InWindow(EarlierRound(), 120);
    QuietAdded(map[], 120, 2);
    hide FileOf, QuietPart, AddSource;
    OneSource(EarlierRound(), QuietObject(120, 2), EarlySource());
  }

  lemma ClosedSources()
    ensures Sources(ClosedRound()) == Ok(map[2 := EarlySource(), 1 := LateSource()])
    ensures Jobs(ClosedRound()) == [LateSource(), EarlySource()]
  {
    InWindow(ClosedRound(), 120);
    InWindow(ClosedRound(), 180);
    QuietAdded(map[], 120, 2);
    LoudAdded(map[2 := EarlySource()], 180, 1);
    hide FileOf, QuietPart, LoudPart, AddSource;
    TwoSources(ClosedRound(), QuietObject(120, 2), EarlySource(), LoudObject(180, 1), LateSource());
  }

  /** A part with a sample, which the table is too small for. */
  lemma LoudAborts(run: Run, windowStart: U64, partUlid: nat)
    requires run.config.cohort == NAME && run.config.storageWindow == WIDTH && run.measurer == NoRows
    ensures MeasureSource(run, LoudSource(windowStart, partUlid)) == Err(Aborting(TableSmallerThanK(0, run.config.k)))
  {
    LoudPrepared(windowStart);
    hide Prepared, FileOf, Fnv1a64;
    var samples := LoudPart(windowStart).samples;
    assert samples[..0] == [];
    assert MeasureSamples([], run.config, run.measurer) == Ok(Progress(0, [], []));
    assert MeasureSamples(samples, run.config, run.measurer) == Err(Abort(TableSmallerThanK(0, run.config.k)));
  }

  /** A round that breaks off after its first pair. */
  lemma FirstPairWritten(b: Bucket, run: Run)
    requires Sources(run).Ok? && StrictlyAscending(run.config.efGrid)
    requires PendingOf(b, run) != [] && MeasureSource(run, PendingOf(b, run)[0]).Ok?
    ensures Unpublished(b, run, 2)
    ensures var x := PendingOf(b, run)[0];
            After(b, run, 2) == ApplyAll(b, PairPuts(SlotOf(x), MeasureSource(run, x).value))
  {
    hide Sources, MeasureSource, Plan, ReadPair, ApplyAll, MeasurePending, Scanned, PairPuts, SlotOf;
    var scan, x := Scanned(b, run.config, Jobs(run)), PendingOf(b, run)[0];
    FirstMeasured(run, scan.compatible, scan.pending);
    PlanExtends(b, run, 2);
    PublishedWrites(b, run);
    var pair := PairPuts(SlotOf(x), MeasureSource(run, x).value);
    assert |pair| == 2 by { PairIsTwo(SlotOf(x), MeasureSource(run, x).value); }
    PairFirst(pair, MeasurePending(run, scan.compatible, scan.pending).puts, Plan(b, run).puts);
  }

  lemma PairIsTwo(slot: Slot, m: MeasuredPart)
    ensures |PairPuts(slot, m)| == 2
  {
  }

  lemma PairFirst(pair: seq<Put>, puts: seq<Put>, all: seq<Put>)
    requires |pair| == 2 && pair <= puts && puts <= all
    ensures Cut(all, 2) == pair
  {
    assert all[..2] == pair;
  }

  lemma PublishedWrites(b: Bucket, run: Run)
    requires Sources(run).Ok? && StrictlyAscending(run.config.efGrid)
    ensures Plan(b, run).outcome.Ok? ==> |Plan(b, run).puts| == |MeasuringOf(b, run).puts| + 2
  {
    PlanIs(b, run);
    hide Plan, Sources, Jobs, MeasuringOf, OutdatedPairs;
    FinishedCount(b, run, Jobs(run), OutdatedPairs(b, run), MeasuringOf(b, run));
  }

  lemma FinishedCount(b: Bucket, run: Run, sources: seq<SourcePart>, n: nat, m: Measuring)
    ensures Finish(b, run, sources, n, m).outcome.Ok? ==> |Finish(b, run, sources, n, m).puts| == |m.puts| + 2
  {
    hide Aggregate, InputOf;
  }

  /** A pair that a run wrote completely is used by every round with the same settings. */
  lemma WrittenPairIsUsable(b: Bucket, run: Run, x: SourcePart)
    requires Sources(run).Ok? && x in Jobs(run) && StrictlyAscending(run.config.efGrid) && MeasureSource(run, x).Ok?
    ensures var b' := ApplyAll(b, PairPuts(SlotOf(x), MeasureSource(run, x).value));
            Look(b', run.config, x) == Usable(PartFrom(run, x))
  {
    JobFrom(run, x);
    MatchesOwnSource(run, x);
    MeasuredReadsBack(run, x);
    hide Sources, Jobs, MeasureSource, ReadPair, PartFrom, MatchesSource, IsCompatible, Prepared, TruthFileOf,
         SweepFileOf;
    var m := MeasureSource(run, x).value;
    PairApplied(b, SlotOf(x), m);
    hide ApplyAll, PairPuts;
  }

  lemma PairApplied(b: Bucket, slot: Slot, m: MeasuredPart)
    ensures var b' := ApplyAll(b, PairPuts(slot, m));
            && HoldsTruth(b', slot, m) && HoldsSweep(b', slot, m)
            && forall other :: other != slot ==> SameTruth(b, b', other) && SameSweep(b, b', other)
  {
    hide TruthFileOf, SweepFileOf;
    var first, second := PutTruth(slot, TruthFileOf(m)), PutSweep(slot, SweepFileOf(m));
    assert [] + [first, second] == [first, second];
    ApplyTwo(b, [], first, second);
    hide ApplyAll;
  }

  lemma NothingFound(config: AggregationConfig, x: SourcePart)
    ensures Look(EMPTY_BUCKET, config, x) == NotUsable
  {
  }

  /** An attempt `r` for the part `x` alone, and a round `reference` that finds `y` before `x` and aborts
      at it. */
  ghost predicate PastAbort(r: Run, reference: Run, x: SourcePart, y: SourcePart) {
    && Sources(r).Ok? && Jobs(r) == [x] && MeasureSource(r, x).Ok? && Quiet(PartFrom(r, x))
    && Sources(reference).Ok? && Jobs(reference) == [y, x] && y.listed.partUlid < x.listed.partUlid
    && SameSetup(r, reference) && ValidateConfig(reference.config).Ok?
    && MeasureSource(reference, x).Ok? && Quiet(PartFrom(reference, x)) && Aborts(reference, y)
    && Account(reference.config, reference.roundEnd, ListedOf([y, x])).Ok?
  }

  /** What the attempt leaves behind: the pair of `x` and nothing else. */
  function LeftBehind(r: Run, x: SourcePart): Bucket
    requires MeasureSource(r, x).Ok?
  {
    ApplyAll(EMPTY_BUCKET, PairPuts(SlotOf(x), MeasureSource(r, x).value))
  }

  lemma AttemptLeaves(r: Run, reference: Run, x: SourcePart, y: SourcePart)
    requires PastAbort(r, reference, x, y)
    ensures AfterAll(EMPTY_BUCKET, [Attempt(r, 2)]) == LeftBehind(r, x)
    ensures AllInterrupted(EMPTY_BUCKET, [Attempt(r, 2)], reference, {r.computedAtUs}, false)
  {
    hide Sources, Jobs, MeasureSource, PartFrom, Quiet, SameSetup, Unpublished, After, PairPuts, ApplyAll, SlotOf,
         Account, Scanned, Look, Aborts, ListedOf;
    NothingFound(r.config, x);
    assert r.config == reference.config by { SetupConfig(r, reference); }
    ScannedOne(EMPTY_BUCKET, r.config, x);
    FirstPairWritten(EMPTY_BUCKET, r);
    OneCut(EMPTY_BUCKET, r, 2);
    OneInterrupted(EMPTY_BUCKET, Attempt(r, 2), reference, {r.computedAtUs});
  }

  lemma SetupConfig(r: Run, reference: Run)
    requires SameSetup(r, reference)
    ensures r.config == reference.config
  {
  }

  lemma OneCut(b0: Bucket, r: Run, budget: nat)
    ensures AfterAll(b0, [Attempt(r, budget)]) == After(b0, r, budget)
  {
    hide After;
    assert [Attempt(r, budget)][..0] == [];
  }

  lemma OneInterrupted(b0: Bucket, a: Attempt, reference: Run, times: set<U64>)
    requires Sources(reference).Ok? && SameSetup(a.run, reference) && a.run.computedAtUs in times
    requires Unpublished(b0, a.run, a.budget)
    ensures AllInterrupted(b0, [a], reference, times, false)
  {
    hide SameSetup, Unpublished, Sources, NeverAborts, After;
    assert [a][..0] == [];
    assert AfterAll(b0, []) == b0;
  }

  lemma BothFind(r: Run, reference: Run, x: SourcePart, y: SourcePart)
    requires PastAbort(r, reference, x, y)
    ensures forall z :: Look(EMPTY_BUCKET, reference.config, z) == NotUsable
    ensures Look(LeftBehind(r, x), reference.config, x) == Usable(PartFrom(r, x))
    ensures Look(LeftBehind(r, x), reference.config, y) == NotUsable
  {
    hide Sources, Jobs, MeasureSource, PartFrom, Quiet, PairPuts, ApplyAll, Account, Aborts, ListedOf;
    SetupConfig(r, reference);
    hide SameSetup;
    forall z ensures Look(EMPTY_BUCKET, reference.config, z) == NotUsable { NothingFound(reference.config, z); }
    hide Look;
    WrittenPairIsUsable(EMPTY_BUCKET, r, x);
    PairApplied(EMPTY_BUCKET, SlotOf(x), MeasureSource(r, x).value);
    assert SlotOf(y) != SlotOf(x);
    LookIntact(EMPTY_BUCKET, LeftBehind(r, x), reference.config, y);
  }

  /** The round aborts at `y`; of `x` it has what it finds in the store. */
  lemma RoundOver(b: Bucket, reference: Run, x: SourcePart, y: SourcePart)
    requires Sources(reference).Ok? && Jobs(reference) == [y, x] && y.listed.partUlid < x.listed.partUlid
    requires StrictlyAscending(reference.config.efGrid) && Aborts(reference, y)
    requires Look(b, reference.config, y) == NotUsable
    ensures EndsWith(reference, PendingOf(b, reference)).Some?
            && EndsWith(reference, PendingOf(b, reference)).value.Aborting?
    ensures var c := MeasuringOf(b, reference).compatible;
            if Look(b, reference.config, x).Usable? then c.Keys == {x.listed.partUlid} else c == map[]
  {
    hide Sources, Jobs, Look, MeasureSource, PartFrom, PendingOf, MeasuringOf, EndsWith, StrictlyAscending;
    PendingExact(b, reference);
    assert forall z :: z in Jobs(reference) <==> z == x || z == y;
    EndsWithFirst(reference, PendingOf(b, reference), y);
    assert !BeforeBad(reference, PendingOf(b, reference), y) && !BeforeBad(reference, PendingOf(b, reference), x);
    hide UlidsAscend, BeforeBad, Aborts;
    OnlyFound(b, reference, x, y);
  }

  lemma OnlyFound(b: Bucket, reference: Run, x: SourcePart, y: SourcePart)
    requires Sources(reference).Ok? && Jobs(reference) == [y, x] && StrictlyAscending(reference.config.efGrid)
    requires Look(b, reference.config, y) == NotUsable && x.listed.partUlid != y.listed.partUlid
    requires !BeforeBad(reference, PendingOf(b, reference), y) && !BeforeBad(reference, PendingOf(b, reference), x)
    ensures var c := MeasuringOf(b, reference).compatible;
            if Look(b, reference.config, x).Usable? then c.Keys == {x.listed.partUlid} else c == map[]
  {
    hide Sources, Jobs, Look, MeasureSource, PartFrom, PendingOf, MeasuringOf, StrictlyAscending, BeforeBad;
    PartAt(b, reference, x);
    PartAt(b, reference, y);
    forall u | u in MeasuringOf(b, reference).compatible ensures u == x.listed.partUlid || u == y.listed.partUlid {
      KeyIsJob(b, reference, u);
    }
  }

  /** A part that was measured past the point where the clean round aborts is in the resumed record
      and not in the clean one. */
  lemma OutOfTurnPart(r: Run, reference: Run, x: SourcePart, y: SourcePart)
    requires PastAbort(r, reference, x, y)
    ensures var b := LeftBehind(r, x);
            && !InTurn(EMPTY_BUCKET, b, reference)
            && Plan(EMPTY_BUCKET, reference).outcome.Ok? && Plan(EMPTY_BUCKET, reference).outcome.value.partsUsed == 0
            && Plan(b, reference).outcome.Ok? && Plan(b, reference).outcome.value.partsUsed == 1
  {
    BothFind(r, reference, x, y);
    hide Sources, Jobs, Look, MeasureSource, PartFrom, PendingOf, MeasuringOf, EndsWith, Account, ValidateConfig, Quiet,
         SameSetup, LeftBehind, Plan, ListedOf;
    var b := LeftBehind(r, x);
    assert !BeforeAbort(EMPTY_BUCKET, reference, x) by { assert y in Jobs(reference); }
    assert x in Jobs(reference);
    PublishesWith(EMPTY_BUCKET, reference, x, y);
    PublishesWith(b, reference, x, y);
  }

  lemma PublishesWith(b: Bucket, reference: Run, x: SourcePart, y: SourcePart)
    requires Sources(reference).Ok? && Jobs(reference) == [y, x] && y.listed.partUlid < x.listed.partUlid
    requires ValidateConfig(reference.config).Ok? && Account(reference.config, reference.roundEnd, ListedOf([y, x])).Ok?
    requires MeasureSource(reference, x).Ok? && Quiet(PartFrom(reference, x)) && Aborts(reference, y)
    requires Look(b, reference.config, y) == NotUsable
    requires Look(b, reference.config, x).Usable? ==> Quiet(Look(b, reference.config, x).part)
    ensures Plan(b, reference).outcome.Ok?
    ensures Plan(b, reference).outcome.value.partsUsed == (if Look(b, reference.config, x).Usable? then 1 else 0)
  {
    assert StrictlyAscending(reference.config.efGrid);
    hide Sources, Jobs, Look, MeasureSource, PartFrom, PendingOf, MeasuringOf, EndsWith, Account, ValidateConfig, Quiet,
         Plan, ListedOf, StrictlyAscending;
    RoundOver(b, reference, x, y);
    TwoQuiet(b, reference, x, y);
    hide QuietPairs, Aborts;
    QuietRoundPublishes(b, reference);
    PublishedUses(b, reference);
    var c := MeasuringOf(b, reference).compatible;
    assert |c.Keys| == |c|;
  }

  lemma TwoQuiet(b: Bucket, run: Run, x: SourcePart, y: SourcePart)
    requires Sources(run).Ok? && Jobs(run) == [y, x] && Look(b, run.config, y) == NotUsable
             && MeasureSource(run, y).Err?
    requires MeasureSource(run, x).Ok? && Quiet(PartFrom(run, x))
    requires Look(b, run.config, x).Usable? ==> Quiet(Look(b, run.config, x).part)
    ensures QuietPairs(b, run)
  {
    hide Sources, Jobs, Look, MeasureSource, PartFrom, Quiet;
  }

  // the concrete rounds

  lemma EarlierFacts()
    ensures Sources(EarlierRound()).Ok? && Jobs(EarlierRound()) == [EarlySource()]
    ensures MeasureSource(EarlierRound(), EarlySource()).Ok? && Quiet(PartFrom(EarlierRound(), EarlySource()))
  {
    hide FileOf, Sources, Jobs, MeasureSource, PartFrom, Quiet;
    EarlierSources();
    QuietMeasured(EarlierRound(), 120, 2);
  }

  lemma ClosedFacts()
    ensures Sources(ClosedRound()).Ok? && Jobs(ClosedRound()) == [LateSource(), EarlySource()]
    ensures MeasureSource(ClosedRound(), EarlySource()).Ok? && Quiet(PartFrom(ClosedRound(), EarlySource()))
    ensures Aborts(ClosedRound(), LateSource())
  {
    hide FileOf, Sources, Jobs, MeasureSource, PartFrom, Quiet;
    ClosedSources();
    QuietMeasured(ClosedRound(), 120, 2);
    LoudAborts(ClosedRound(), 180, 1);
  }

  lemma ClosedAccount()
    ensures Account(ClosedRound().config, 240, ListedOf([LateSource(), EarlySource()])).Ok?
  {
    WindowStartsExact(240, HOUR_PART, WIDTH);
    hide FileOf, WindowStarts, Account, Fnv1a64;
    SmallAccount(ConfigFor(HOUR_PART), 240, ListedOf([LateSource(), EarlySource()]));
  }

  lemma ExampleSetup()
    ensures SameSetup(EarlierRound(), ClosedRound()) && EarlierRound().computedAtUs == 1
            && ClosedRound().roundEnd == 240
    ensures LateSource().listed.partUlid < EarlySource().listed.partUlid
  {
    hide FileOf, Fnv1a64;
  }

  lemma ExamplePastAbort()
    ensures PastAbort(EarlierRound(), ClosedRound(), EarlySource(), LateSource()) && EarlierRound().computedAtUs == 1
  {
    hide FileOf, Sources, Jobs, MeasureSource, PartFrom, Quiet, Aborts, Account, ValidateConfig, EarlySource,
         LateSource,
         SameSetup, ListedOf;
    EarlierFacts();
    ClosedFacts();
    ClosedAccount();
    ConfigIsValid(HOUR_PART);
    ExampleSetup();
  }

  /** The attempt runs before the second part arrives and measures the first. The round that follows
      aborts at the second, whose ULID is smaller, and yet uses the first; from the empty store it would
      have aborted before it. */
  lemma OutOfTurnExample()
    ensures var b0, reference, attempts := EMPTY_BUCKET, ClosedRound(), [Attempt(EarlierRound(), 2)];
            var clean, resumed := Plan(b0, reference).outcome, Plan(AfterAll(b0, attempts), reference).outcome;
            && Sources(reference).Ok? && Fresh(b0, reference, {1})
              && AllInterrupted(b0, attempts, reference, {1}, false)
            && !InTurn(b0, AfterAll(b0, attempts), reference)
            && clean.Ok? && clean.value.partsUsed == 0 && resumed.Ok? && resumed.value.partsUsed == 1
  {
    hide EarlierRound, ClosedRound, EarlySource, LateSource, Sources, Jobs, AllInterrupted, AfterAll, InTurn, Plan,
         LeftBehind, MeasureSource, PartFrom, Quiet, SameSetup, Account, ValidateConfig, Aborts, ListedOf;
    ExamplePastAbort();
    AttemptLeaves(EarlierRound(), ClosedRound(), EarlySource(), LateSource());
    OutOfTurnPart(EarlierRound(), ClosedRound(), EarlySource(), LateSource());
  }
}
