/** One cohort round against the object store: scan stored pairs, measure what is missing, aggregate
    and publish. A round reads what it needs before it overwrites it, so its writes are a function of
    the store it starts from; a crash, a cancellation or a failed request cuts that list short. */
module Pipeline {
  import opened Wrappers
  import opened Bytes
  import opened Model
  import opened Ordered
  import opened Population
  import opened Accounting
  import opened Aggregation
  import opened Intermediate
  import opened Measure
  import opened Measurement
  import AggregateRound

  // ----- the store -----

  datatype Stored<+T> = Readable(value: T) | Malformed

  /** A storage window and a part ULID: what a pair of intermediate paths is built from. */
  datatype Slot = Slot(windowStart: nat, partUlid: nat)

  datatype Bucket = Bucket(
    truths: map<Slot, Stored<TruthFile>>, sweeps: map<Slot, Stored<SweepFile>>,
    history: map<nat, Stored<RoundOutput>>, latest: Option<Stored<RoundOutput>>)

  datatype Put =
    | PutTruth(slot: Slot, truth: TruthFile)
    | PutSweep(slot: Slot, sweep: SweepFile)
    | PutHistory(roundEnd: nat, round: RoundOutput)
    | PutLatest(round: RoundOutput)

  function Apply(b: Bucket, put: Put): Bucket {
    match put
    case PutTruth(slot, truth) => b.(truths := b.truths[slot := Readable(truth)])
    case PutSweep(slot, sweep) => b.(sweeps := b.sweeps[slot := Readable(sweep)])
    case PutHistory(roundEnd, round) => b.(history := b.history[roundEnd := Readable(round)])
    case PutLatest(round) => b.(latest := Some(Readable(round)))
  }

  function ApplyAll(b: Bucket, puts: seq<Put>): Bucket {
    if puts == [] then b else Apply(ApplyAll(b, puts[..|puts| - 1]), puts[|puts| - 1])
  }

  lemma {:induction false} ApplyConcat(b: Bucket, p: seq<Put>, q: seq<Put>)
    ensures ApplyAll(b, p + q) == ApplyAll(ApplyAll(b, p), q)
    decreases |q|
  {
    if q == [] {
      assert p + q == p;
    } else {
      ApplyConcat(b, p, q[..|q| - 1]);
      assert (p + q)[..|p + q| - 1] == p + q[..|q| - 1];
    }
  }

  // ----- source parts -----

  /** A stored segment in path order; `partUlid` is the ULID its file name spells, if any. */
  datatype SourceObject = SourceObject(windowStart: nat, partUlid: Option<nat>, bytes: seq<Byte>)

  datatype SourcePart = SourcePart(listed: ListedPart, bytes: seq<Byte>)

  datatype PipelineError =
    | AggregateFailed(aggregate: AggregateError)
    | DuplicateSourcePart(partUlid: nat)
    | SourceSegment(error: PreparePartError)
    | ReadEncodedIntermediate(intermediate: IntermediateError)
    | Disconnected(partUlid: nat)
    | Cancelled
    | Interrupted

  function SlotOf(s: SourcePart): Slot { Slot(s.listed.windowStart, s.listed.partUlid) }

  function InWindows(objects: seq<SourceObject>, starts: seq<nat>): (r: seq<SourceObject>)
    ensures forall o :: o in r ==> o in objects && o.windowStart in starts
  {
    if objects == [] then []
    else
      var rest := InWindows(objects[..|objects| - 1], starts);
      if objects[|objects| - 1].windowStart in starts then rest + [objects[|objects| - 1]] else rest
  }

  function HeaderOf(partUlid: nat, p: PreparedPart): ListedPart {
    ListedPart(partUlid, p.windowStart, p.windowSeconds, p.receivedFrameCount, p.recordCount)
  }

  function AddSource(byUlid: map<nat, SourcePart>, o: SourceObject, cohort: seq<Byte>,
                     width: nat): Result<map<nat, SourcePart>, PipelineError> {
    if o.partUlid.None? then Ok(byUlid)
    else match Prepared(o.bytes, cohort, o.windowStart, width)
      case Err(e) => Err(SourceSegment(e))
      case Ok(prepared) =>
        if o.partUlid.value in byUlid then Err(DuplicateSourcePart(o.partUlid.value))
        else Ok(byUlid[o.partUlid.value := SourcePart(HeaderOf(o.partUlid.value, prepared), o.bytes)])
  }

  /** The specification of `LoadSourceHeaders`. */
  function Loaded(objects: seq<SourceObject>, cohort: seq<Byte>,
                  width: nat): Result<map<nat, SourcePart>, PipelineError> {
    if objects == [] then Ok(map[])
    else
      var byUlid :- Loaded(objects[..|objects| - 1], cohort, width);
      AddSource(byUlid, objects[|objects| - 1], cohort, width)
  }

  lemma {:induction false} LoadedPrefix(objects: seq<SourceObject>, cohort: seq<Byte>, width: nat, n: nat)
    requires n <= |objects|
    ensures Loaded(objects[..n], cohort, width).Err? ==>
            Loaded(objects, cohort, width) == Loaded(objects[..n], cohort, width)
    decreases |objects|
  {
    hide AddSource;
    if n < |objects| {
      LoadedPrefix(objects[..|objects| - 1], cohort, width, n);
      assert objects[..|objects| - 1][..n] == objects[..n];
    } else {
      assert objects[..n] == objects;
    }
  }

  method LoadSourceHeaders(objects: seq<SourceObject>, cohort: seq<Byte>, width: nat)
    returns (r: Result<seq<SourcePart>, PipelineError>)
    ensures r == match Loaded(objects, cohort, width) case Ok(m) => Ok(InOrder(m)) case Err(e) => Err(e)
  {
    hide Prepared, InOrder;
    var byUlid: map<nat, SourcePart> := map[];
    for i := 0 to |objects|
      invariant Loaded(objects[..i], cohort, width) == Ok(byUlid)
    {
      var o := objects[i];
      assert objects[..i + 1][..i] == objects[..i];
      LoadedPrefix(objects, cohort, width, i + 1);
      if o.partUlid.None? {
        continue;
      }
      var prepared := PrepareSegment(o.bytes, cohort, o.windowStart, width);
      if prepared.Err? {
        return Err(SourceSegment(prepared.error));
      }
      if o.partUlid.value in byUlid {
        return Err(DuplicateSourcePart(o.partUlid.value));
      }
      byUlid := byUlid[o.partUlid.value := SourcePart(HeaderOf(o.partUlid.value, prepared.value), o.bytes)];
    }
    assert objects[..|objects|] == objects;
    return Ok(InOrder(byUlid));
  }

  // ----- one run -----

  datatype Run = Run(
    config: AggregationConfig, roundEnd: U64, computedAt: string, computedAtUs: U64, measurer: Measurer,
    objects: seq<SourceObject>)

  predicate MatchesSource(part: IntermediatePart, source: SourcePart, cohort: seq<Byte>) {
    var m := part.metadata;
    && m.cohort == cohort && m.partUlid == source.listed.partUlid && m.windowStart == source.listed.windowStart
    && m.windowSeconds == source.listed.windowSeconds
    && m.receivedFrameCount == source.listed.receivedFrameCount && m.recordCount == source.listed.recordCount
  }

  /** What the store holds for one source part. */
  datatype Found = Usable(part: IntermediatePart) | Outdated | NotUsable

  function PairAt(b: Bucket, slot: Slot): Option<IntermediatePart> {
    if slot in b.truths && slot in b.sweeps && b.truths[slot].Readable? && b.sweeps[slot].Readable? then
      match ReadPair(b.truths[slot].value, b.sweeps[slot].value)
      case Ok(part) => Some(part)
      case Err(_) => None
    else None
  }

  function Look(b: Bucket, config: AggregationConfig, source: SourcePart): Found {
    match PairAt(b, SlotOf(source))
    case None => NotUsable
    case Some(part) =>
      if !MatchesSource(part, source, config.cohort) then NotUsable
      else if IsCompatible(config, part) then Usable(part)
      else Outdated
  }

  datatype Scan = Scan(compatible: map<nat, IntermediatePart>, pending: seq<SourcePart>, incompatible: nat)

  function Scanned(b: Bucket, config: AggregationConfig, sources: seq<SourcePart>): Scan {
    if sources == [] then Scan(map[], [], 0)
    else
      var s := Scanned(b, config, sources[..|sources| - 1]);
      var source := sources[|sources| - 1];
      match Look(b, config, source)
      case Usable(part) => s.(compatible := s.compatible[source.listed.partUlid := part])
      case Outdated => s.(pending := s.pending + [source], incompatible := s.incompatible + 1)
      case NotUsable => s.(pending := s.pending + [source])
  }

  /** Why the measuring phase ended before its last pending part. */
  datatype Ending = Aborting(abort: PhaseAAbort) | Stopping(error: PipelineError)

  datatype Measuring = Measuring(puts: seq<Put>, compatible: map<nat, IntermediatePart>, ended: Option<Ending>)

  function EndingOf(source: SourcePart, stop: Stop): Ending {
    match stop
    case Abort(abort) => Aborting(abort)
    case ConnectionUnavailable => Stopping(Disconnected(source.listed.partUlid))
    case MeasuringCancelled => Stopping(Cancelled)
    case PartRejected(e) => Stopping(SourceSegment(e))
  }

  /** Measuring one source part under a run. */
  function MeasureSource(run: Run, source: SourcePart): Result<MeasuredPart, Ending> {
    match Prepared(source.bytes, run.config.cohort, source.listed.windowStart, run.config.storageWindow)
    case Err(e) => Err(Stopping(SourceSegment(e)))
    case Ok(prepared) =>
      match MeasuredPartOf(prepared, source.listed.partUlid, run.config, run.computedAtUs, run.measurer)
      case Err(stop) => Err(EndingOf(source, stop))
      case Ok(measured) => Ok(measured)
  }

  function PairPuts(slot: Slot, m: MeasuredPart): seq<Put> {
    [PutTruth(slot, TruthFileOf(m)), PutSweep(slot, SweepFileOf(m))]
  }

  function MeasureNextSource(run: Run, m: Measuring, source: SourcePart): Measuring {
    if m.ended.Some? then m
    else match MeasureSource(run, source)
      case Err(ending) => m.(ended := Some(ending))
      case Ok(measured) =>
        var puts := m.puts + PairPuts(SlotOf(source), measured);
        match ReadPair(TruthFileOf(measured), SweepFileOf(measured))
        case Err(e) => Measuring(puts, m.compatible, Some(Stopping(ReadEncodedIntermediate(e))))
        case Ok(part) => Measuring(puts, m.compatible[source.listed.partUlid := part], None)
  }

  function MeasurePending(run: Run, compatible: map<nat, IntermediatePart>, pending: seq<SourcePart>): Measuring {
    if pending == [] then Measuring([], compatible, None)
    else MeasureNextSource(run, MeasurePending(run, compatible, pending[..|pending| - 1]), pending[|pending| - 1])
  }

  function Previous(b: Bucket): Option<RoundOutput> {
    if b.latest.Some? && b.latest.value.Readable? then Some(b.latest.value.value) else None
  }

  function ListedOf(sources: seq<SourcePart>): (r: seq<ListedPart>)
    ensures |r| == |sources| && forall i :: 0 <= i < |r| ==> r[i] == sources[i].listed
  {
    seq(|sources|, i requires 0 <= i < |sources| => sources[i].listed)
  }

  function InputOf(run: Run, previous: Option<RoundOutput>, sources: seq<SourcePart>, incompatible: nat,
                   abort: Option<PhaseAAbort>, compatible: map<nat, IntermediatePart>): AggregationInput
  {
    AggregationInput(run.config, run.roundEnd, run.computedAt, abort, incompatible, previous,
                     ListedOf(sources), InOrder(compatible))
  }

  /** All writes of an uninterrupted round, in order, and how it ends. */
  datatype RoundPlan = RoundPlan(puts: seq<Put>, outcome: Result<RoundOutput, PipelineError>)

  function Publishing(b: Bucket, run: Run, sources: seq<SourcePart>, incompatible: nat, abort: Option<PhaseAAbort>,
                      m: Measuring): RoundPlan {
    match Aggregate(InputOf(run, Previous(b), sources, incompatible, abort, m.compatible))
    case Err(e) => RoundPlan(m.puts, Err(AggregateFailed(e)))
    case Ok(out) => RoundPlan(m.puts + [PutHistory(run.roundEnd, out), PutLatest(out)], Ok(out))
  }

  function Finish(b: Bucket, run: Run, sources: seq<SourcePart>, incompatible: nat, m: Measuring): RoundPlan {
    match m.ended
    case Some(Stopping(error)) => RoundPlan(m.puts, Err(error))
    case Some(Aborting(abort)) => Publishing(b, run, sources, incompatible, Some(abort), m)
    case None => Publishing(b, run, sources, incompatible, None, m)
  }

  /** The sources of a run: the parts of its in-scope windows, by ULID. */
  function Sources(run: Run): Result<map<nat, SourcePart>, PipelineError> {
    match WindowStarts(run.roundEnd, run.config.windowDuration, run.config.storageWindow)
    case Err(e) => Err(AggregateFailed(e))
    case Ok(starts) => Loaded(InWindows(run.objects, starts), run.config.cohort, run.config.storageWindow)
  }

  function Plan(b: Bucket, run: Run): RoundPlan {
    match Sources(run)
    case Err(e) => RoundPlan([], Err(e))
    case Ok(byUlid) =>
      var sources := InOrder(byUlid);
      var scan := Scanned(b, run.config, sources);
      Finish(b, run, sources, scan.incompatible, MeasurePending(run, scan.compatible, scan.pending))
  }

  /** A list of writes cut short. */
  function Cut(puts: seq<Put>, budget: nat): seq<Put> {
    if budget < |puts| then puts[..budget] else puts
  }

  /** The store after a round that got through `budget` of its writes. */
  function After(b: Bucket, run: Run, budget: nat): Bucket {
    ApplyAll(b, Cut(Plan(b, run).puts, budget))
  }

  function OutcomeAfter(b: Bucket, run: Run, budget: nat): Result<RoundOutput, PipelineError> {
    if budget < |Plan(b, run).puts| then Err(Interrupted) else Plan(b, run).outcome
  }

  // ----- the round, step by step -----

  class ObjectStore {
    var bucket: Bucket
    /** How many more writes succeed before the process stops. */
    var budget: nat

    constructor (bucket: Bucket, budget: nat)
      ensures this.bucket == bucket && this.budget == budget
    {
      this.bucket, this.budget := bucket, budget;
    }

    method Write(put: Put) returns (ok: bool)
      modifies this
      ensures ok == (old(budget) > 0)
      ensures bucket == (if ok then Apply(old(bucket), put) else old(bucket))
      ensures budget == (if ok then old(budget) - 1 else 0)
    {
      ok := budget > 0;
      if ok {
        bucket := Apply(bucket, put);
        budget := budget - 1;
      }
    }
  }

  method ScanSources(b: Bucket, config: AggregationConfig, sources: seq<SourcePart>) returns (r: Scan)
    ensures r == Scanned(b, config, sources)
  {
    var compatible: map<nat, IntermediatePart> := map[];
    var pending: seq<SourcePart> := [];
    var incompatible: nat := 0;
    for i := 0 to |sources|
      invariant Scanned(b, config, sources[..i]) == Scan(compatible, pending, incompatible)
    {
      var source := sources[i];
      assert sources[..i + 1][..i] == sources[..i];
      var pair := PairAt(b, SlotOf(source));
      if pair.Some? && MatchesSource(pair.value, source, config.cohort) {
        if IsCompatible(config, pair.value) {
          compatible := compatible[source.listed.partUlid := pair.value];
          continue;
        }
        incompatible := incompatible + 1;
      }
      pending := pending + [source];
    }
    assert sources[..|sources|] == sources;
    return Scan(compatible, pending, incompatible);
  }

  lemma {:induction false} PendingPrefix(run: Run, compatible: map<nat, IntermediatePart>, pending: seq<SourcePart>,
                                         n: nat)
    requires n <= |pending|
    ensures MeasurePending(run, compatible, pending[..n]).puts <= MeasurePending(run, compatible, pending).puts
    ensures MeasurePending(run, compatible, pending[..n]).ended.Some? ==>
            MeasurePending(run, compatible, pending) == MeasurePending(run, compatible, pending[..n])
    decreases |pending|
  {
    hide MeasureSource, ReadPair, PairPuts;
    if n < |pending| {
      PendingPrefix(run, compatible, pending[..|pending| - 1], n);
      assert pending[..|pending| - 1][..n] == pending[..n];
    } else {
      assert pending[..n] == pending;
    }
  }

  /** What the measuring phase did to the store before it ended or the process stopped. */
  predicate Measured(store: ObjectStore, b: Bucket, budget: nat, m: Measuring)
    reads store
  {
    |m.puts| <= budget && store.bucket == ApplyAll(b, m.puts) && store.budget == budget - |m.puts|
  }

  lemma ApplyTwo(b: Bucket, puts: seq<Put>, p: Put, q: Put)
    ensures ApplyAll(b, puts + [p]) == Apply(ApplyAll(b, puts), p)
    ensures ApplyAll(b, puts + [p, q]) == Apply(Apply(ApplyAll(b, puts), p), q)
  {
    assert (puts + [p])[..|puts|] == puts;
    assert (puts + [p, q])[..|puts| + 1] == puts + [p];
  }

  /** Measures the pending parts in order, writing each pair truth first. */
  method MeasureParts(store: ObjectStore, run: Run, initial: map<nat, IntermediatePart>, pending: seq<SourcePart>)
    returns (finished: bool, compatible: map<nat, IntermediatePart>, ended: Option<Ending>)
    modifies store
    ensures var m := MeasurePending(run, initial, pending);
            if finished then
              && m.compatible == compatible && m.ended == ended
              && Measured(store, old(store.bucket), old(store.budget), m)
            else
              && old(store.budget) < |m.puts|
              && store.bucket == ApplyAll(old(store.bucket), Cut(m.puts, old(store.budget)))
  {
    hide Prepared, MeasuredPartOf, ReadPair, ApplyAll;
    ghost var b, budget := store.bucket, store.budget;
    ghost var all := MeasurePending(run, initial, pending);
    compatible := initial;
    assert ApplyAll(b, []) == b by { NothingApplied(b); }
    for i := 0 to |pending|
      invariant MeasurePending(run, initial, pending[..i]).compatible == compatible
      invariant MeasurePending(run, initial, pending[..i]).ended == None
      invariant Measured(store, b, budget, MeasurePending(run, initial, pending[..i]))
    {
      ghost var before := MeasurePending(run, initial, pending[..i]);
      var source := pending[i];
      assert pending[..i + 1][..i] == pending[..i];
      PendingPrefix(run, initial, pending, i + 1);
      var prepared := PrepareSegment(source.bytes, run.config.cohort, source.listed.windowStart,
                                     run.config.storageWindow);
      if prepared.Err? {
        return true, compatible, Some(Stopping(SourceSegment(prepared.error)));
      }
      var outcome := MeasurePreparedPart(prepared.value, source.listed.partUlid, run.config, run.computedAtUs,
                                         run.measurer);
      if outcome.Err? {
        return true, compatible, Some(EndingOf(source, outcome.error));
      }
      var measured := outcome.value;
      ghost var first, second := PutTruth(SlotOf(source), TruthFileOf(measured)),
        PutSweep(SlotOf(source), SweepFileOf(measured));
      ApplyTwo(b, before.puts, first, second);
      assert before.puts + [first, second] <= all.puts;
      var truthStored := store.Write(PutTruth(SlotOf(source), TruthFileOf(measured)));
      if !truthStored {
        assert all.puts[..budget] == before.puts;
        return false, compatible, None;
      }
      var sweepStored := store.Write(PutSweep(SlotOf(source), SweepFileOf(measured)));
      if !sweepStored {
        assert all.puts[..budget] == before.puts + [first];
        return false, compatible, None;
      }
      var read := ReadPair(TruthFileOf(measured), SweepFileOf(measured));
      if read.Err? {
        return true, compatible, Some(Stopping(ReadEncodedIntermediate(read.error)));
      }
      compatible := compatible[source.listed.partUlid := read.value];
    }
    assert pending[..|pending|] == pending;
    return true, compatible, None;
  }

  lemma NothingApplied(b: Bucket)
    ensures ApplyAll(b, []) == b
  {
  }

  lemma CutExtends(b: Bucket, puts: seq<Put>, p: Put, q: Put, budget: nat)
    requires |puts| <= budget
    ensures var all := puts + [p, q];
            ApplyAll(b, Cut(all, budget))
            == (if budget == |puts| then ApplyAll(b, puts)
                else if budget == |puts| + 1 then Apply(ApplyAll(b, puts), p)
                else Apply(Apply(ApplyAll(b, puts), p), q))
  {
    ApplyTwo(b, puts, p, q);
    var all := puts + [p, q];
    assert all[..|puts|] == puts && all[..|puts| + 1] == puts + [p];
  }

  /** Publishes the aggregate of what was measured: history first, then latest. */
  method PublishRound(store: ObjectStore, run: Run, sources: seq<SourcePart>, incompatible: nat,
                      abort: Option<PhaseAAbort>, ghost b: Bucket, ghost budget: nat, ghost m: Measuring,
                        compatible: map<nat, IntermediatePart>)
    returns (r: Result<RoundOutput, PipelineError>)
    requires Measured(store, b, budget, m) && compatible == m.compatible && Previous(store.bucket) == Previous(b)
    modifies store
    ensures var plan := Publishing(b, run, sources, incompatible, abort, m);
            && store.bucket == ApplyAll(b, Cut(plan.puts, budget))
            && r == if budget < |plan.puts| then Err(Interrupted) else plan.outcome
  {
    hide ApplyAll, Previous;
    var previous := Previous(store.bucket);
    var output := AggregateRound.AggregateOnce(InputOf(run, previous, sources, incompatible, abort, compatible));
    if output.Err? {
      return Err(AggregateFailed(output.error));
    }
    CutExtends(b, m.puts, PutHistory(run.roundEnd, output.value), PutLatest(output.value), budget);
    var historyStored := store.Write(PutHistory(run.roundEnd, output.value));
    if !historyStored {
      return Err(Interrupted);
    }
    var latestStored := store.Write(PutLatest(output.value));
    if !latestStored {
      return Err(Interrupted);
    }
    return Ok(output.value);
  }

  lemma {:induction false} PairPutsOnly(run: Run, compatible: map<nat, IntermediatePart>, pending: seq<SourcePart>)
    ensures forall p :: p in MeasurePending(run, compatible, pending).puts ==> p.PutTruth? || p.PutSweep?
  {
    hide MeasureSource, ReadPair;
    if pending != [] { PairPutsOnly(run, compatible, pending[..|pending| - 1]); }
  }

  lemma {:induction false} PairPutsKeepLatest(b: Bucket, puts: seq<Put>)
    requires forall p :: p in puts ==> !p.PutLatest?
    ensures ApplyAll(b, puts).latest == b.latest
  {
    if puts != [] { PairPutsKeepLatest(b, puts[..|puts| - 1]); }
  }

  /** A round over the store: its writes are the planned ones, cut off after `budget` of them, and it
      publishes exactly when it gets through all of them. */
  method RunCohortRound(store: ObjectStore, run: Run) returns (r: Result<RoundOutput, PipelineError>)
    modifies store
    ensures store.bucket == After(old(store.bucket), run, old(store.budget))
    ensures r == OutcomeAfter(old(store.bucket), run, old(store.budget))
  {
    hide ApplyAll, Loaded, Scanned, MeasurePending, Publishing, InWindows, Measured;
    ghost var b, budget := store.bucket, store.budget;
    NothingApplied(b);
    var starts := InScopeWindowStarts(run.roundEnd, run.config.windowDuration, run.config.storageWindow);
    if starts.Err? {
      return Err(AggregateFailed(starts.error));
    }
    var sources := LoadSourceHeaders(InWindows(run.objects, starts.value), run.config.cohort, run.config.storageWindow);
    if sources.Err? {
      return Err(sources.error);
    }
    var scan := ScanSources(store.bucket, run.config, sources.value);
    ghost var m := MeasurePending(run, scan.compatible, scan.pending);
    PairPutsOnly(run, scan.compatible, scan.pending);
    PairPutsKeepLatest(b, m.puts);
    PlanExtends(b, run, budget);
    var finished, compatible, ended := MeasureParts(store, run, scan.compatible, scan.pending);
    if !finished {
      return Err(Interrupted);
    }
    MeasuredStore(store, b, budget, m);
    if ended.Some? && ended.value.Stopping? {
      return Err(ended.value.error);
    }
    var abort := if ended.Some? then Some(ended.value.abort) else None;
    r := PublishRound(store, run, sources.value, scan.incompatible, abort, b, budget, m, compatible);
  }

  lemma MeasuredStore(store: ObjectStore, b: Bucket, budget: nat, m: Measuring)
    requires Measured(store, b, budget, m) && ApplyAll(b, m.puts).latest == b.latest
    ensures Previous(store.bucket) == Previous(b)
    ensures |m.puts| <= budget && store.bucket == ApplyAll(b, Cut(m.puts, budget))
  {
  }

  /** A round cut short while measuring is cut short in the measuring phase of its plan. */
  lemma PlanExtends(b: Bucket, run: Run, budget: nat)
    requires Sources(run).Ok?
    ensures var scan := Scanned(b, run.config, InOrder(Sources(run).value));
            var m := MeasurePending(run, scan.compatible, scan.pending);
            && m.puts <= Plan(b, run).puts
            && (budget < |m.puts| ==>
                budget < |Plan(b, run).puts| && Cut(Plan(b, run).puts, budget) == Cut(m.puts, budget))
  {
    hide Scanned, MeasurePending, Finish;
    var scan := Scanned(b, run.config, InOrder(Sources(run).value));
    FinishExtends(b, run, InOrder(Sources(run).value), scan.incompatible,
                  MeasurePending(run, scan.compatible, scan.pending));
  }

  lemma FinishExtends(b: Bucket, run: Run, sources: seq<SourcePart>, incompatible: nat, m: Measuring)
    ensures m.puts <= Finish(b, run, sources, incompatible, m).puts
  {
    hide Aggregate, InputOf;
  }
}
