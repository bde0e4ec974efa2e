/** What the phases of a round leave behind: which sources it loads, which it measures, and what every
    prefix of its writes has done to each pair. */
module Phases {
  import opened Wrappers
  import opened Bytes
  import opened Model
  import opened Ordered
  import opened Population
  import opened Accounting
  import opened Aggregation
  import opened Intermediate
  import opened Measure
  import opened Measurement
  import opened Pipeline

  // ----- sources -----

  predicate UlidsAscend(s: seq<SourcePart>) {
    forall i, j :: 0 <= i < j < |s| ==> s[i].listed.partUlid < s[j].listed.partUlid
  }

  /** The source part a stored segment becomes. */
  predicate ComesFrom(source: SourcePart, o: SourceObject, cohort: seq<Byte>, width: nat) {
    && o.partUlid == Some(source.listed.partUlid) && source.bytes == o.bytes
    && Prepared(o.bytes, cohort, o.windowStart, width).Ok?
    && source.listed == HeaderOf(source.listed.partUlid, Prepared(o.bytes, cohort, o.windowStart, width).value)
    && source.listed.windowStart == o.windowStart
  }

  lemma PreparedWindow(bytes: seq<Byte>, cohort: seq<Byte>, windowStart: nat, width: nat)
    requires Prepared(bytes, cohort, windowStart, width).Ok?
    ensures var p := Prepared(bytes, cohort, windowStart, width).value;
            p.windowStart == windowStart && p.cohort == cohort && p.windowSeconds == width && Ascend(p.samples)
  {
    PreparedRepresents(bytes, cohort, windowStart, width);
    hide Prepared, AllStand, TotalDuplicates, Frame.ParseFrame;
  }

  predicate LoadedAs(m: map<nat, SourcePart>, objects: seq<SourceObject>, starts: seq<nat>, cohort: seq<Byte>,
                     width: nat) {
    && (forall i :: 0 <= i < |objects| && objects[i].windowStart in starts && objects[i].partUlid.Some? ==>
         (objects[i].partUlid.value in m && ComesFrom(m[objects[i].partUlid.value], objects[i], cohort, width)))
    && (forall u :: u in m ==> m[u].listed.partUlid == u)
    && (forall u :: u in m ==>
         exists i :: 0 <= i < |objects| && objects[i].windowStart in starts && objects[i].partUlid == Some(u))
  }

  /** A round that loads holds exactly one source part per named segment in scope. */
  lemma {:induction false} LoadedExact(objects: seq<SourceObject>, starts: seq<nat>, cohort: seq<Byte>, width: nat)
    ensures Loaded(InWindows(objects, starts), cohort, width).Ok? ==>
            LoadedAs(Loaded(InWindows(objects, starts), cohort, width).value, objects, starts, cohort, width)
  {
    hide Prepared, ComesFrom, AddSource;
    if objects != [] && Loaded(InWindows(objects, starts), cohort, width).Ok? {
      var n := |objects| - 1;
      var o, rest := objects[n], InWindows(objects[..n], starts);
      assert forall i :: 0 <= i < n ==> objects[..n][i] == objects[i];
      assert (rest + [o])[..|rest|] == rest;
      LoadedExact(objects[..n], starts, cohort, width);
      if o.windowStart in starts {
        LoadedStep(Loaded(rest, cohort, width).value, objects, starts, cohort, width);
      }
    }
  }

  lemma LoadedStep(m: map<nat, SourcePart>, objects: seq<SourceObject>, starts: seq<nat>, cohort: seq<Byte>, width: nat)
    requires objects != [] && LoadedAs(m, objects[..|objects| - 1], starts, cohort, width)
    requires objects[|objects| - 1].windowStart in starts
    requires AddSource(m, objects[|objects| - 1], cohort, width).Ok?
    ensures LoadedAs(AddSource(m, objects[|objects| - 1], cohort, width).value, objects, starts, cohort, width)
  {
    hide Prepared;
    var n := |objects| - 1;
    var o, rest := objects[n], objects[..n];
    var m' := AddSource(m, o, cohort, width).value;
    assert forall i :: 0 <= i < n ==> rest[i] == objects[i];
    if o.partUlid.Some? {
      PreparedWindow(o.bytes, cohort, o.windowStart, width);
      assert ComesFrom(m'[o.partUlid.value], o, cohort, width);
    }
    hide ComesFrom, AddSource;
    forall u | u in m
      ensures exists i :: 0 <= i < |objects| && objects[i].windowStart in starts && objects[i].partUlid == Some(u)
    {
      var i :| 0 <= i < n && rest[i].windowStart in starts && rest[i].partUlid == Some(u);
      assert objects[i].partUlid == Some(u);
    }
  }

  lemma SourcesExact(run: Run)
    requires Sources(run).Ok?
    ensures WindowStarts(run.roundEnd, run.config.windowDuration, run.config.storageWindow).Ok?
    ensures LoadedAs(Sources(run).value, run.objects,
                     WindowStarts(run.roundEnd, run.config.windowDuration, run.config.storageWindow).value,
                     run.config.cohort, run.config.storageWindow)
  {
    hide LoadedAs, Loaded, WindowStarts;
    LoadedExact(run.objects, WindowStarts(run.roundEnd, run.config.windowDuration, run.config.storageWindow).value,
                run.config.cohort, run.config.storageWindow);
  }

  predicate SamePath(o: SourceObject, o': SourceObject) {
    o.partUlid.Some? && o.windowStart == o'.windowStart && o.partUlid == o'.partUlid
  }

  /** Stored segments never change: a part named in both listings holds the same bytes in both. Either
      listing may hold parts the other lacks. */
  predicate NeverRewritten(objects: seq<SourceObject>, objects': seq<SourceObject>) {
    forall i, j :: 0 <= i < |objects| && 0 <= j < |objects'| && SamePath(objects[i], objects'[j]) ==>
      objects[i].bytes == objects'[j].bytes
  }

  /** The part a run takes a slot for is determined by the stored segment alone, whatever else was
      listed beside it. */
  lemma SameSource(run: Run, run': Run, u: nat)
    requires run.config.cohort == run'.config.cohort && run.config.storageWindow == run'.config.storageWindow
    requires NeverRewritten(run.objects, run'.objects)
    requires Sources(run).Ok? && Sources(run').Ok? && u in Sources(run).value && u in Sources(run').value
    requires Sources(run).value[u].listed.windowStart == Sources(run').value[u].listed.windowStart
    ensures Sources(run).value[u] == Sources(run').value[u]
  {
    SourcesExact(run);
    SourcesExact(run');
    hide Sources, WindowStarts, Prepared;
    var starts := WindowStarts(run.roundEnd, run.config.windowDuration, run.config.storageWindow).value;
    var starts' := WindowStarts(run'.roundEnd, run'.config.windowDuration, run.config.storageWindow).value;
    var i :| 0 <= i < |run.objects| && run.objects[i].windowStart in starts && run.objects[i].partUlid == Some(u);
    var j :| 0 <= j < |run'.objects| && run'.objects[j].windowStart in starts' && run'.objects[j].partUlid == Some(u);
    assert ComesFrom(Sources(run).value[u], run.objects[i], run.config.cohort, run.config.storageWindow);
    assert ComesFrom(Sources(run').value[u], run'.objects[j], run.config.cohort, run.config.storageWindow);
  }

  /** The sources of a run, in ULID order. */
  function Jobs(run: Run): seq<SourcePart>
    requires Sources(run).Ok?
  {
    InOrder(Sources(run).value)
  }

  predicate JobsOf(jobs: seq<SourcePart>, byUlid: map<nat, SourcePart>) {
    && UlidsAscend(jobs)
    && (forall i :: 0 <= i < |jobs| ==>
         (jobs[i].listed.partUlid in byUlid && byUlid[jobs[i].listed.partUlid] == jobs[i]))
    && (forall u :: u in byUlid ==> byUlid[u] in jobs)
  }

  lemma InOrderIsJobs(m: map<nat, SourcePart>)
    requires forall u :: u in m ==> m[u].listed.partUlid == u
    ensures JobsOf(InOrder(m), m)
  {
    InOrderValues(m);
    var keys := Ordered.Ascending(m.Keys);
    hide Ordered.Ascending;
    assert forall i :: 0 <= i < |keys| ==> keys[i] in m.Keys;
  }

  lemma JobsExact(run: Run)
    requires Sources(run).Ok?
    ensures JobsOf(Jobs(run), Sources(run).value)
  {
    SourcesExact(run);
    hide Sources, WindowStarts, ComesFrom, InOrder;
    InOrderIsJobs(Sources(run).value);
  }

  // ----- scanning -----

  function CountOutdated(b: Bucket, config: AggregationConfig, sources: seq<SourcePart>): nat {
    if sources == [] then 0
    else
      CountOutdated(b, config, sources[..|sources| - 1])
      + (if Look(b, config, sources[|sources| - 1]).Outdated? then 1 else 0)
  }

  predicate PendingAs(pending: seq<SourcePart>, b: Bucket, config: AggregationConfig, sources: seq<SourcePart>) {
    && UlidsAscend(pending)
    && (forall x :: x in pending ==> x in sources && !Look(b, config, x).Usable?)
    && (forall x :: x in sources && !Look(b, config, x).Usable? ==> x in pending)
  }

  predicate CompatibleAs(compatible: map<nat, IntermediatePart>, b: Bucket, config: AggregationConfig,
                         sources: seq<SourcePart>) {
    && (forall x :: x in sources && Look(b, config, x).Usable? ==>
         (x.listed.partUlid in compatible && compatible[x.listed.partUlid] == Look(b, config, x).part))
    && (forall u :: u in compatible ==>
        exists x :: x in sources && x.listed.partUlid == u && Look(b, config, x).Usable?)
  }

  lemma {:induction false} ScannedExact(b: Bucket, config: AggregationConfig, sources: seq<SourcePart>)
    requires UlidsAscend(sources)
    ensures var s := Scanned(b, config, sources);
            && PendingAs(s.pending, b, config, sources) && CompatibleAs(s.compatible, b, config, sources)
            && s.incompatible == CountOutdated(b, config, sources)
  {
    hide Look, PendingAs, CompatibleAs;
    if sources == [] {
      NothingScanned(b, config);
    } else {
      var n := |sources| - 1;
      assert sources == sources[..n] + [sources[n]];
      ScannedExact(b, config, sources[..n]);
      var s := Scanned(b, config, sources[..n]);
      PendingStep(s.pending, b, config, sources[..n], sources[n]);
      CompatibleStep(s.compatible, b, config, sources[..n], sources[n]);
    }
  }

  lemma NothingScanned(b: Bucket, config: AggregationConfig)
    ensures PendingAs([], b, config, []) && CompatibleAs(map[], b, config, [])
  {
  }

  lemma PendingStep(pending: seq<SourcePart>, b: Bucket, config: AggregationConfig, rest: seq<SourcePart>,
                    last: SourcePart)
    requires UlidsAscend(rest + [last]) && PendingAs(pending, b, config, rest)
    ensures PendingAs(if Look(b, config, last).Usable? then pending else pending + [last], b, config, rest + [last])
  {
    hide Look;
    forall x | x in pending ensures x.listed.partUlid < last.listed.partUlid {
      var i :| 0 <= i < |rest| && rest[i] == x;
      assert (rest + [last])[i] == x && (rest + [last])[|rest|] == last;
    }
    assert forall i :: 0 <= i < |pending| ==> pending[i] in pending;
  }

  lemma CompatibleStep(compatible: map<nat, IntermediatePart>, b: Bucket, config: AggregationConfig,
                       rest: seq<SourcePart>, last: SourcePart)
    requires UlidsAscend(rest + [last]) && CompatibleAs(compatible, b, config, rest)
    ensures CompatibleAs(match Look(b, config, last)
                         case Usable(part) => compatible[last.listed.partUlid := part]
                         case _ => compatible, b, config, rest + [last])
  {
    hide Look;
    forall x | x in rest ensures x.listed.partUlid < last.listed.partUlid {
      var i :| 0 <= i < |rest| && rest[i] == x;
      assert (rest + [last])[i] == x && (rest + [last])[|rest|] == last;
    }
    hide UlidsAscend;
    assert forall x :: x in rest + [last] <==> x in rest || x == last;
  }

  // ----- measuring -----

  predicate BeforeBad(run: Run, pending: seq<SourcePart>, source: SourcePart) {
    source in pending && forall x :: x in pending && x.listed.partUlid <= source.listed.partUlid ==>
      MeasureSource(run, x).Ok?
  }

  /** How measuring `pending` ends: with its first part that cannot be measured. */
  function EndsWith(run: Run, pending: seq<SourcePart>): Option<Ending> {
    if pending == [] then None
    else
      var before := EndsWith(run, pending[..|pending| - 1]);
      if before.Some? then before
      else match MeasureSource(run, pending[|pending| - 1]) case Ok(_) => None case Err(e) => Some(e)
  }

  /** The pair a measured source reads back as. */
  function PartFrom(run: Run, source: SourcePart): IntermediatePart
    requires MeasureSource(run, source).Ok?
  {
    var m := MeasureSource(run, source).value;
    IntermediatePart(m.metadata, Joined(m.truths, m.sweeps))
  }

  lemma MeasuredReadsBack(run: Run, source: SourcePart)
    requires StrictlyAscending(run.config.efGrid) && MeasureSource(run, source).Ok?
    ensures var m := MeasureSource(run, source).value;
            && ReadPair(TruthFileOf(m), SweepFileOf(m)) == Ok(PartFrom(run, source))
            && m.metadata.partUlid == source.listed.partUlid && m.metadata.computedAtUs == run.computedAtUs
            && IsCompatible(run.config, PartFrom(run, source))
  {
    var prepared := Prepared(source.bytes, run.config.cohort, source.listed.windowStart,
                             run.config.storageWindow).value;
    PreparedWindow(source.bytes, run.config.cohort, source.listed.windowStart, run.config.storageWindow);
    hide Prepared, ReadPair, MeasureSamples, Contributions, Joined;
    MeasuredPairReadsBack(prepared, source.listed.partUlid, run.config, run.computedAtUs, run.measurer);
    MeasuredCoherent(prepared.samples, run.config, run.measurer);
  }

  lemma {:induction false} EndsExactly(run: Run, pending: seq<SourcePart>)
    ensures EndsWith(run, pending).None? <==> forall x :: x in pending ==> MeasureSource(run, x).Ok?
  {
    hide MeasureSource;
    if pending != [] {
      EndsExactly(run, pending[..|pending| - 1]);
      assert pending == pending[..|pending| - 1] + [pending[|pending| - 1]];
    }
  }

  lemma BeforeBadStep(run: Run, pending: seq<SourcePart>, x: SourcePart)
    requires pending != [] && UlidsAscend(pending)
    ensures var rest, last := pending[..|pending| - 1], pending[|pending| - 1];
            BeforeBad(run, pending, x) <==>
            BeforeBad(run, rest, x) || (x == last && MeasureSource(run, last).Ok? && EndsWith(run, rest).None?)
  {
    var rest, last := pending[..|pending| - 1], pending[|pending| - 1];
    hide MeasureSource, EndsWith;
    EndsExactly(run, rest);
    assert pending == rest + [last];
    assert forall y :: y in rest ==> y.listed.partUlid < last.listed.partUlid;
    assert forall y :: y in pending <==> y in rest || y == last;
  }

  lemma {:induction false} MeasuringEnds(run: Run, c: map<nat, IntermediatePart>, pending: seq<SourcePart>)
    requires StrictlyAscending(run.config.efGrid)
    ensures MeasurePending(run, c, pending).ended == EndsWith(run, pending)
  {
    hide MeasureSource, ReadPair, PartFrom;
    if pending != [] {
      MeasuringEnds(run, c, pending[..|pending| - 1]);
      if MeasureSource(run, pending[|pending| - 1]).Ok? { MeasuredReadsBack(run, pending[|pending| - 1]); }
    }
  }

  /** The last pending part. */
  lemma MeasuredLast(run: Run, c: map<nat, IntermediatePart>, rest: seq<SourcePart>, last: SourcePart)
    requires UlidsAscend(rest + [last]) && StrictlyAscending(run.config.efGrid) && last.listed.partUlid !in c
    ensures var m := MeasureNextSource(run, MeasurePending(run, c, rest), last);
            && (last.listed.partUlid in m.compatible <==> EndsWith(run, rest).None? && MeasureSource(run, last).Ok?)
            && (last.listed.partUlid in m.compatible ==> m.compatible[last.listed.partUlid] == PartFrom(run, last))
  {
    hide MeasureSource, ReadPair, PartFrom, EndsWith;
    MeasuringEnds(run, c, rest);
    if MeasureSource(run, last).Ok? { MeasuredReadsBack(run, last); }
    forall y | y in rest ensures y.listed.partUlid != last.listed.partUlid { RestBelow(rest, last, y); }
    MeasuredElsewhere(run, c, rest, last.listed.partUlid);
  }

  /** Later parts change nothing about an earlier one. */
  lemma MeasuredBefore(run: Run, m: Measuring, last: SourcePart, u: nat)
    requires u != last.listed.partUlid
    ensures u in MeasureNextSource(run, m, last).compatible <==> u in m.compatible
    ensures u in m.compatible ==> MeasureNextSource(run, m, last).compatible[u] == m.compatible[u]
  {
    hide MeasureSource, ReadPair;
  }

  /** A pending part ends up in the round's pairs exactly when it and all before it are measured. */
  lemma {:induction false} MeasuredAt(run: Run, c: map<nat, IntermediatePart>, pending: seq<SourcePart>, x: SourcePart)
    requires UlidsAscend(pending) && StrictlyAscending(run.config.efGrid) && x in pending && x.listed.partUlid !in c
    ensures x.listed.partUlid in MeasurePending(run, c, pending).compatible <==> BeforeBad(run, pending, x)
    ensures BeforeBad(run, pending, x) ==>
      (MeasureSource(run, x).Ok? && MeasurePending(run, c, pending).compatible[x.listed.partUlid] == PartFrom(run, x))
  {
    hide MeasureSource, ReadPair, PartFrom, BeforeBad, MeasureNextSource, EndsWith;
    var rest, last := pending[..|pending| - 1], pending[|pending| - 1];
    assert pending == rest + [last];
    BeforeBadStep(run, pending, x);
    if x in rest {
      RestBelow(rest, last, x);
      MeasuredAt(run, c, rest, x);
      MeasuredBefore(run, MeasurePending(run, c, rest), last, x.listed.partUlid);
    } else {
      MeasuredLast(run, c, rest, last);
      OnlyPending(run, rest, x);
    }
  }

  lemma OnlyPending(run: Run, pending: seq<SourcePart>, x: SourcePart)
    ensures BeforeBad(run, pending, x) ==> x in pending && MeasureSource(run, x).Ok?
  {
    hide MeasureSource;
  }

  lemma RestBelow(rest: seq<SourcePart>, last: SourcePart, x: SourcePart)
    requires UlidsAscend(rest + [last]) && x in rest
    ensures x.listed.partUlid < last.listed.partUlid
  {
    var i :| 0 <= i < |rest| && rest[i] == x;
    assert (rest + [last])[i] == x && (rest + [last])[|rest|] == last;
  }

  lemma {:induction false} MeasuredElsewhere(run: Run, c: map<nat, IntermediatePart>, pending: seq<SourcePart>, u: nat)
    requires forall x :: x in pending ==> x.listed.partUlid != u
    ensures u in MeasurePending(run, c, pending).compatible <==> u in c
    ensures u in c ==> MeasurePending(run, c, pending).compatible[u] == c[u]
  {
    hide MeasureSource, ReadPair;
    if pending != [] {
      var rest := pending[..|pending| - 1];
      assert pending == rest + [pending[|pending| - 1]];
      MeasuredElsewhere(run, c, rest, u);
    }
  }

  // ----- what a prefix of the writes has done -----

  predicate SameTruth(b: Bucket, b': Bucket, slot: Slot) {
    (slot in b.truths <==> slot in b'.truths) && (slot in b.truths ==> b.truths[slot] == b'.truths[slot])
  }

  predicate SameSweep(b: Bucket, b': Bucket, slot: Slot) {
    (slot in b.sweeps <==> slot in b'.sweeps) && (slot in b.sweeps ==> b.sweeps[slot] == b'.sweeps[slot])
  }

  predicate HoldsTruth(b: Bucket, slot: Slot, m: MeasuredPart) {
    slot in b.truths && b.truths[slot] == Readable(TruthFileOf(m))
  }

  predicate HoldsSweep(b: Bucket, slot: Slot, m: MeasuredPart) {
    slot in b.sweeps && b.sweeps[slot] == Readable(SweepFileOf(m))
  }

  /** The pair of `x` was rewritten by the run, truth first; the sweep may still be the old one. */
  predicate Overwritten(b: Bucket, b': Bucket, run: Run, x: SourcePart) {
    && MeasureSource(run, x).Ok?
    && HoldsTruth(b', SlotOf(x), MeasureSource(run, x).value)
    && (SameSweep(b, b', SlotOf(x)) || HoldsSweep(b', SlotOf(x), MeasureSource(run, x).value))
  }

  /** How one slot may have changed while `pending` was being measured. */
  ghost predicate SlotStep(b: Bucket, b': Bucket, run: Run, pending: seq<SourcePart>, slot: Slot) {
    || (SameTruth(b, b', slot) && SameSweep(b, b', slot))
    || exists x :: BeforeBad(run, pending, x) && SlotOf(x) == slot && Overwritten(b, b', run, x)
  }

  lemma SlotStepGrows(b: Bucket, b': Bucket, run: Run, rest: seq<SourcePart>, last: SourcePart, slot: Slot)
    requires UlidsAscend(rest + [last]) && SlotStep(b, b', run, rest, slot)
    ensures SlotStep(b, b', run, rest + [last], slot)
  {
    hide MeasureSource, BeforeBad, Overwritten;
    if !(SameTruth(b, b', slot) && SameSweep(b, b', slot)) {
      var x :| BeforeBad(run, rest, x) && SlotOf(x) == slot && Overwritten(b, b', run, x);
      assert (rest + [last])[..|rest|] == rest;
      BeforeBadStep(run, rest + [last], x);
    }
  }

  /** The store after a pair, or only its truth, has been written. */
  function Rewritten(b: Bucket, slot: Slot, m: MeasuredPart, both: bool): Bucket {
    var b' := Apply(b, PutTruth(slot, TruthFileOf(m)));
    if both then Apply(b', PutSweep(slot, SweepFileOf(m))) else b'
  }

  lemma RewritingOne(b: Bucket, slot: Slot, m: MeasuredPart, both: bool, other: Slot)
    ensures HoldsTruth(Rewritten(b, slot, m, both), slot, m)
    ensures if both then HoldsSweep(Rewritten(b, slot, m, both), slot, m)
            else SameSweep(b, Rewritten(b, slot, m, both), slot)
    ensures other != slot ==>
            SameTruth(b, Rewritten(b, slot, m, both), other) && SameSweep(b, Rewritten(b, slot, m, both), other)
  {
  }

  lemma SlotStepOther(b: Bucket, b1: Bucket, b2: Bucket, run: Run, pending: seq<SourcePart>, slot: Slot)
    requires SlotStep(b, b1, run, pending, slot) && SameTruth(b1, b2, slot) && SameSweep(b1, b2, slot)
    ensures SlotStep(b, b2, run, pending, slot)
  {
    hide MeasureSource, BeforeBad;
    if !(SameTruth(b, b1, slot) && SameSweep(b, b1, slot)) {
      var x :| BeforeBad(run, pending, x) && SlotOf(x) == slot && Overwritten(b, b1, run, x);
      assert Overwritten(b, b2, run, x);
    }
  }

  lemma SlotStepOwn(b: Bucket, b1: Bucket, b2: Bucket, run: Run, rest: seq<SourcePart>, last: SourcePart)
    requires UlidsAscend(rest + [last]) && SlotStep(b, b1, run, rest, SlotOf(last))
    requires BeforeBad(run, rest + [last], last) && MeasureSource(run, last).Ok?
    requires HoldsTruth(b2, SlotOf(last), MeasureSource(run, last).value)
    requires SameSweep(b1, b2, SlotOf(last)) || HoldsSweep(b2, SlotOf(last), MeasureSource(run, last).value)
    ensures SlotStep(b, b2, run, rest + [last], SlotOf(last))
  {
    hide MeasureSource;
    forall x | BeforeBad(run, rest, x) ensures SlotOf(x) != SlotOf(last) { RestBelow(rest, last, x); }
    hide BeforeBad;
    assert SameSweep(b, b1, SlotOf(last));
    assert Overwritten(b, b2, run, last);
  }

  /** Writing the next pair, or only its truth, after all earlier ones. */
  lemma SlotStepLast(b: Bucket, b1: Bucket, run: Run, rest: seq<SourcePart>, last: SourcePart, both: bool, slot: Slot)
    requires UlidsAscend(rest + [last]) && SlotStep(b, b1, run, rest, slot)
    requires BeforeBad(run, rest + [last], last) && MeasureSource(run, last).Ok?
    ensures SlotStep(b, Rewritten(b1, SlotOf(last), MeasureSource(run, last).value, both), run, rest + [last], slot)
  {
    hide MeasureSource, BeforeBad, SlotStep, Rewritten;
    var m := MeasureSource(run, last).value;
    var b2 := Rewritten(b1, SlotOf(last), m, both);
    RewritingOne(b1, SlotOf(last), m, both, slot);
    if slot == SlotOf(last) {
      SlotStepOwn(b, b1, b2, run, rest, last);
    } else {
      SlotStepOther(b, b1, b2, run, rest, slot);
      SlotStepGrows(b, b2, run, rest, last, slot);
    }
  }

  lemma {:induction false} PhaseSlots(b: Bucket, run: Run, c: map<nat, IntermediatePart>, pending: seq<SourcePart>,
                                      n: nat, slot: Slot)
    requires UlidsAscend(pending) && StrictlyAscending(run.config.efGrid)
    requires n <= |MeasurePending(run, c, pending).puts|
    ensures SlotStep(b, ApplyAll(b, MeasurePending(run, c, pending).puts[..n]), run, pending, slot)
  {
    hide MeasureSource, ReadPair, SlotStep, BeforeBad;
    if pending == [] {
      assert ApplyAll(b, MeasurePending(run, c, pending).puts[..n]) == b;
      NoStep(b, run, slot);
    } else {
      var rest, last := pending[..|pending| - 1], pending[|pending| - 1];
      assert pending == rest + [last];
      var before, puts := MeasurePending(run, c, rest), MeasurePending(run, c, pending).puts;
      PendingPrefix(run, c, pending, |rest|);
      if n <= |before.puts| {
        assert puts[..n] == before.puts[..n];
        PhaseSlots(b, run, c, rest, n, slot);
        SlotStepGrows(b, ApplyAll(b, puts[..n]), run, rest, last, slot);
      } else {
        PhaseSlots(b, run, c, rest, |before.puts|, slot);
        MeasuringEnds(run, c, rest);
        BeforeBadStep(run, pending, last);
        LastPair(b, run, before, last, n);
        SlotStepLast(b, ApplyAll(b, before.puts), run, rest, last, n == |before.puts| + 2, slot);
      }
    }
  }

  lemma LastPair(b: Bucket, run: Run, before: Measuring, last: SourcePart, n: nat)
    requires |before.puts| < n <= |MeasureNextSource(run, before, last).puts|
    ensures before.ended.None? && MeasureSource(run, last).Ok?
    ensures before.puts[..|before.puts|] == before.puts
    ensures ApplyAll(b, MeasureNextSource(run, before, last).puts[..n])
         == Rewritten(ApplyAll(b, before.puts), SlotOf(last), MeasureSource(run, last).value, n == |before.puts| + 2)
  {
    hide MeasureSource, ReadPair, ApplyAll;
    var m := MeasureSource(run, last).value;
    var first, second := PutTruth(SlotOf(last), TruthFileOf(m)), PutSweep(SlotOf(last), SweepFileOf(m));
    ApplyTwo(b, before.puts, first, second);
    var puts := MeasureNextSource(run, before, last).puts;
    assert puts == before.puts + [first, second];
    assert puts[..n] == before.puts + (if n == |before.puts| + 1 then [first] else [first, second]);
  }

  lemma NoStep(b: Bucket, run: Run, slot: Slot)
    ensures SlotStep(b, b, run, [], slot)
  {
  }
}
