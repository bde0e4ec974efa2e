/** The collector's promises, over every interleaving and every run. */
module CollectorGuarantees {
  import opened Wrappers
  import opened Bytes
  import opened Writer
  import opened Collector
  import opened CollectorLaws
  import Cohort
  import Frame
  import Segment
  import Measure
  import Memory

  /** The writer has stopped: its channel closed and its last flush is done. */
  predicate Finished(s: Sys) { s.next.Stop? && s.work == [] }

  // ----- visible bias: nothing is lost from the accounts -----

  /** At every moment each valid frame of a cohort is in flight at a reader, in the channel or held by
      the writer, waits in the drop ledger, or is counted by a buffer or a batch; and the frames that
      were sent keep their order from the channel into the batches. */
  lemma EveryFrameIsAccountedFor(config: Config, window: nat, steps: seq<Step>, c: Name)
    requires ValidConfig(config)
    ensures var s := Run(Initial(window), config, steps);
            && CountOf(s.received, c)
               == InFlight(s.readers, c) + CountOf(Held(s.next) + s.channel, c)
                  + Drops(s.ledger, c) + ReceivedCount(s.states, c) + BatchReceived(s.batches, c)
            && FilterOf(s.sent, c)
               == BatchEvents(s.batches, c) + EventsOf(StateOf(s.states, c).records)
                 + FilterOf(Held(s.next) + s.channel, c)
  {
    RunKept(config, window, steps, c);
    hide Run, CountOf, FilterOf, InFlight, BatchReceived, BatchEvents, ValidConfig;
  }

  lemma {:induction false} NoneInFlight(readers: seq<Reader>, c: Name)
    requires forall i :: 0 <= i < |readers| ==> readers[i].Closed?
    ensures InFlight(readers, c) == 0 && ReaderBytes(readers) == 0
  {
    if readers != [] { NoneInFlight(readers[..|readers| - 1], c); }
  }

  /** Once the writer has stopped, the batches alone account for every valid frame and hold every sent
      one, and no memory is reserved any more. */
  lemma BatchesAccountForEverything(config: Config, window: nat, steps: seq<Step>, c: Name)
    requires ValidConfig(config) && Finished(Run(Initial(window), config, steps))
    ensures var s := Run(Initial(window), config, steps);
            && CountOf(s.received, c) == BatchReceived(s.batches, c)
            && FilterOf(s.sent, c) == BatchEvents(s.batches, c)
            && s.used == 0 && s.segment == None
  {
    RunKept(config, window, steps, c);
    CollectorLaws.RunInv(config, window, steps);
    hide Run, ValidConfig, Sound, Genuine, Kept, Control, MemoryInv;
    StoppedAccounts(Run(Initial(window), config, steps), config, c);
  }

  lemma StoppedAccounts(s: Sys, config: Config, c: Name)
    requires ValidConfig(config) && Finished(s) && Kept(s, c) && Control(s, config) && MemoryInv(s, config)
    ensures CountOf(s.received, c) == BatchReceived(s.batches, c) && FilterOf(s.sent, c) == BatchEvents(s.batches, c)
    ensures s.used == 0 && s.segment == None
  {
    hide CountOf, FilterOf, BatchReceived, BatchEvents, Accounted, Stream, InFlight, ReaderBytes, EventBytes,
         StatesBytes, ValidConfig, Held;
    NoneInFlight(s.readers, c);
    Uncovered(s.states);
    StoppedView(s, c);
  }

  lemma StoppedView(s: Sys, c: Name)
    requires s.next.Stop? && s.work == [] && s.channel == [] && s.ledger == map[] && s.states == map[]
    ensures CountOf(Held(s.next) + s.channel, c) == 0 && FilterOf(Held(s.next) + s.channel, c) == []
    ensures Accounted(s.ledger, s.states, s.batches, c) == BatchReceived(s.batches, c)
    ensures Stream(s.states, s.batches, c) == BatchEvents(s.batches, c)
    ensures EventBytes(Held(s.next) + s.channel) == 0 && StatesBytes(s.states) == 0
  {
    assert EventsOf([]) == [];
  }

  // ----- hard memory bounds -----

  /** What is reserved never exceeds what frames may use, no buffer exceeds its cap, and together with
      the one segment being written nothing exceeds the global limit. */
  lemma MemoryIsBounded(config: Config, window: nat, steps: seq<Step>)
    requires ValidConfig(config)
    ensures var s := Run(Initial(window), config, steps);
            && s.used <= LiveBytes(config).value
            && (forall c :: c in s.states ==> TotalBytes(s.states[c].records) == s.states[c].bytes <= config.cap)
            && s.used + (if s.segment.Some? then s.segment.value else 0) <= config.global
  {
    CollectorLaws.RunInv(config, window, steps);
    hide Run, Balanced, Control, Genuine, SoundRecords;
    var s := Run(Initial(window), config, steps);
    forall c | c in s.states ensures TotalBytes(s.states[c].records) == s.states[c].bytes <= config.cap {
      assert SoundState(s.states[c], c, s.window, config.windowSeconds, config.cap);
    }
  }

  lemma {:induction false} GuardCounted(readers: seq<Reader>, i: nat)
    requires i < |readers|
    ensures Guarded(readers[i]) <= ReaderBytes(readers)
  {
    if i < |readers| - 1 { GuardCounted(readers[..|readers| - 1], i); }
  }

  /** Giving memory back never finds less than what it returns: a reader that dropped a frame and a
      batch that was written can always proceed. */
  lemma ReleasesAlwaysPossible(config: Config, window: nat, steps: seq<Step>)
    requires ValidConfig(config)
    ensures var s := Run(Initial(window), config, steps);
            && (forall i :: 0 <= i < |s.readers| && s.readers[i].Dropped? ==> NextReader(s, config, Release(i)).Some?)
            && (s.work != [] && s.work[0].Discard? ==> forall choice :: DoWork(s, choice).Some?)
  {
    CollectorLaws.RunInv(config, window, steps);
    hide Run, WriterInv, Genuine, OneSegment, Balanced, NextReader, DoWork, ValidConfig;
    var s := Run(Initial(window), config, steps);
    forall i | 0 <= i < |s.readers| && s.readers[i].Dropped? ensures NextReader(s, config, Release(i)).Some? {
      ReleasePossible(s, config, i);
    }
    if s.work != [] && s.work[0].Discard? {
      forall choice ensures DoWork(s, choice).Some? { DiscardPossible(s, choice); }
    }
  }

  lemma ReleasePossible(s: Sys, config: Config, i: nat)
    requires ValidConfig(config) && Balanced(s) && i < |s.readers| && s.readers[i].Dropped?
    ensures NextReader(s, config, Release(i)).Some?
  {
    hide StatesBytes, EventBytes, WorkBytes, ReaderBytes;
    GuardCounted(s.readers, i);
  }

  lemma DiscardPossible(s: Sys, choice: Choice)
    requires Balanced(s) && s.work != [] && s.work[0].Discard?
    ensures DoWork(s, choice).Some?
  {
    var records := s.work[0].records;
    if records != [] { FrontBytes(records); }
    hide StatesBytes, EventBytes, ReaderBytes, TotalBytes;
  }

  /** A frame's memory can be reserved exactly when, with it, everything reserved still fits the global
      limit beside one full buffer and its serialized form. */
  lemma ReservesExactly(s: Sys, config: Config, i: nat)
    requires ValidConfig(config) && i < |s.readers| && s.readers[i].Received?
    ensures var bytes := |s.readers[i].e.frame| + 8;
            && (NextReader(s, config, Reserve(i)).Some? <==>
                 s.used + bytes + config.cap + Segment.MAX_SEGMENT_OVERHEAD_BYTES <= config.global)
            && (NextReader(s, config, Reserve(i)).Some? ==>
                 NextReader(s, config, Reserve(i)).value.used == s.used + bytes)
  {
  }

  // ----- the counter is the memory tracker's -----

  /** What a step asks of the memory tracker: a reader's reservation or release, or one guard of a
      written batch. */
  function Asks(s: Sys, step: Step): seq<Memory.CounterStep> {
    match step
    case ByReader(Reserve(i)) =>
      if ReaderAt(s, i).Received? then [Memory.Raise(BytesOf(s.readers[i].e))] else []
    case ByReader(Release(i)) =>
      if ReaderAt(s, i).Dropped? then [Memory.Lower(BytesOf(s.readers[i].e))] else []
    case Work(_) =>
      if s.work != [] && s.work[0].Discard? && s.work[0].records != [] then
        [Memory.Lower(BytesOf(s.work[0].records[0].event))]
      else []
    case _ => []
  }

  /** What a run asks of it, in order. */
  function AskedBy(config: Config, window: nat, steps: seq<Step>): seq<Memory.CounterStep>
    requires ValidConfig(config)
  {
    if steps == [] then []
    else
      var before, last := Run(Initial(window), config, steps[..|steps| - 1]), steps[|steps| - 1];
      AskedBy(config, window, steps[..|steps| - 1])
        + (if TakeStep(before, config, last).Some? then Asks(before, last) else [])
  }

  lemma StepAsks(s: Sys, config: Config, step: Step)
    requires ValidConfig(config) && TakeStep(s, config, step).Some?
    ensures var asked, used := Asks(s, step), TakeStep(s, config, step).value.used;
            if asked == [] then used == s.used
            else |asked| == 1
                 && Some(used) == match asked[0]
                                  case Raise(bytes) => Memory.Raised(s.used, bytes, LiveBytes(config).value)
                                  case Lower(bytes) => Memory.Lowered(s.used, bytes)
  {
    hide ValidEvent, ReceiveWindow, Folded, FoldedAll, Added, Flushable, Serializable, IsLargest,
         Memory.Raised, Memory.Lowered, NoRecordsAtAll, Enumerates;
  }

  /** Over every run the collector's memory counter is the tracker's: its value is what the tracker has
      after exactly the reservations and releases the run made, each of them possible in its turn. */
  lemma {:induction false} CounterIsTrackers(config: Config, window: nat, steps: seq<Step>)
    requires ValidConfig(config)
    ensures Memory.Counter(LiveBytes(config).value, AskedBy(config, window, steps))
         == Some(Run(Initial(window), config, steps).used)
  {
    hide TakeStep, Asks, Memory.Counter, Memory.Raised, Memory.Lowered;
    var live := LiveBytes(config).value;
    if steps == [] {
      Memory.NothingCounted(live);
    } else {
      var rest, last := steps[..|steps| - 1], steps[|steps| - 1];
      var before := Run(Initial(window), config, rest);
      CounterIsTrackers(config, window, rest);
      if TakeStep(before, config, last).Some? {
        StepAsks(before, config, last);
        var asked := Asks(before, last);
        if asked != [] {
          assert asked == [asked[0]];
          Memory.CounterMore(live, AskedBy(config, window, rest), asked[0]);
        }
        assert AskedBy(config, window, rest) + [] == AskedBy(config, window, rest);
      }
    }
  }

  // ----- window labels -----

  /** Every record of a batch was buffered while the batch's window was the current one, and was
      received no later than that window; every buffer belongs to the current window, so none
      survives a change of window, whichever way the clock moves. */
  lemma LabelsAreNeverEarly(config: Config, window: nat, steps: seq<Step>)
    requires ValidConfig(config)
    ensures var s := Run(Initial(window), config, steps);
            && (forall i, k :: 0 <= i < |s.batches| && 0 <= k < |s.batches[i].records| ==>
                 (s.batches[i].records[k].window == s.batches[i].window
                  && s.batches[i].records[k].event.cohort == s.batches[i].cohort
                  && ReceiveWindow(s.batches[i].records[k].event.receiveTime, config.windowSeconds)
                     <= s.batches[i].window))
            && (forall c, k :: c in s.states && 0 <= k < |s.states[c].records| ==>
                s.states[c].records[k].window == s.window)
            && (forall i :: 0 <= i < |s.batches| ==> |s.batches[i].records| <= s.batches[i].received)
  {
    CollectorLaws.RunInv(config, window, steps);
    hide Run, MemoryInv, Control, Genuine, ReceiveWindow, TotalBytes;
    var s := Run(Initial(window), config, steps);
    forall i | 0 <= i < |s.batches| ensures SoundBatch(s.batches[i], config.windowSeconds, config.cap) {}
    forall c | c in s.states ensures SoundState(s.states[c], c, s.window, config.windowSeconds, config.cap) {}
  }

  // ----- what the tuner gets -----

  function RecordsOf(records: seq<Buffered>): (rs: seq<Segment.Record>)
    ensures |rs| == |records|
    ensures forall i :: 0 <= i < |rs| ==> rs[i] == Segment.Record(records[i].event.receiveTime, records[i].event.frame)
  {
    seq(|records|, i requires 0 <= i < |records| =>
      Segment.Record(records[i].event.receiveTime, records[i].event.frame))
  }

  predicate Representable(b: Batch, windowSeconds: nat) {
    b.window < U64_LIMIT && windowSeconds < U32_LIMIT && b.received < U64_LIMIT && |b.records| < U64_LIMIT
  }

  function HeaderOf(b: Batch, windowSeconds: nat): Segment.Header
    requires Representable(b, windowSeconds)
  {
    Segment.Header(b.window, windowSeconds,
                   if b.records == [] then 0 else b.records[0].event.receiveTime,
                   if b.records == [] then 0 else b.records[|b.records| - 1].event.receiveTime,
                   b.received, |b.records|, b.cohort)
  }

  lemma {:induction false} RecordsBytesSplit(a: seq<Segment.Record>, b: seq<Segment.Record>)
    ensures Segment.RecordsBytes(a + b) == Segment.RecordsBytes(a) + Segment.RecordsBytes(b)
  {
    if a == [] {
      assert a + b == b;
    } else {
      assert (a + b)[1..] == a[1..] + b;
      RecordsBytesSplit(a[1..], b);
    }
  }

  /** The writer's byte count of a buffer is the size of its serialized records. */
  lemma {:induction false} SerializedBytes(records: seq<Buffered>)
    ensures |Segment.RecordsBytes(RecordsOf(records))| == TotalBytes(records)
  {
    if records != [] {
      var n := |records| - 1;
      SerializedBytes(records[..n]);
      var last := RecordsOf(records)[n];
      assert RecordsOf(records) == RecordsOf(records[..n]) + [last];
      RecordsBytesSplit(RecordsOf(records[..n]), [last]);
      assert [last][1..] == [];
      hide EncodeLe;
    }
  }

  lemma BatchWrites(b: Batch, config: Config)
    requires ValidConfig(config) && ValidBatch(b, config) && Representable(b, config.windowSeconds)
    ensures var w := Segment.Written(HeaderOf(b, config.windowSeconds), RecordsOf(b.records));
            w.Ok? && |w.value| == SegmentLen(b) && Serializable(b)
  {
    Frame.ValidNamesAreText(b.cohort);
    Segment.FramesParse(RecordsOf(b.records));
    SerializedBytes(b.records);
    hide EncodeLe, TotalBytes, Frame.ParseFrame, Cohort.ValidName;
  }

  lemma {:induction false} DedupSucceeds(records: seq<Segment.Record>, cohort: seq<Byte>)
    requires |records| < Measure.I32_LIMIT
    requires forall i :: 0 <= i < |records| ==> Frame.ParseFrame(records[i].frame).Ok?
    ensures Measure.Deduped(records, cohort).Ok?
    ensures forall k :: 0 <= k < |Measure.Deduped(records, cohort).value.samples| ==>
      Measure.Deduped(records, cohort).value.samples[k].dupCount <= |records|
  {
    hide Frame.ParseFrame, Frame.PayloadOf;
    if records != [] {
      DedupSucceeds(records[..|records| - 1], cohort);
    }
  }

  /** The segment a batch is written as, accepted by the tuner for the cohort and window it is stored
      under, with exactly the batch's records and counts. */
  predicate Accepted(b: Batch, config: Config)
    requires Representable(b, config.windowSeconds)
  {
    var w := Segment.Written(HeaderOf(b, config.windowSeconds), RecordsOf(b.records));
    && w.Ok? && |w.value| == SegmentLen(b)
    && (var p := Measure.Prepared(w.value, b.cohort, b.window, config.windowSeconds);
        p.Ok? && p.value.recordCount == |b.records| && p.value.receivedFrameCount == b.received)
    && Segment.Parsed(w.value) == Ok(Segment.Segment(HeaderOf(b, config.windowSeconds), RecordsOf(b.records)))
    && Labels(Segment.Parsed(w.value).value.header, b, config)
  }

  /** The segment says which window and cohort it is of, what it counts, and when its first and its last
      record were received. */
  predicate Labels(h: Segment.Header, b: Batch, config: Config) {
    && h.windowStart == b.window && h.windowSeconds == config.windowSeconds && h.cohort == b.cohort
    && h.receivedFrameCount == b.received && h.recordCount == |b.records|
    && if b.records == [] then h.firstReceive == h.lastReceive == 0
       else h.firstReceive == b.records[0].event.receiveTime
            && h.lastReceive == b.records[|b.records| - 1].event.receiveTime
  }

  lemma TunerAcceptsBatch(b: Batch, config: Config)
    requires ValidConfig(config) && SoundBatch(b, config.windowSeconds, config.cap) && ValidBatch(b, config)
    requires Representable(b, config.windowSeconds) && |b.records| < Measure.I32_LIMIT
    ensures Accepted(b, config)
  {
    BatchWrites(b, config);
    var h, rs := HeaderOf(b, config.windowSeconds), RecordsOf(b.records);
    hide SegmentLen, RecordsOf, Serializable;
    hide Segment.Written, Segment.Parsed, Measure.Deduped, SoundRecords, TotalBytes, Cohort.ValidName, Frame.ParseFrame,
         ValidConfig;
    Segment.WriteThenRead(h, rs);
    ParsesAll(b, config);
    DedupSucceeds(rs, b.cohort);
  }

  lemma ParsesAll(b: Batch, config: Config)
    requires ValidBatch(b, config)
    ensures forall i :: 0 <= i < |RecordsOf(b.records)| ==> Frame.ParseFrame(RecordsOf(b.records)[i].frame).Ok?
  {
    hide Frame.ParseFrame, Cohort.ValidName;
  }

  /** Every batch of every run becomes a segment the tuner accepts. */
  lemma TunerAcceptsAllBatches(config: Config, window: nat, steps: seq<Step>, i: nat)
    requires ValidConfig(config)
    requires var s := Run(Initial(window), config, steps);
             i < |s.batches| && Representable(s.batches[i], config.windowSeconds)
               && |s.batches[i].records| < Measure.I32_LIMIT
    ensures Accepted(Run(Initial(window), config, steps).batches[i], config)
  {
    CollectorLaws.RunInv(config, window, steps);
    hide Run, MemoryInv, Control, ReceiveWindow, Accepted, SoundBatch, ValidBatch, ValidConfig;
    TunerAcceptsBatch(Run(Initial(window), config, steps).batches[i], config);
  }
}
