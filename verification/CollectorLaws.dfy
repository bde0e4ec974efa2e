/** What every run of the collector keeps: no accepted frame is lost from the accounts, reordered or
    mislabelled, and memory stays within its caps. */
module CollectorLaws {
  import opened Wrappers
  import opened Bytes
  import opened Writer
  import opened Collector
  import Cohort
  import Frame
  import Segment
  import Measure
  import Timestamp

  // ----- counting and selecting events -----

  function CountOf(es: seq<Event>, c: Name): nat {
    if es == [] then 0 else CountOf(es[..|es| - 1], c) + (if es[|es| - 1].cohort == c then 1 else 0)
  }

  function FilterOf(es: seq<Event>, c: Name): seq<Event> {
    if es == [] then [] else FilterOf(es[..|es| - 1], c) + (if es[|es| - 1].cohort == c then [es[|es| - 1]] else [])
  }

  lemma {:induction false} CountConcat(a: seq<Event>, b: seq<Event>, c: Name)
    ensures CountOf(a + b, c) == CountOf(a, c) + CountOf(b, c)
    decreases |b|
  {
    if b == [] {
      assert a + b == a;
    } else {
      assert (a + b)[..|a + b| - 1] == a + b[..|b| - 1];
      CountConcat(a, b[..|b| - 1], c);
    }
  }

  lemma {:induction false} FilterConcat(a: seq<Event>, b: seq<Event>, c: Name)
    ensures FilterOf(a + b, c) == FilterOf(a, c) + FilterOf(b, c)
    decreases |b|
  {
    if b == [] {
      assert a + b == a;
    } else {
      assert (a + b)[..|a + b| - 1] == a + b[..|b| - 1];
      FilterConcat(a, b[..|b| - 1], c);
    }
  }

  lemma One(e: Event, c: Name)
    ensures CountOf([e], c) == (if e.cohort == c then 1 else 0)
    ensures FilterOf([e], c) == (if e.cohort == c then [e] else [])
  {
    assert [e][..0] == [];
  }

  /** A reader's frame that has been counted as valid but is neither sent nor recorded as dropped. */
  function Weight(r: Reader, c: Name): nat {
    if (r.Received? || r.Reserved? || r.Refused? || r.Unsent?) && r.e.cohort == c then 1 else 0
  }

  function InFlight(readers: seq<Reader>, c: Name): nat {
    if readers == [] then 0 else InFlight(readers[..|readers| - 1], c) + Weight(readers[|readers| - 1], c)
  }

  lemma {:induction false} InFlightSet(readers: seq<Reader>, i: nat, r: Reader, c: Name)
    requires i < |readers|
    ensures InFlight(readers[i := r], c) + Weight(readers[i], c) == InFlight(readers, c) + Weight(r, c)
  {
    var n := |readers| - 1;
    if i == n {
      assert readers[i := r][..n] == readers[..n];
    } else {
      InFlightSet(readers[..n], i, r, c);
      assert readers[i := r][..n] == readers[..n][i := r];
    }
  }

  /** The frame the writer has taken off the channel and not yet buffered. */
  function Held(next: Next): seq<Event> {
    match next
    case OpenFor(e) => [e]
    case FoldFor(e) => [e]
    case SpillFor(e) => [e]
    case LargestFor(e) => [e]
    case AddFor(e) => [e]
    case _ => []
  }

  // ----- conservation and order -----

  /** Every valid frame of a cohort is in flight, in the channel, held, recorded as dropped, counted by
      a buffer or counted by a batch. */
  predicate Conserved(s: Sys, c: Name) {
    CountOf(s.received, c)
    == InFlight(s.readers, c) + CountOf(Held(s.next) + s.channel, c) + Accounted(s.ledger, s.states, s.batches, c)
  }

  /** The frames sent for a cohort are in its batches, its buffer and the channel, in that order, each
      once. */
  predicate InSequence(s: Sys, c: Name) {
    FilterOf(s.sent, c) == Stream(s.states, s.batches, c) + FilterOf(Held(s.next) + s.channel, c)
  }

  predicate Kept(s: Sys, c: Name) { Conserved(s, c) && InSequence(s, c) }

  lemma InitialKept(window: nat, c: Name)
    ensures Kept(Initial(window), c)
  {
    assert EventsOf([]) == [];
  }

  /** What `Kept` looks at. */
  predicate SameView(s: Sys, s': Sys, c: Name) {
    && s'.received == s.received && s'.sent == s.sent && Held(s'.next) + s'.channel == Held(s.next) + s.channel
    && InFlight(s'.readers, c) == InFlight(s.readers, c)
    && Accounted(s'.ledger, s'.states, s'.batches, c) == Accounted(s.ledger, s.states, s.batches, c)
    && Stream(s'.states, s'.batches, c) == Stream(s.states, s.batches, c)
  }

  lemma SameViewKept(s: Sys, s': Sys, c: Name)
    requires Kept(s, c) && SameView(s, s', c)
    ensures Kept(s', c)
  {
  }

  lemma AcceptKeeps(s: Sys, c: Name)
    requires Kept(s, c)
    ensures Kept(s.(readers := s.readers + [Reading]), c)
  {
    assert (s.readers + [Reading])[..|s.readers|] == s.readers;
    hide Accounted, Stream, CountOf, FilterOf;
  }

  lemma ReceiveKeeps(s: Sys, i: nat, e: Event, c: Name)
    requires Kept(s, c) && i < |s.readers| && Weight(s.readers[i], c) == 0
    ensures Kept(Set(s, i, Received(e)).(received := s.received + [e]), c)
  {
    InFlightSet(s.readers, i, Received(e), c);
    CountConcat(s.received, [e], c);
    One(e, c);
    hide Accounted, Stream, CountOf, FilterOf, InFlight;
  }

  lemma Associative(a: seq<Event>, b: seq<Event>, x: seq<Event>)
    ensures a + (b + x) == (a + b) + x
  {
  }

  lemma SendKeeps(s: Sys, i: nat, e: Event, c: Name)
    requires Kept(s, c) && i < |s.readers| && s.readers[i] == Reserved(e)
    ensures Kept(Set(s, i, Reading).(channel := s.channel + [e], sent := s.sent + [e]), c)
  {
    hide Accounted, Stream, CountOf, FilterOf, InFlight, Held;
    var queue, x := Held(s.next) + s.channel, FilterOf([e], c);
    Associative(Held(s.next), s.channel, [e]);
    assert Conserved(Set(s, i, Reading).(channel := s.channel + [e], sent := s.sent + [e]), c) by {
      InFlightSet(s.readers, i, Reading, c);
      One(e, c);
      CountConcat(queue, [e], c);
    }
    FilterConcat(s.sent, [e], c);
    FilterConcat(queue, [e], c);
    Associative(Stream(s.states, s.batches, c), FilterOf(queue, c), x);
    hide Conserved;
  }

  lemma RecordKeeps(s: Sys, i: nat, r: Reader, c: Name)
    requires Kept(s, c) && i < |s.readers| && (s.readers[i].Refused? || s.readers[i].Unsent?) && Weight(r, c) == 0
    ensures Kept(Set(s, i, r).(ledger := Recorded(s.ledger, s.readers[i].e.cohort)), c)
  {
    InFlightSet(s.readers, i, r, c);
    hide Stream, CountOf, FilterOf, InFlight, Held, BatchReceived;
  }

  lemma QuietKeeps(s: Sys, i: nat, r: Reader, used: nat, c: Name)
    requires Kept(s, c) && i < |s.readers| && Weight(s.readers[i], c) == Weight(r, c)
    ensures Kept(Set(s, i, r).(used := used), c)
  {
    InFlightSet(s.readers, i, r, c);
    hide Accounted, Stream, CountOf, FilterOf, InFlight, Held;
  }

  lemma ReaderKeeps(s: Sys, config: Config, step: ReaderStep, c: Name)
    requires ValidConfig(config) && Kept(s, c) && NextReader(s, config, step).Some?
    ensures Kept(NextReader(s, config, step).value, c)
  {
    hide ValidEvent, Kept;
    var s' := NextReader(s, config, step).value;
    match step {
      case Accept => AcceptKeeps(s, c);
      case Receive(i, e) => ReceiveKeeps(s, i, e, c);
      case Send(i) => SendKeeps(s, i, s.readers[i].e, c);
      case Reserve(i) => QuietKeeps(s, i, s'.readers[i], s'.used, c);
      case Refuse(i) => QuietKeeps(s, i, s'.readers[i], s.used, c);
      case SendFails(i) => QuietKeeps(s, i, s'.readers[i], s.used, c);
      case Record(i) => RecordKeeps(s, i, s'.readers[i], c);
      case Release(i) => QuietKeeps(s, i, s'.readers[i], s'.used, c);
      case Close(i) => QuietKeeps(s, i, s'.readers[i], s.used, c);
    }
  }

  lemma WorkKeeps(s: Sys, choice: Choice, c: Name)
    requires Kept(s, c) && s.work != [] && DoWork(s, choice).Some?
    ensures Kept(DoWork(s, choice).value, c)
  {
    hide Accounted, Stream, CountOf, FilterOf, InFlight, FoldedAll, Folded;
    match s.work[0] {
      case FoldAll => FoldAllKeeps(s.ledger, s.states, s.batches, c);
      case Flush(d) => FoldKeeps(s.ledger, s.states, s.batches, d, c);
      case Take(d) =>
        if Flushable(s.states, d) { TakeKeeps(s.ledger, s.states, s.batches, d, s.window, c); }
      case _ =>
    }
  }

  lemma AddedKept(s: Sys, e: Event, c: Name)
    requires Kept(s, c) && s.next == AddFor(e)
    ensures Kept(s.(states := Added(s.states, e, s.window), next := Waiting), c)
  {
    hide Accounted, Stream, CountOf, FilterOf, InFlight, Added;
    AddKeeps(s.ledger, s.states, s.batches, e, s.window, c);
    One(e, c);
    assert [] + s.channel == s.channel;
    assert Conserved(s.(states := Added(s.states, e, s.window), next := Waiting), c) by {
      CountConcat([e], s.channel, c);
    }
    hide Conserved;
    FilterConcat([e], s.channel, c);
    var x := if c == e.cohort then [e] else [];
    Associative(Stream(s.states, s.batches, c), x, FilterOf(s.channel, c));
  }

  lemma ProceedKeeps(s: Sys, config: Config, choice: Choice, c: Name)
    requires ValidConfig(config) && Kept(s, c) && s.work == [] && Proceed(s, config, choice).Some?
    ensures Kept(Proceed(s, config, choice).value, c)
  {
    hide Accounted, Stream, CountOf, FilterOf, InFlight, Folded, ReceiveWindow, Added, Kept;
    var s' := Proceed(s, config, choice).value;
    match s.next {
      case AddFor(e) => AddedKept(s, e, c);
      case FoldFor(e) =>
        FoldKeeps(s.ledger, s.states, s.batches, e.cohort, c);
        SameViewKept(s, s', c);
      case _ => SameViewKept(s, s', c);
    }
  }

  lemma OtherKept(s: Sys, config: Config, step: Step, c: Name)
    requires ValidConfig(config) && Kept(s, c) && TakeStep(s, config, step).Some?
    requires step.Dequeue? || step.CloseWindow? || step.Finish?
    ensures Kept(TakeStep(s, config, step).value, c)
  {
    hide Accounted, Stream, InFlight, ReceiveWindow, Kept, CountOf, FilterOf, ValidConfig, NextReader, DoWork, Proceed;
    if step.Dequeue? {
      assert [] + s.channel == s.channel == [s.channel[0]] + s.channel[1..];
    }
    SameViewKept(s, TakeStep(s, config, step).value, c);
  }

  lemma StepKept(s: Sys, config: Config, step: Step, c: Name)
    requires ValidConfig(config) && Kept(s, c) && TakeStep(s, config, step).Some?
    ensures Kept(TakeStep(s, config, step).value, c)
  {
    hide NextReader, DoWork, Proceed, Kept, ValidConfig, ReceiveWindow;
    match step {
      case ByReader(r) => ReaderKeeps(s, config, r, c);
      case Work(choice) => WorkKeeps(s, choice, c);
      case Continue(choice) => ProceedKeeps(s, config, choice, c);
      case _ => OtherKept(s, config, step, c);
    }
  }

  lemma {:induction false} RunKept(config: Config, window: nat, steps: seq<Step>, c: Name)
    requires ValidConfig(config)
    ensures Kept(Run(Initial(window), config, steps), c)
  {
    hide Kept, TakeStep, ValidConfig;
    if steps == [] {
      InitialKept(window, c);
    } else {
      RunKept(config, window, steps[..|steps| - 1], c);
      var before := Run(Initial(window), config, steps[..|steps| - 1]);
      if TakeStep(before, config, steps[|steps| - 1]).Some? { StepKept(before, config, steps[|steps| - 1], c); }
    }
  }

  // ----- buffers, labels and control -----

  /** Every buffer has a flush coming. */
  predicate Covered(states: States, work: seq<Op>) {
    || work == [FoldAll, FlushAll]
    || work == [FlushAll]
    || (FoldAll !in work && FlushAll !in work && forall c :: c in states ==> Flush(c) in work || Take(c) in work)
  }

  /** The frame fits its cohort's buffer, or that buffer is about to be taken. */
  predicate Fits(s: Sys, config: Config, e: Event) {
    StateOf(s.states, e.cohort).bytes + BytesOf(e) <= config.cap || Flush(e.cohort) in s.work
      || Take(e.cohort) in s.work
  }

  /** What the writer's position says about its buffers. */
  predicate Control(s: Sys, config: Config)
    requires ValidConfig(config)
  {
    match s.next
    case Waiting => s.work == []
    case OpenFor(e) => Covered(s.states, s.work)
    case FoldFor(e) => s.work == [] && ReceiveWindow(e.receiveTime, config.windowSeconds) <= s.window
    case SpillFor(e) => s.work == [] && ReceiveWindow(e.receiveTime, config.windowSeconds) <= s.window
    case LargestFor(e) => ReceiveWindow(e.receiveTime, config.windowSeconds) <= s.window && Fits(s, config, e)
    case AddFor(e) => ReceiveWindow(e.receiveTime, config.windowSeconds) <= s.window && Fits(s, config, e)
    case OpenNow => Covered(s.states, s.work)
    case Stop =>
      && Covered(s.states, s.work) && s.channel == [] && (FoldAll in s.work || s.ledger == map[])
      && forall i :: 0 <= i < |s.readers| ==> s.readers[i].Closed?
  }

  predicate SoundWork(work: seq<Op>, windowSeconds: nat, cap: nat)
    requires windowSeconds > 0
  {
    forall op :: op in work && op.Serialize? ==> SoundBatch(op.batch, windowSeconds, cap)
  }

  predicate Sound(s: Sys, config: Config)
    requires ValidConfig(config)
  {
    && SoundStates(s.states, s.window, config.windowSeconds, config.cap)
    && SoundBatches(s.batches, config.windowSeconds, config.cap)
    && SoundWork(s.work, config.windowSeconds, config.cap) && Positive(s.ledger)
  }

  predicate HeldFits(s: Sys, config: Config) {
    forall e :: e in Held(s.next) ==> BytesOf(e) <= config.cap
  }

  // reader steps

  lemma ReaderControl(s: Sys, config: Config, step: ReaderStep)
    requires ValidConfig(config) && Control(s, config) && NextReader(s, config, step).Some?
    ensures Control(NextReader(s, config, step).value, config)
  {
    hide ReceiveWindow, ValidEvent, ValidConfig;
  }

  lemma ReaderSound(s: Sys, config: Config, step: ReaderStep)
    requires ValidConfig(config) && Sound(s, config) && NextReader(s, config, step).Some?
    ensures Sound(NextReader(s, config, step).value, config)
  {
    hide ValidEvent, SoundStates, SoundBatches, SoundWork;
  }

  // flush work

  lemma WorkSound(s: Sys, config: Config, choice: Choice)
    requires ValidConfig(config) && Sound(s, config) && s.work != [] && DoWork(s, choice).Some?
    ensures Sound(DoWork(s, choice).value, config)
  {
    hide SoundBatch, SoundStates, SoundBatches, Folded, FoldedAll, Serializable;
    var w, cap := config.windowSeconds, config.cap;
    var op, rest := s.work[0], s.work[1..];
    assert op in s.work && forall x :: x in rest ==> x in s.work;
    match op {
      case FoldAll => FoldAllSound(s.states, s.ledger, s.window, w, cap);
      case Flush(d) => FoldSound(s.states, d, Drops(s.ledger, d), s.window, w, cap);
      case Take(d) => TakeSound(s, config, d);
      case _ =>
    }
  }

  lemma TakeSound(s: Sys, config: Config, c: Name)
    requires ValidConfig(config) && Sound(s, config)
    ensures SoundStates(s.states - {c}, s.window, config.windowSeconds, config.cap)
    ensures c in s.states ==>
      (SoundBatch(BatchOf(s.states, c, s.window), config.windowSeconds, config.cap)
       && SoundBatches(s.batches + [BatchOf(s.states, c, s.window)], config.windowSeconds, config.cap)
       && Flushable(s.states, c))
  {
    if c in s.states {
      assert SoundState(s.states[c], c, s.window, config.windowSeconds, config.cap);
      BatchesGrow(s.batches, BatchOf(s.states, c, s.window), config.windowSeconds, config.cap);
    }
    hide SoundState;
  }

  lemma OrderCovers(order: seq<Name>, states: States)
    requires Enumerates(order, states)
    ensures Covered(states, FlushOps(order) + [])
  {
    var ops := FlushOps(order) + [];
    forall c | c in states ensures Flush(c) in ops {
      var i :| 0 <= i < |order| && order[i] == c;
      assert ops[i] == Flush(c);
    }
  }

  lemma WorkCovered(s: Sys, config: Config, choice: Choice)
    requires ValidConfig(config) && Sound(s, config) && Covered(s.states, s.work) && s.work != []
             && DoWork(s, choice).Some?
    ensures Covered(DoWork(s, choice).value.states, DoWork(s, choice).value.work)
  {
    hide SoundStates, SoundBatches, SoundWork, SoundBatch, Serializable, Flushable;
    var op, rest := s.work[0], s.work[1..];
    assert s.work == [op] + rest;
    match op {
      case FlushAll =>
        assert rest == [];
        OrderCovers(choice.order, s.states);
      case Take(d) => TakeSound(s, config, d);
      case _ =>
    }
  }

  lemma WorkFits(s: Sys, config: Config, choice: Choice, e: Event)
    requires ValidConfig(config) && Sound(s, config) && Fits(s, config, e) && BytesOf(e) <= config.cap
    requires s.work != [] && DoWork(s, choice).Some?
    ensures Fits(DoWork(s, choice).value, config, e)
  {
    hide SoundStates, SoundBatches, SoundWork, SoundBatch, Serializable, Flushable;
    var op, rest := s.work[0], s.work[1..];
    assert s.work == [op] + rest;
    match op {
      case FlushAll =>
        var s' := DoWork(s, choice).value;
        assert forall x :: x in rest ==> x in s'.work;
      case Take(d) => TakeSound(s, config, d);
      case _ =>
    }
  }

  lemma WorkStopping(s: Sys, choice: Choice)
    requires s.work != [] && DoWork(s, choice).Some? && s.next.Stop?
    requires Covered(s.states, s.work) && (FoldAll in s.work || s.ledger == map[])
    ensures FoldAll in DoWork(s, choice).value.work || DoWork(s, choice).value.ledger == map[]
  {
    hide FoldedAll, Folded, Serializable, Flushable;
    assert s.work == [s.work[0]] + s.work[1..];
  }

  lemma WorkElsewhere(s: Sys, choice: Choice)
    requires s.work != [] && DoWork(s, choice).Some?
    ensures var s' := DoWork(s, choice).value;
            s'.next == s.next && s'.window == s.window && s'.readers == s.readers && s'.channel == s.channel
  {
    hide FoldedAll, Folded, Serializable, Flushable;
  }

  lemma WorkControl(s: Sys, config: Config, choice: Choice)
    requires ValidConfig(config) && Sound(s, config) && Control(s, config) && HeldFits(s, config)
    requires s.work != [] && DoWork(s, choice).Some?
    ensures Control(DoWork(s, choice).value, config)
  {
    WorkElsewhere(s, choice);
    hide Sound, Fits, ReceiveWindow, ValidConfig, Covered, DoWork;
    match s.next {
      case LargestFor(e) =>
        assert e in Held(s.next);
        WorkFits(s, config, choice, e);
      case AddFor(e) =>
        assert e in Held(s.next);
        WorkFits(s, config, choice, e);
      case OpenFor(e) => WorkCovered(s, config, choice);
      case OpenNow => WorkCovered(s, config, choice);
      case Stop =>
        WorkCovered(s, config, choice);
        WorkStopping(s, choice);
      case _ =>
    }
  }

  lemma Uncovered(states: States)
    requires Covered(states, [])
    ensures states == map[]
  {
    assert states.Keys == {};
  }

  lemma ProceedSound(s: Sys, config: Config, choice: Choice)
    requires ValidConfig(config) && Sound(s, config) && Control(s, config) && s.work == []
             && Proceed(s, config, choice).Some?
    ensures Sound(Proceed(s, config, choice).value, config)
  {
    hide SoundBatches, SoundBatch, SoundState, ReceiveWindow, Folded, Added;
    match s.next {
      case OpenFor(e) => Uncovered(s.states);
      case OpenNow => Uncovered(s.states);
      case FoldFor(e) => FoldSound(s.states, e.cohort, Drops(s.ledger, e.cohort), s.window, config.windowSeconds,
                                   config.cap);
      case AddFor(e) => AddSound(s.states, e, s.window, config.windowSeconds, config.cap);
      case _ =>
    }
  }

  lemma ProceedControl(s: Sys, config: Config, choice: Choice)
    requires ValidConfig(config) && Control(s, config) && HeldFits(s, config) && s.work == []
             && Proceed(s, config, choice).Some?
    ensures Control(Proceed(s, config, choice).value, config)
  {
    hide IsLargest, NoRecordsAtAll, ValidConfig;
    match s.next {
      case SpillFor(e) => assert e in Held(s.next);
      case LargestFor(e) =>
        hide ReceiveWindow;
      case _ => hide ReceiveWindow, Folded;
    }
  }

  lemma OtherSound(s: Sys, config: Config, step: Step)
    requires ValidConfig(config) && Sound(s, config) && Control(s, config) && TakeStep(s, config, step).Some?
    requires step.Dequeue? || step.CloseWindow? || step.Finish?
    ensures Sound(TakeStep(s, config, step).value, config) && Control(TakeStep(s, config, step).value, config)
  {
    hide SoundStates, SoundBatches, SoundBatch, ReceiveWindow;
  }

  /** The writer's invariant: sound buffers and batches, and a position that fits them. */
  predicate WriterInv(s: Sys, config: Config)
    requires ValidConfig(config)
  {
    Sound(s, config) && Control(s, config)
  }

  lemma StepWriterInv(s: Sys, config: Config, step: Step)
    requires ValidConfig(config) && WriterInv(s, config) && HeldFits(s, config) && TakeStep(s, config, step).Some?
    ensures WriterInv(TakeStep(s, config, step).value, config)
  {
    hide Sound, Control, NextReader, DoWork, Proceed, ValidConfig, HeldFits;
    match step {
      case ByReader(r) =>
        ReaderSound(s, config, r);
        ReaderControl(s, config, r);
      case Work(choice) =>
        WorkSound(s, config, choice);
        WorkControl(s, config, choice);
      case Continue(choice) =>
        ProceedSound(s, config, choice);
        ProceedControl(s, config, choice);
      case _ => OtherSound(s, config, step);
    }
  }

  // ----- only valid frames, only valid names -----

  predicate AllValid(es: seq<Event>, config: Config) {
    forall e :: e in es ==> ValidEvent(e, config)
  }

  predicate ValidRecords(records: seq<Buffered>, config: Config) {
    forall i :: 0 <= i < |records| ==> ValidEvent(records[i].event, config)
  }

  predicate ValidBatch(b: Batch, config: Config) { Cohort.ValidName(b.cohort) && ValidRecords(b.records, config) }

  predicate ValidReader(r: Reader, config: Config) {
    !r.Reading? && !r.Closed? ==> ValidEvent(r.e, config)
  }

  predicate ValidStates(states: States, config: Config) {
    forall c :: c in states ==> Cohort.ValidName(c) && ValidRecords(states[c].records, config)
  }

  predicate ValidLedger(ledger: Ledger) { forall c :: c in ledger ==> Cohort.ValidName(c) }

  /** Every frame in the collector was accepted by a reader, and every cohort is a valid name. */
  predicate Genuine(s: Sys, config: Config) {
    && (forall i :: 0 <= i < |s.readers| ==> ValidReader(s.readers[i], config))
    && AllValid(s.channel, config) && AllValid(Held(s.next), config) && ValidLedger(s.ledger)
    && ValidStates(s.states, config)
    && (forall i :: 0 <= i < |s.batches| ==> ValidBatch(s.batches[i], config))
    && (forall op :: op in s.work && op.Serialize? ==> ValidBatch(op.batch, config))
  }

  lemma ReaderGenuine(s: Sys, config: Config, step: ReaderStep)
    requires ValidConfig(config) && Genuine(s, config) && NextReader(s, config, step).Some?
    ensures Genuine(NextReader(s, config, step).value, config)
  {
    hide ValidBatch, ValidStates, Cohort.ValidName, Frame.ParseFrame;
  }

  lemma FoldValid(states: States, c: Name, drops: nat, config: Config)
    requires ValidStates(states, config) && (drops > 0 ==> Cohort.ValidName(c))
    ensures ValidStates(Folded(states, c, drops), config)
  {
    hide Cohort.ValidName, ValidEvent;
  }

  lemma FoldAllValid(states: States, ledger: Ledger, config: Config)
    requires ValidStates(states, config) && ValidLedger(ledger)
    ensures ValidStates(FoldedAll(states, ledger), config)
  {
    hide Cohort.ValidName, ValidEvent;
  }

  lemma TakeValid(s: Sys, c: Name, config: Config)
    requires ValidStates(s.states, config)
    ensures ValidStates(s.states - {c}, config)
    ensures c in s.states ==> ValidBatch(BatchOf(s.states, c, s.window), config)
  {
    hide Cohort.ValidName, ValidRecords;
  }

  lemma WorkGenuine(s: Sys, config: Config, choice: Choice)
    requires Genuine(s, config) && s.work != [] && DoWork(s, choice).Some?
    ensures Genuine(DoWork(s, choice).value, config)
  {
    hide ValidBatch, ValidStates, AllValid, ValidReader, Cohort.ValidName, Serializable, Folded, FoldedAll;
    var op, rest := s.work[0], s.work[1..];
    assert op in s.work && forall x :: x in rest ==> x in s.work;
    match op {
      case FoldAll => FoldAllValid(s.states, s.ledger, config);
      case Flush(c) => FoldValid(s.states, c, Drops(s.ledger, c), config);
      case Take(c) => TakeValid(s, c, config);
      case _ =>
    }
  }

  lemma AddValid(states: States, e: Event, window: nat, config: Config)
    requires ValidStates(states, config) && ValidEvent(e, config)
    ensures ValidStates(Added(states, e, window), config)
  {
    hide Cohort.ValidName;
    assert Cohort.ValidName(e.cohort);
    hide ValidEvent;
  }

  lemma ProceedGenuine(s: Sys, config: Config, choice: Choice)
    requires ValidConfig(config) && Genuine(s, config) && s.work == [] && Proceed(s, config, choice).Some?
    ensures Genuine(Proceed(s, config, choice).value, config)
  {
    hide ValidBatch, ValidReader, ValidStates, ValidEvent, ReceiveWindow, IsLargest, Folded, Added;
    match s.next {
      case FoldFor(e) => FoldValid(s.states, e.cohort, Drops(s.ledger, e.cohort), config);
      case AddFor(e) =>
        assert e in Held(s.next);
        AddValid(s.states, e, s.window, config);
      case _ =>
    }
  }

  lemma StepGenuine(s: Sys, config: Config, step: Step)
    requires ValidConfig(config) && Genuine(s, config) && TakeStep(s, config, step).Some?
    ensures Genuine(TakeStep(s, config, step).value, config)
  {
    hide NextReader, DoWork, Proceed, ValidBatch, ValidStates, ValidReader, ValidEvent, ReceiveWindow;
    match step {
      case ByReader(r) => ReaderGenuine(s, config, r);
      case Work(choice) => WorkGenuine(s, config, choice);
      case Continue(choice) => ProceedGenuine(s, config, choice);
      case _ =>
    }
  }

  lemma GenuineFits(s: Sys, config: Config)
    requires ValidConfig(config) && Genuine(s, config)
    ensures HeldFits(s, config)
  {
  }

  // ----- memory -----

  function EventBytes(es: seq<Event>): nat {
    if es == [] then 0 else EventBytes(es[..|es| - 1]) + BytesOf(es[|es| - 1])
  }

  lemma {:induction false} EventBytesConcat(a: seq<Event>, b: seq<Event>)
    ensures EventBytes(a + b) == EventBytes(a) + EventBytes(b)
    decreases |b|
  {
    if b == [] {
      assert a + b == a;
    } else {
      assert (a + b)[..|a + b| - 1] == a + b[..|b| - 1];
      EventBytesConcat(a, b[..|b| - 1]);
    }
  }

  /** The bytes a reader's guard holds. */
  function Guarded(r: Reader): nat {
    if r.Reserved? || r.Unsent? || r.Dropped? then BytesOf(r.e) else 0
  }

  function ReaderBytes(readers: seq<Reader>): nat {
    if readers == [] then 0 else ReaderBytes(readers[..|readers| - 1]) + Guarded(readers[|readers| - 1])
  }

  lemma {:induction false} ReaderBytesSet(readers: seq<Reader>, i: nat, r: Reader)
    requires i < |readers|
    ensures ReaderBytes(readers[i := r]) + Guarded(readers[i]) == ReaderBytes(readers) + Guarded(r)
  {
    var n := |readers| - 1;
    if i == n {
      assert readers[i := r][..n] == readers[..n];
    } else {
      ReaderBytesSet(readers[..n], i, r);
      assert readers[i := r][..n] == readers[..n][i := r];
    }
  }

  /** The bytes of all buffers. */
  ghost function StatesBytes(states: States): nat {
    if states == map[] then 0
    else
      var c :| c in states;
      states[c].bytes + StatesBytes(states - {c})
  }

  lemma {:induction false} StatesBytesWithout(states: States, c: Name)
    requires c in states
    ensures StatesBytes(states) == states[c].bytes + StatesBytes(states - {c})
    decreases |states|
  {
    var d :| d in states && StatesBytes(states) == states[d].bytes + StatesBytes(states - {d});
    if d != c {
      StatesBytesWithout(states - {d}, c);
      StatesBytesWithout(states - {c}, d);
      assert states - {d} - {c} == states - {c} - {d};
    }
  }

  lemma BytesOfCohort(states: States, c: Name)
    ensures StatesBytes(states) == StateOf(states, c).bytes + StatesBytes(states - {c})
  {
    if c in states { StatesBytesWithout(states, c); } else { assert states - {c} == states; }
  }

  lemma ReplacedBytes(states: States, c: Name, state: CohortState)
    ensures StatesBytes(states[c := state]) + StateOf(states, c).bytes == StatesBytes(states) + state.bytes
  {
    BytesOfCohort(states, c);
    BytesOfCohort(states[c := state], c);
    assert states[c := state] - {c} == states - {c};
  }

  lemma FoldAllOne(states: States, ledger: Ledger, c: Name)
    requires c in ledger
    ensures var before := FoldedAll(states, ledger - {c});
            FoldedAll(states, ledger) == before[c := WithDrops(StateOf(before, c), ledger[c])]
  {
  }

  /** Folding drops moves no bytes. */
  lemma {:induction false} FoldAllBytes(states: States, ledger: Ledger)
    ensures StatesBytes(FoldedAll(states, ledger)) == StatesBytes(states)
    decreases |ledger|
  {
    if ledger == map[] {
      assert FoldedAll(states, ledger) == states;
    } else {
      hide StatesBytes, FoldedAll;
      var c :| c in ledger;
      var before := FoldedAll(states, ledger - {c});
      FoldAllBytes(states, ledger - {c});
      FoldAllOne(states, ledger, c);
      ReplacedBytes(before, c, WithDrops(StateOf(before, c), ledger[c]));
    }
  }

  function OpBytes(op: Op): nat {
    match op
    case Serialize(b) => TotalBytes(b.records)
    case Discard(records) => TotalBytes(records)
    case _ => 0
  }

  /** The bytes of a buffer, first record first. */
  lemma {:induction false} FrontBytes(records: seq<Buffered>)
    requires records != []
    ensures TotalBytes(records) == BytesOf(records[0].event) + TotalBytes(records[1..])
  {
    var n := |records| - 1;
    if n == 0 {
      assert records[..0] == [];
    } else {
      FrontBytes(records[..n]);
      assert records[..n][1..] == records[1..][..n - 1];
    }
  }

  function WorkBytes(work: seq<Op>): nat {
    if work == [] then 0 else OpBytes(work[0]) + WorkBytes(work[1..])
  }

  lemma WorkBytesCons(op: Op, rest: seq<Op>)
    ensures WorkBytes([op] + rest) == OpBytes(op) + WorkBytes(rest)
  {
    assert ([op] + rest)[1..] == rest;
  }

  lemma {:induction false} FlushOpsHoldNothing(order: seq<Name>, rest: seq<Op>)
    ensures WorkBytes(FlushOps(order) + rest) == WorkBytes(rest)
    decreases |order|
  {
    if order == [] {
      assert FlushOps(order) + rest == rest;
    } else {
      assert (FlushOps(order) + rest)[1..] == FlushOps(order[1..]) + rest;
      FlushOpsHoldNothing(order[1..], rest);
    }
  }

  /** The tracker's counter is what the guards in the collector add up to. */
  ghost predicate Balanced(s: Sys) {
    s.used == ReaderBytes(s.readers) + EventBytes(Held(s.next) + s.channel) + StatesBytes(s.states) + WorkBytes(s.work)
  }

  /** One serialized segment at a time, while its batch is discarded and stored. */
  predicate OneSegment(s: Sys, config: Config) {
    s.segment.Some? ==>
      (s.segment.value <= config.cap + Segment.MAX_SEGMENT_OVERHEAD_BYTES
       && s.work != [] && (s.work[0].Discard? || s.work[0].Store?)
       && (s.work[0].Discard? ==> |s.work| > 1 && s.work[1].Store?))
  }

  /** The memory invariant: the counter balances, stays within what frames may use, and at most one
      segment, of bounded size, is out at a time. */
  ghost predicate MemoryInv(s: Sys, config: Config)
    requires ValidConfig(config)
  {
    Balanced(s) && s.used <= LiveBytes(config).value && OneSegment(s, config)
  }

  lemma InitialMemory(window: nat, config: Config)
    requires ValidConfig(config)
    ensures MemoryInv(Initial(window), config)
  {
  }

  /** A step that moves one guard in or out of the counter with its reader keeps the balance. */
  lemma GuardMoves(s: Sys, s': Sys, config: Config, i: nat, r: Reader)
    requires ValidConfig(config) && MemoryInv(s, config) && i < |s.readers|
    requires s'.readers == s.readers[i := r] && s'.used + Guarded(s.readers[i]) == s.used + Guarded(r)
    requires s'.used <= LiveBytes(config).value && s'.next == s.next && s'.channel == s.channel
    requires s'.states == s.states && s'.work == s.work && s'.segment == s.segment
    ensures MemoryInv(s', config)
  {
    ReaderBytesSet(s.readers, i, r);
    hide EventBytes, ReaderBytes, StatesBytes, WorkBytes, Held, ValidConfig;
  }

  lemma SendMemory(s: Sys, config: Config, i: nat, e: Event)
    requires ValidConfig(config) && MemoryInv(s, config) && i < |s.readers| && s.readers[i] == Reserved(e)
    ensures MemoryInv(Set(s, i, Reading).(channel := s.channel + [e], sent := s.sent + [e]), config)
  {
    ReaderBytesSet(s.readers, i, Reading);
    SentBytes(s, e);
    hide EventBytes, ReaderBytes, StatesBytes, WorkBytes, Held, ValidConfig;
  }

  lemma ReaderAdded(readers: seq<Reader>)
    ensures ReaderBytes(readers + [Reading]) == ReaderBytes(readers)
  {
    assert (readers + [Reading])[..|readers|] == readers;
  }

  lemma AcceptMemory(s: Sys, config: Config)
    requires ValidConfig(config) && MemoryInv(s, config)
    ensures MemoryInv(s.(readers := s.readers + [Reading]), config)
  {
    ReaderAdded(s.readers);
    hide ReaderBytes, EventBytes, StatesBytes, WorkBytes, Held, ValidConfig;
  }

  lemma ReaderMemory(s: Sys, config: Config, step: ReaderStep)
    requires ValidConfig(config) && MemoryInv(s, config) && NextReader(s, config, step).Some?
    ensures MemoryInv(NextReader(s, config, step).value, config)
  {
    hide ValidEvent, Balanced, OneSegment, ValidConfig;
    var s' := NextReader(s, config, step).value;
    match step {
      case Accept => AcceptMemory(s, config);
      case Send(i) => SendMemory(s, config, i, s.readers[i].e);
      case Receive(i, e) => GuardMoves(s, s', config, i, s'.readers[i]);
      case Reserve(i) => GuardMoves(s, s', config, i, s'.readers[i]);
      case Refuse(i) => GuardMoves(s, s', config, i, s'.readers[i]);
      case SendFails(i) => GuardMoves(s, s', config, i, s'.readers[i]);
      case Record(i) => GuardMoves(s, s', config, i, s'.readers[i]);
      case Release(i) => GuardMoves(s, s', config, i, s'.readers[i]);
      case Close(i) => GuardMoves(s, s', config, i, s'.readers[i]);
    }
  }

  lemma SentBytes(s: Sys, e: Event)
    ensures EventBytes(Held(s.next) + (s.channel + [e])) == EventBytes(Held(s.next) + s.channel) + BytesOf(e)
  {
    EventBytesConcat(Held(s.next) + s.channel, [e]);
    assert [e][..0] == [];
    assert Held(s.next) + (s.channel + [e]) == (Held(s.next) + s.channel) + [e];
  }

  lemma SerializedWork(b: Batch, rest: seq<Op>)
    ensures WorkBytes([Discard(b.records), Store] + rest) == TotalBytes(b.records) + WorkBytes(rest)
    ensures WorkBytes([Discard(b.records)] + rest) == TotalBytes(b.records) + WorkBytes(rest)
  {
    hide WorkBytes, TotalBytes;
    assert [Discard(b.records), Store] + rest == [Discard(b.records)] + ([Store] + rest);
    WorkBytesCons(Discard(b.records), rest);
    WorkBytesCons(Discard(b.records), [Store] + rest);
    WorkBytesCons(Store, rest);
  }

  lemma DiscardedWork(records: seq<Buffered>, rest: seq<Op>)
    requires records != []
    ensures WorkBytes([Discard(records[1..])] + rest) + BytesOf(records[0].event)
            == TotalBytes(records) + WorkBytes(rest)
  {
    FrontBytes(records);
    hide WorkBytes, TotalBytes;
    WorkBytesCons(Discard(records[1..]), rest);
  }

  lemma NoBytes()
    ensures TotalBytes([]) == 0
  {
  }

  lemma WindowWork()
    ensures WorkBytes([FoldAll, FlushAll]) == 0 && WorkBytes([]) == 0
  {
    assert [FoldAll, FlushAll] == [FoldAll] + ([FlushAll] + []);
    WorkBytesCons(FoldAll, [FlushAll] + []);
    WorkBytesCons(FlushAll, []);
  }

  /** Flush work moves bytes between buffers, batches and the counter. */
  lemma BytesMove(s: Sys, s': Sys)
    requires Balanced(s) && s'.readers == s.readers && Held(s'.next) + s'.channel == Held(s.next) + s.channel
    requires s'.used + StatesBytes(s.states) + WorkBytes(s.work) == s.used + StatesBytes(s'.states) + WorkBytes(s'.work)
    ensures Balanced(s')
  {
  }

  lemma WorkBalance(s: Sys, config: Config, choice: Choice)
    requires ValidConfig(config) && Sound(s, config) && Balanced(s) && s.work != [] && DoWork(s, choice).Some?
    ensures Balanced(DoWork(s, choice).value) && DoWork(s, choice).value.used <= s.used
  {
    hide Balanced, StatesBytes, FoldedAll, Serializable, EventBytes, ReaderBytes, WorkBytes, Flushable, TotalBytes,
         Sound;
    var op, rest, s' := s.work[0], s.work[1..], DoWork(s, choice).value;
    WorkBytesCons(op, rest);
    assert s.work == [op] + rest;
    match op {
      case FoldAll => FoldAllBytes(s.states, s.ledger);
      case FlushAll => FlushOpsHoldNothing(choice.order, rest);
      case Flush(c) =>
        ReplacedBytes(s.states, c, WithDrops(StateOf(s.states, c), Drops(s.ledger, c)));
        WorkBytesCons(Take(c), rest);
      case Take(c) =>
        if Flushable(s.states, c) { TakenBytes(s, config, c, rest); }
      case Serialize(b) => SerializedWork(b, rest);
      case Discard(records) =>
        if records != [] { DiscardedWork(records, rest); } else { NoBytes(); }
      case _ =>
    }
    BytesMove(s, s');
  }

  lemma TakenBytes(s: Sys, config: Config, c: Name, rest: seq<Op>)
    requires ValidConfig(config) && Sound(s, config) && Flushable(s.states, c)
    ensures StatesBytes(s.states)
            == StatesBytes(s.states - {c})
              + WorkBytes([Serialize(BatchOf(s.states, c, s.window))] + rest) - WorkBytes(rest)
  {
    hide StatesBytes, WorkBytes;
    BytesOfCohort(s.states, c);
    WorkBytesCons(Serialize(BatchOf(s.states, c, s.window)), rest);
  }

  lemma WorkSegment(s: Sys, config: Config, choice: Choice)
    requires ValidConfig(config) && OneSegment(s, config) && Sound(s, config) && Genuine(s, config)
    requires s.work != [] && DoWork(s, choice).Some?
    ensures OneSegment(DoWork(s, choice).value, config)
  {
    hide FoldedAll, Folded, Serializable, SoundStates, SoundBatches, ValidStates, Flushable, SoundBatch, ValidBatch,
         ValidConfig, SegmentLen;
    assert s.work[0] in s.work;
    if s.work[0].Serialize? { SegmentBound(s.work[0].batch, config); }
  }

  lemma WorkMemory(s: Sys, config: Config, choice: Choice)
    requires ValidConfig(config) && MemoryInv(s, config) && Sound(s, config) && Genuine(s, config)
    requires s.work != [] && DoWork(s, choice).Some?
    ensures MemoryInv(DoWork(s, choice).value, config)
  {
    hide DoWork, Balanced, OneSegment, Sound, Genuine, ValidConfig;
    WorkBalance(s, config, choice);
    WorkSegment(s, config, choice);
  }

  /** A sound batch serializes to at most its cap and the fixed overhead. */
  lemma SegmentBound(b: Batch, config: Config)
    requires ValidConfig(config) && SoundBatch(b, config.windowSeconds, config.cap) && ValidBatch(b, config)
    ensures SegmentLen(b) <= config.cap + Segment.MAX_SEGMENT_OVERHEAD_BYTES
  {
  }

  lemma AddedBytes(s: Sys, e: Event)
    requires Balanced(s) && s.next == AddFor(e)
    ensures Balanced(s.(states := Added(s.states, e, s.window), next := Waiting))
  {
    hide StatesBytes, ReaderBytes, WorkBytes;
    ReplacedBytes(s.states, e.cohort, Added(s.states, e, s.window)[e.cohort]);
    EventBytesConcat([e], s.channel);
    assert [e][..0] == [] && [] + s.channel == s.channel;
    assert EventBytes([e]) == BytesOf(e);
    hide EventBytes;
  }

  lemma ProceedMemory(s: Sys, config: Config, choice: Choice)
    requires ValidConfig(config) && MemoryInv(s, config) && s.work == [] && Proceed(s, config, choice).Some?
    ensures MemoryInv(Proceed(s, config, choice).value, config)
  {
    hide Balanced, StatesBytes, ReceiveWindow, IsLargest, ValidConfig, NoRecordsAtAll;
    var s' := Proceed(s, config, choice).value;
    assert forall c :: WorkBytes([Flush(c)]) == 0;
    match s.next {
      case FoldFor(e) =>
        ReplacedBytes(s.states, e.cohort, WithDrops(StateOf(s.states, e.cohort), Drops(s.ledger, e.cohort)));
        BytesMove(s, s');
      case AddFor(e) => AddedBytes(s, e);
      case Waiting =>
      case Stop =>
      case _ => BytesMove(s, s');
    }
  }

  lemma OtherMemory(s: Sys, config: Config, step: Step)
    requires ValidConfig(config) && MemoryInv(s, config) && TakeStep(s, config, step).Some?
    requires step.Dequeue? || step.CloseWindow? || step.Finish?
    ensures MemoryInv(TakeStep(s, config, step).value, config)
  {
    hide Balanced, ReceiveWindow, ValidConfig, WorkBytes, StatesBytes;
    var s' := TakeStep(s, config, step).value;
    if step.Dequeue? {
      assert [] + s.channel == s.channel == [s.channel[0]] + s.channel[1..];
    }
    WindowWork();
    hide WorkBytes, StatesBytes;
    BytesMove(s, s');
  }

  lemma StepMemory(s: Sys, config: Config, step: Step)
    requires ValidConfig(config) && MemoryInv(s, config) && Sound(s, config) && Genuine(s, config)
             && TakeStep(s, config, step).Some?
    ensures MemoryInv(TakeStep(s, config, step).value, config)
  {
    hide MemoryInv, NextReader, DoWork, Proceed, ValidConfig, Sound, Genuine, ReceiveWindow;
    match step {
      case ByReader(r) => ReaderMemory(s, config, r);
      case Work(choice) => WorkMemory(s, config, choice);
      case Continue(choice) => ProceedMemory(s, config, choice);
      case _ => OtherMemory(s, config, step);
    }
  }

  // ----- every run -----

  ghost predicate Inv(s: Sys, config: Config)
    requires ValidConfig(config)
  {
    WriterInv(s, config) && Genuine(s, config) && MemoryInv(s, config)
  }

  lemma {:induction false} RunInv(config: Config, window: nat, steps: seq<Step>)
    requires ValidConfig(config)
    ensures Inv(Run(Initial(window), config, steps), config)
  {
    if steps == [] {
      InitialMemory(window, config);
    } else {
      hide WriterInv, Genuine, MemoryInv, TakeStep, ValidConfig;
      RunInv(config, window, steps[..|steps| - 1]);
      var before, step := Run(Initial(window), config, steps[..|steps| - 1]), steps[|steps| - 1];
      if TakeStep(before, config, step).Some? {
        InvStep(before, config, step);
      }
    }
  }

  lemma InvStep(s: Sys, config: Config, step: Step)
    requires ValidConfig(config) && Inv(s, config) && TakeStep(s, config, step).Some?
    ensures Inv(TakeStep(s, config, step).value, config)
  {
    hide Sound, Control, Genuine, MemoryInv, TakeStep, ValidConfig;
    GenuineFits(s, config);
    StepWriterInv(s, config, step);
    StepGenuine(s, config, step);
    StepMemory(s, config, step);
  }
}
