/** The collector as a whole: connection readers, the bounded channel, the drop ledger, the memory
    tracker and the window writer, interleaved step by step. Reserving and releasing memory are single
    steps of a counter here; `Memory.LoopsImplementCounter` shows that the tracker's loops implement it. */
module Collector {
  import opened Wrappers
  import opened Bytes
  import opened Writer
  import Cohort
  import Frame
  import Memory
  import Segment

  // ----- configuration -----

  datatype Config = Config(windowSeconds: nat, maxFrameSize: nat, cap: nat, global: nat, channelCapacity: nat)

  /** What remains for frames once one full buffer and its serialized form are set aside. */
  function LiveBytes(c: Config): Option<nat> {
    if c.global < c.cap + Segment.MAX_SEGMENT_OVERHEAD_BYTES then None
    else Some(c.global - (c.cap + Segment.MAX_SEGMENT_OVERHEAD_BYTES))
  }

  predicate ValidConfig(c: Config) {
    && c.windowSeconds > 0 && c.cap > 0 && c.global > 0 && c.maxFrameSize >= Frame.FIXED_HEADER_LEN
    && c.maxFrameSize + RECORD_TIME_LEN <= c.cap
    && LiveBytes(c).Some? && c.maxFrameSize + RECORD_TIME_LEN <= LiveBytes(c).value
    && c.channelCapacity > 0
  }

  /** What a reader accepts: a well-formed frame within the size limit, whose name is its cohort. */
  predicate ValidEvent(e: Event, c: Config) {
    && |e.frame| <= c.maxFrameSize && Cohort.ValidName(e.cohort)
    && Frame.ParseFrame(e.frame).Ok? && Frame.ParseFrame(e.frame).value.name == e.cohort
  }

  // ----- state -----

  /** A connection reader between two of its shared effects. A dropped frame's guard lives until after
      the drop was recorded. */
  datatype Reader =
    | Reading
    | Received(e: Event)
    | Reserved(e: Event)
    | Refused(e: Event)
    | Unsent(e: Event)
    | Dropped(e: Event)
    | Closed

  /** Flush work of the writer, in order. */
  datatype Op =
    | FoldAll
    | FlushAll
    | Flush(cohort: Name)
    | Take(cohort: Name)
    | Serialize(batch: Batch)
    | Discard(records: seq<Buffered>)
    | Store

  /** What the writer does once its flush work is done. */
  datatype Next =
    | Waiting
    | OpenFor(e: Event)
    | FoldFor(e: Event)
    | SpillFor(e: Event)
    | LargestFor(e: Event)
    | AddFor(e: Event)
    | OpenNow
    | Stop

  datatype Sys = Sys(
    readers: seq<Reader>, channel: seq<Event>, ledger: Ledger, used: nat,
    states: States, window: nat, work: seq<Op>, next: Next, batches: seq<Batch>, segment: Option<nat>,
    received: seq<Event>, sent: seq<Event>)

  function Initial(window: nat): Sys {
    Sys([], [], map[], 0, map[], window, [], Waiting, [], None, [], [])
  }

  // ----- reader steps -----

  datatype ReaderStep =
    | Accept
    | Receive(i: nat, e: Event)
    | Reserve(i: nat)
    | Refuse(i: nat)
    | Send(i: nat)
    | SendFails(i: nat)
    | Record(i: nat)
    | Release(i: nat)
    | Close(i: nat)

  function Set(s: Sys, i: nat, r: Reader): Sys
    requires i < |s.readers|
  {
    s.(readers := s.readers[i := r])
  }

  /** A step that goes with one of the memory counter, if that is possible. */
  function Counting(s: Sys, used: Option<nat>): Option<Sys> {
    if used.None? then None else Some(s.(used := used.value))
  }

  function ReaderAt(s: Sys, i: nat): Reader { if i < |s.readers| then s.readers[i] else Closed }

  /** A refusal needs no reason here: a reader may go by an old value of the memory counter. */
  function NextReader(s: Sys, config: Config, step: ReaderStep): Option<Sys>
    requires ValidConfig(config)
  {
    match step
    case Accept => if s.next.Stop? then None else Some(s.(readers := s.readers + [Reading]))
    case Receive(i, e) =>
      if ReaderAt(s, i).Reading? && ValidEvent(e, config) then
        Some(Set(s, i, Received(e)).(received := s.received + [e]))
      else None
    case Reserve(i) =>
      var r := ReaderAt(s, i);
      if !r.Received? then None
      else Counting(Set(s, i, Reserved(r.e)), Memory.Raised(s.used, BytesOf(r.e), LiveBytes(config).value))
    case Refuse(i) => if ReaderAt(s, i).Received? then Some(Set(s, i, Refused(s.readers[i].e))) else None
    case Send(i) =>
      var r := ReaderAt(s, i);
      if r.Reserved? && |s.channel| < config.channelCapacity && !s.next.Stop? then
        Some(Set(s, i, Reading).(channel := s.channel + [r.e], sent := s.sent + [r.e]))
      else None
    case SendFails(i) =>
      if ReaderAt(s, i).Reserved? && (|s.channel| >= config.channelCapacity || s.next.Stop?) then
        Some(Set(s, i, Unsent(s.readers[i].e)))
      else None
    case Record(i) =>
      var r := ReaderAt(s, i);
      if r.Refused? then Some(Set(s, i, Reading).(ledger := Recorded(s.ledger, r.e.cohort)))
      else if r.Unsent? then Some(Set(s, i, Dropped(r.e)).(ledger := Recorded(s.ledger, r.e.cohort)))
      else None
    case Release(i) =>
      var r := ReaderAt(s, i);
      if !r.Dropped? then None
      else Counting(Set(s, i, Reading), Memory.Lowered(s.used, BytesOf(r.e)))
    case Close(i) => if ReaderAt(s, i).Reading? then Some(Set(s, i, Closed)) else None
  }

  // ----- writer steps -----

  /** What the environment decides for a writer step: the order a map is iterated in, the value read
      from the memory counter and the cohort picked among the largest, or the clock. */
  datatype Choice = Nothing | Order(order: seq<Name>) | Observed(used: nat, largest: Name) | Clock(now: Option<nat>)

  function FlushOps(order: seq<Name>): (ops: seq<Op>)
    ensures |ops| == |order| && forall i :: 0 <= i < |ops| ==> ops[i] == Flush(order[i])
  {
    seq(|order|, i requires 0 <= i < |order| => Flush(order[i]))
  }

  /** Whether a batch can be written: only a malformed frame or an oversized name prevents it. */
  predicate Serializable(b: Batch) {
    |b.cohort| < U16_LIMIT && forall i :: 0 <= i < |b.records| ==> Frame.ParseFrame(b.records[i].event.frame).Ok?
  }

  function SegmentLen(b: Batch): nat {
    Segment.FIXED_PREFIX_LEN + Segment.BASE_HEADER_LEN + |b.cohort| + TotalBytes(b.records)
  }

  /** One piece of flush work. A written batch gives its records' memory back one guard at a time. */
  function DoWork(s: Sys, choice: Choice): Option<Sys>
    requires s.work != []
  {
    var rest := s.work[1..];
    match s.work[0]
    case FoldAll => Some(s.(states := FoldedAll(s.states, s.ledger), ledger := map[], work := rest))
    case FlushAll =>
      if choice.Order? && Enumerates(choice.order, s.states) then Some(s.(work := FlushOps(choice.order) + rest))
      else None
    case Flush(c) =>
      Some(s.(states := Folded(s.states, c, Drops(s.ledger, c)), ledger := s.ledger - {c}, work := [Take(c)] + rest))
    case Take(c) =>
      if Flushable(s.states, c) then
        var b := BatchOf(s.states, c, s.window);
        Some(s.(states := s.states - {c}, batches := s.batches + [b], work := [Serialize(b)] + rest))
      else Some(s.(work := rest))
    case Serialize(b) =>
      if Serializable(b) then Some(s.(segment := Some(SegmentLen(b)), work := [Discard(b.records), Store] + rest))
      else Some(s.(work := [Discard(b.records)] + rest))
    case Discard(records) =>
      if records == [] then Some(s.(work := rest))
      else Counting(s.(work := [Discard(records[1..])] + rest), Memory.Lowered(s.used, BytesOf(records[0].event)))
    case Store => Some(s.(segment := None, work := rest))
  }

  /** What follows once the flush work is done. */
  function Proceed(s: Sys, config: Config, choice: Choice): Option<Sys>
    requires ValidConfig(config) && s.work == []
  {
    match s.next
    case Waiting => None
    case OpenFor(e) => Some(s.(window := ReceiveWindow(e.receiveTime, config.windowSeconds), next := FoldFor(e)))
    case FoldFor(e) =>
      Some(s.(states := Folded(s.states, e.cohort, Drops(s.ledger, e.cohort)), ledger := s.ledger - {e.cohort},
              next := SpillFor(e)))
    case SpillFor(e) =>
      if Overfull(s.states, e, config.cap) then
        Some(s.(work := [Flush(e.cohort)], next := LargestFor(e)))
      else Some(s.(next := LargestFor(e)))
    case LargestFor(e) =>
      if !choice.Observed? then None
      else if choice.used >= LiveBytes(config).value && !NoRecordsAtAll(s.states) then
        if IsLargest(s.states, choice.largest) then Some(s.(work := [Flush(choice.largest)], next := AddFor(e)))
        else None
      else Some(s.(next := AddFor(e)))
    case AddFor(e) => Some(s.(states := Added(s.states, e, s.window), next := Waiting))
    case OpenNow =>
      if !choice.Clock? then None
      else Some(s.(window := NextWindow(s.window, config.windowSeconds, choice.now), next := Waiting))
    case Stop => None
  }

  datatype Step =
    | ByReader(step: ReaderStep)
    | Dequeue
    | CloseWindow
    | Finish
    | Work(choice: Choice)
    | Continue(choice: Choice)

  predicate Idle(s: Sys) { s.work == [] && s.next.Waiting? }

  function TakeStep(s: Sys, config: Config, step: Step): Option<Sys>
    requires ValidConfig(config)
  {
    match step
    case ByReader(r) => NextReader(s, config, r)
    case Dequeue =>
      if Idle(s) && s.channel != [] then
        var e := s.channel[0];
        if ReceiveWindow(e.receiveTime, config.windowSeconds) > s.window then
          Some(s.(channel := s.channel[1..], work := [FoldAll, FlushAll], next := OpenFor(e)))
        else Some(s.(channel := s.channel[1..], next := FoldFor(e)))
      else None
    case CloseWindow => if Idle(s) then Some(s.(work := [FoldAll, FlushAll], next := OpenNow)) else None
    case Finish =>
      if Idle(s) && s.channel == [] && (forall i :: 0 <= i < |s.readers| ==> s.readers[i].Closed?) then
        Some(s.(work := [FoldAll, FlushAll], next := Stop))
      else None
    case Work(choice) => if s.work != [] then DoWork(s, choice) else None
    case Continue(choice) => if s.work == [] then Proceed(s, config, choice) else None
  }

  /** Steps that are not possible leave the state alone. */
  function Run(s: Sys, config: Config, steps: seq<Step>): Sys
    requires ValidConfig(config)
  {
    if steps == [] then s
    else
      var before := Run(s, config, steps[..|steps| - 1]);
      match TakeStep(before, config, steps[|steps| - 1])
      case None => before
      case Some(after) => after
  }
}
