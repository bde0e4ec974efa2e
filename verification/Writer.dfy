/** The collector's window writer and its drop ledger. A cohort's accepted frames are buffered until
    its window closes or it must spill; a batch carries what was buffered and every drop recorded for
    the cohort meanwhile. */
module Writer {
  import opened Wrappers
  import opened Bytes
  import Timestamp
  import Segment

  type Name = seq<Byte>

  const RECORD_TIME_LEN: nat := 8
  const MICROS_PER_SECOND: nat := 1_000_000

  /** A frame on its way through the collector, with its memory guard. */
  datatype Event = Event(cohort: Name, receiveTime: U64, frame: seq<Byte>)

  /** The bytes a frame's guard reserves: the frame and its receive time. */
  function BytesOf(e: Event): nat { |e.frame| + RECORD_TIME_LEN }

  /** A buffered record, and the writer's window at the moment it was buffered. The window is not part
      of the collector's record; it is kept to state what batches are labelled with. */
  datatype Buffered = Buffered(event: Event, window: nat)

  datatype CohortState = CohortState(records: seq<Buffered>, bytes: nat, received: nat)

  datatype Batch = Batch(window: nat, cohort: Name, records: seq<Buffered>, bytes: nat, received: nat)

  type Ledger = map<Name, nat>
  type States = map<Name, CohortState>

  const EMPTY_STATE: CohortState := CohortState([], 0, 0)

  // ----- the pieces the writer is made of -----

  function Drops(ledger: Ledger, c: Name): nat { if c in ledger then ledger[c] else 0 }

  function Recorded(ledger: Ledger, c: Name): Ledger { ledger[c := Drops(ledger, c) + 1] }

  function StateOf(states: States, c: Name): CohortState { if c in states then states[c] else EMPTY_STATE }

  function WithDrops(state: CohortState, drops: nat): CohortState { state.(received := state.received + drops) }

  /** Folds drops of one cohort into its state. */
  function Folded(states: States, c: Name, drops: nat): States {
    if drops == 0 then states else states[c := WithDrops(StateOf(states, c), drops)]
  }

  /** Folds a whole ledger. */
  function FoldedAll(states: States, ledger: Ledger): States {
    map c | c in states.Keys + ledger.Keys :: WithDrops(StateOf(states, c), Drops(ledger, c))
  }

  function Added(states: States, e: Event, window: nat): States {
    var state := StateOf(states, e.cohort);
    states[e.cohort := CohortState(state.records + [Buffered(e, window)], state.bytes + BytesOf(e), state.received + 1)]
  }

  /** Whether a cohort has anything to write. */
  predicate Flushable(states: States, c: Name) {
    c in states && (states[c].records != [] || states[c].received != 0)
  }

  function BatchOf(states: States, c: Name, window: nat): Batch
    requires c in states
  {
    Batch(window, c, states[c].records, states[c].bytes, states[c].received)
  }

  /** The window a frame received at `receiveTime` belongs to. */
  function ReceiveWindow(receiveTime: nat, windowSeconds: nat): (w: nat)
    requires windowSeconds > 0
    ensures w <= receiveTime / MICROS_PER_SECOND < w + windowSeconds && w % windowSeconds == 0
  {
    Timestamp.AlignmentIsFloor(receiveTime / MICROS_PER_SECOND, windowSeconds);
    Timestamp.AlignedWindowStart(receiveTime / MICROS_PER_SECOND, windowSeconds).value
  }

  // ----- what the environment picks -----

  /** The order in which a map of buffers is gone through. */
  predicate Enumerates(order: seq<Name>, states: States) {
    (forall c :: c in order ==> c in states) && (forall c :: c in states ==> c in order)
  }

  predicate IsLargest(states: States, c: Name) {
    c in states && states[c].records != []
    && forall d :: d in states && states[d].records != [] ==> states[d].bytes <= states[c].bytes
  }

  predicate NoRecordsAtAll(states: States) { forall d :: d in states ==> states[d].records == [] }

  // ----- what the writer does, in one piece -----

  /** Everything the writer works on. */
  datatype Desk = Desk(ledger: Ledger, states: States, window: nat, batches: seq<Batch>)

  function FoldedFor(d: Desk, c: Name): Desk {
    d.(states := Folded(d.states, c, Drops(d.ledger, c)), ledger := d.ledger - {c})
  }

  function FoldedWhole(d: Desk): Desk { d.(states := FoldedAll(d.states, d.ledger), ledger := map[]) }

  function TakenFor(d: Desk, c: Name): Desk {
    if Flushable(d.states, c) then
      d.(states := d.states - {c}, batches := d.batches + [BatchOf(d.states, c, d.window)])
    else d
  }

  /** Writes out one cohort. */
  function FlushedFor(d: Desk, c: Name): Desk { TakenFor(FoldedFor(d, c), c) }

  function FlushedEach(d: Desk, order: seq<Name>): Desk {
    if order == [] then d else FlushedFor(FlushedEach(d, order[..|order| - 1]), order[|order| - 1])
  }

  /** Empties all buffers, in some order of the cohorts. */
  function Emptied(d: Desk, order: seq<Name>): Desk { FlushedEach(FoldedWhole(d), order) }

  function Advanced(d: Desk, e: Event, windowSeconds: nat, order: seq<Name>): Desk
    requires windowSeconds > 0
  {
    var receiveWindow := ReceiveWindow(e.receiveTime, windowSeconds);
    if receiveWindow <= d.window then d else Emptied(d, order).(window := receiveWindow)
  }

  predicate Overfull(states: States, e: Event, cap: nat) {
    e.cohort in states && states[e.cohort].bytes + BytesOf(e) > cap
  }

  function Spilled(d: Desk, e: Event, cap: nat): Desk {
    if Overfull(d.states, e, cap) then FlushedFor(d, e.cohort) else d
  }

  function Relieved(d: Desk, observed: nat, live: nat, largest: Name): Desk {
    if observed >= live && !NoRecordsAtAll(d.states) then FlushedFor(d, largest) else d
  }

  /** What the desk looks like when a frame is about to be buffered, but for a buffer spilled to make
      room in memory. */
  function Prepared(d: Desk, e: Event, windowSeconds: nat, cap: nat, order: seq<Name>): Desk
    requires windowSeconds > 0
  {
    Spilled(FoldedFor(Advanced(d, e, windowSeconds, order), e.cohort), e, cap)
  }

  function WithRecord(d: Desk, e: Event): Desk { d.(states := Added(d.states, e, d.window)) }

  /** What the environment picks while a frame is taken in: the order of the cohorts if the window
      changes, what the memory counter reads, and a largest buffer. */
  datatype Picks = Picks(order: seq<Name>, observed: nat, largest: Name)

  /** Takes in one frame. */
  function Handled(d: Desk, e: Event, windowSeconds: nat, cap: nat, live: nat, picks: Picks): Desk
    requires windowSeconds > 0
  {
    WithRecord(Relieved(Prepared(d, e, windowSeconds, cap, picks.order), picks.observed, live, picks.largest), e)
  }

  /** The picks are ones that the maps allow. */
  predicate Possible(d: Desk, e: Event, windowSeconds: nat, cap: nat, live: nat, picks: Picks)
    requires windowSeconds > 0
  {
    && (ReceiveWindow(e.receiveTime, windowSeconds) > d.window ==> Enumerates(picks.order, FoldedWhole(d).states))
    && (var ready := Prepared(d, e, windowSeconds, cap, picks.order);
        picks.observed >= live && !NoRecordsAtAll(ready.states) ==> IsLargest(ready.states, picks.largest))
  }

  function NextWindow(window: nat, windowSeconds: nat, now: Option<nat>): nat
    requires windowSeconds > 0
  {
    if now.Some? then Timestamp.AlignedWindowStart(now.value, windowSeconds).value else window + windowSeconds
  }

  /** The window opened next contains what the clock says, or follows the one just closed. */
  lemma NextWindowContains(window: nat, windowSeconds: nat, now: Option<nat>)
    requires windowSeconds > 0
    ensures var next := NextWindow(window, windowSeconds, now);
            && (now.Some? ==> next <= now.value < next + windowSeconds && next % windowSeconds == 0)
            && (now.None? ==> next == window + windowSeconds)
            && (window % windowSeconds == 0 ==> next % windowSeconds == 0)
  {
    if now.Some? {
      Timestamp.AlignmentIsFloor(now.value, windowSeconds);
    } else if window % windowSeconds == 0 {
      Timestamp.RemainderOfMultiple(windowSeconds, window / windowSeconds + 1, 0);
    }
  }

  // ----- what must always hold of the buffers -----

  function TotalBytes(records: seq<Buffered>): nat {
    if records == [] then 0 else TotalBytes(records[..|records| - 1]) + BytesOf(records[|records| - 1].event)
  }

  /** A buffer is within its cap, counts at least its records, and holds only frames of its cohort
      received no later than the window it was filled in. */
  predicate SoundRecords(records: seq<Buffered>, c: Name, window: nat, windowSeconds: nat)
    requires windowSeconds > 0
  {
    forall i :: 0 <= i < |records| ==>
      (records[i].window == window && records[i].event.cohort == c
       && ReceiveWindow(records[i].event.receiveTime, windowSeconds) <= window)
  }

  predicate SoundState(state: CohortState, c: Name, window: nat, windowSeconds: nat, cap: nat)
    requires windowSeconds > 0
  {
    && SoundRecords(state.records, c, window, windowSeconds)
    && state.bytes == TotalBytes(state.records) <= cap
    && |state.records| <= state.received && state.received > 0
  }

  predicate SoundStates(states: States, window: nat, windowSeconds: nat, cap: nat)
    requires windowSeconds > 0
  {
    forall c :: c in states ==> SoundState(states[c], c, window, windowSeconds, cap)
  }

  predicate SoundBatch(b: Batch, windowSeconds: nat, cap: nat)
    requires windowSeconds > 0
  {
    SoundState(CohortState(b.records, b.bytes, b.received), b.cohort, b.window, windowSeconds, cap)
  }

  predicate SoundBatches(batches: seq<Batch>, windowSeconds: nat, cap: nat)
    requires windowSeconds > 0
  {
    forall i :: 0 <= i < |batches| ==> SoundBatch(batches[i], windowSeconds, cap)
  }

  // ----- what the writer accounts for, per cohort -----

  function ReceivedCount(states: States, c: Name): nat { StateOf(states, c).received }

  function BatchReceived(batches: seq<Batch>, c: Name): nat {
    if batches == [] then 0
    else BatchReceived(batches[..|batches| - 1], c)
         + (if batches[|batches| - 1].cohort == c then batches[|batches| - 1].received else 0)
  }

  function EventsOf(records: seq<Buffered>): (es: seq<Event>)
    ensures |es| == |records| && forall i :: 0 <= i < |es| ==> es[i] == records[i].event
  {
    seq(|records|, i requires 0 <= i < |records| => records[i].event)
  }

  function BatchEvents(batches: seq<Batch>, c: Name): seq<Event> {
    if batches == [] then []
    else BatchEvents(batches[..|batches| - 1], c)
         + (if batches[|batches| - 1].cohort == c then EventsOf(batches[|batches| - 1].records) else [])
  }

  /** All drops and frames of a cohort the writer's side knows of. */
  function Accounted(ledger: Ledger, states: States, batches: seq<Batch>, c: Name): nat {
    Drops(ledger, c) + ReceivedCount(states, c) + BatchReceived(batches, c)
  }

  /** The frames of a cohort the writer has taken in, in the order it has them. */
  function Stream(states: States, batches: seq<Batch>, c: Name): seq<Event> {
    BatchEvents(batches, c) + EventsOf(StateOf(states, c).records)
  }

  lemma FoldKeeps(ledger: Ledger, states: States, batches: seq<Batch>, c: Name, d: Name)
    ensures var states' := Folded(states, c, Drops(ledger, c));
            && Accounted(ledger - {c}, states', batches, d) == Accounted(ledger, states, batches, d)
            && Stream(states', batches, d) == Stream(states, batches, d)
  {
    hide BatchReceived, BatchEvents;
  }

  lemma FoldAllKeeps(ledger: Ledger, states: States, batches: seq<Batch>, d: Name)
    ensures var states' := FoldedAll(states, ledger);
            && Accounted(map[], states', batches, d) == Accounted(ledger, states, batches, d)
            && Stream(states', batches, d) == Stream(states, batches, d)
  {
    hide BatchReceived, BatchEvents;
  }

  lemma TakeKeeps(ledger: Ledger, states: States, batches: seq<Batch>, c: Name, window: nat, d: Name)
    requires c in states
    ensures var states', batches' := states - {c}, batches + [BatchOf(states, c, window)];
            && Accounted(ledger, states', batches', d) == Accounted(ledger, states, batches, d)
            && Stream(states', batches', d) == Stream(states, batches, d)
  {
    var batches' := batches + [BatchOf(states, c, window)];
    assert batches'[..|batches|] == batches;
    assert EventsOf([]) == [];
  }

  lemma AddKeeps(ledger: Ledger, states: States, batches: seq<Batch>, e: Event, window: nat, d: Name)
    ensures var states' := Added(states, e, window);
            && Accounted(ledger, states', batches, d)
               == Accounted(ledger, states, batches, d) + (if d == e.cohort then 1 else 0)
            && Stream(states', batches, d) == Stream(states, batches, d) + (if d == e.cohort then [e] else [])
  {
    hide BatchReceived, BatchEvents;
    var records := StateOf(states, e.cohort).records;
    assert EventsOf(records + [Buffered(e, window)]) == EventsOf(records) + [e];
  }

  lemma FoldSound(states: States, c: Name, drops: nat, window: nat, windowSeconds: nat, cap: nat)
    requires windowSeconds > 0 && SoundStates(states, window, windowSeconds, cap)
    ensures SoundStates(Folded(states, c, drops), window, windowSeconds, cap)
  {
    hide SoundRecords;
    assert SoundRecords([], c, window, windowSeconds) by { NoRecords(c, window, windowSeconds); }
  }

  lemma NoRecords(c: Name, window: nat, windowSeconds: nat)
    requires windowSeconds > 0
    ensures SoundRecords([], c, window, windowSeconds) && TotalBytes([]) == 0
  {
  }

  /** Every ledger entry stands for at least one drop. */
  predicate Positive(ledger: Ledger) {
    forall c :: c in ledger ==> ledger[c] > 0
  }

  lemma FoldAllSound(states: States, ledger: Ledger, window: nat, windowSeconds: nat, cap: nat)
    requires windowSeconds > 0 && SoundStates(states, window, windowSeconds, cap) && Positive(ledger)
    ensures SoundStates(FoldedAll(states, ledger), window, windowSeconds, cap)
  {
    hide SoundRecords;
    forall c | c in FoldedAll(states, ledger)
      ensures SoundState(FoldedAll(states, ledger)[c], c, window, windowSeconds, cap)
    {
      NoRecords(c, window, windowSeconds);
    }
  }

  lemma RecordAdded(records: seq<Buffered>, e: Event, window: nat, windowSeconds: nat)
    requires windowSeconds > 0 && SoundRecords(records, e.cohort, window, windowSeconds)
    requires ReceiveWindow(e.receiveTime, windowSeconds) <= window
    ensures SoundRecords(records + [Buffered(e, window)], e.cohort, window, windowSeconds)
  {
    hide ReceiveWindow;
  }

  lemma BytesAdded(records: seq<Buffered>, e: Event, window: nat)
    ensures TotalBytes(records + [Buffered(e, window)]) == TotalBytes(records) + BytesOf(e)
  {
    assert (records + [Buffered(e, window)])[..|records|] == records;
  }

  lemma OtherStatesSound(states: States, c: Name, state: CohortState, window: nat, windowSeconds: nat, cap: nat)
    requires windowSeconds > 0 && SoundStates(states, window, windowSeconds, cap)
    requires SoundState(state, c, window, windowSeconds, cap)
    ensures SoundStates(states[c := state], window, windowSeconds, cap)
  {
    hide SoundState;
  }

  lemma StateIsSound(states: States, c: Name, window: nat, windowSeconds: nat, cap: nat)
    requires windowSeconds > 0 && SoundStates(states, window, windowSeconds, cap)
    ensures SoundRecords(StateOf(states, c).records, c, window, windowSeconds)
    ensures StateOf(states, c).bytes == TotalBytes(StateOf(states, c).records)
    ensures |StateOf(states, c).records| <= StateOf(states, c).received
  {
    hide SoundRecords;
    NoRecords(c, window, windowSeconds);
    if c in states { assert SoundState(states[c], c, window, windowSeconds, cap); }
  }

  /** A record fits a buffer that it does not push over its cap. */
  lemma AddSound(states: States, e: Event, window: nat, windowSeconds: nat, cap: nat)
    requires windowSeconds > 0 && SoundStates(states, window, windowSeconds, cap)
    requires StateOf(states, e.cohort).bytes + BytesOf(e) <= cap
    requires ReceiveWindow(e.receiveTime, windowSeconds) <= window
    ensures SoundStates(Added(states, e, window), window, windowSeconds, cap)
  {
    hide ReceiveWindow, SoundRecords, SoundStates, TotalBytes, StateOf, BytesOf;
    var state := StateOf(states, e.cohort);
    StateIsSound(states, e.cohort, window, windowSeconds, cap);
    RecordAdded(state.records, e, window, windowSeconds);
    BytesAdded(state.records, e, window);
    OtherStatesSound(states, e.cohort, Added(states, e, window)[e.cohort], window, windowSeconds, cap);
  }

  lemma FoldAllStep(states: States, ledger: Ledger, remaining: set<Name>, c: Name)
    requires remaining <= ledger.Keys && c in remaining
    ensures var before := FoldedAll(states, ledger - remaining);
            before[c := WithDrops(StateOf(before, c), ledger[c])] == FoldedAll(states, ledger - (remaining - {c}))
  {
  }

  lemma NothingFolded(states: States, ledger: Ledger)
    ensures FoldedAll(states, ledger - ledger.Keys) == states
  {
  }

  lemma BatchesGrow(batches: seq<Batch>, b: Batch, windowSeconds: nat, cap: nat)
    requires windowSeconds > 0 && SoundBatches(batches, windowSeconds, cap) && SoundBatch(b, windowSeconds, cap)
    ensures SoundBatches(batches + [b], windowSeconds, cap)
  {
    hide SoundBatch;
  }

  lemma FlushedNone(d: Desk)
    ensures FlushedEach(d, []) == d
  {
  }

  lemma FlushedNext(d: Desk, order: seq<Name>, i: nat)
    requires i < |order|
    ensures FlushedEach(d, order[..i + 1]) == FlushedFor(FlushedEach(d, order[..i]), order[i])
    ensures order[..0] == [] && order[..|order|] == order
    ensures order[i..] == [order[i]] + order[i + 1..]
  {
    hide FlushedFor;
    assert order[..i + 1][..i] == order[..i];
  }

  /** The cohorts that have a buffer, in some order. */
  method CohortsOf(states: States) returns (order: seq<Name>)
    ensures Enumerates(order, states) && |order| == |states|
    ensures forall i, j :: 0 <= i < j < |order| ==> order[i] != order[j]
  {
    order := [];
    var remaining := states.Keys;
    while remaining != {}
      invariant remaining <= states.Keys && |order| + |remaining| == |states|
      invariant forall c :: c in order <==> c in states.Keys - remaining
      invariant forall i, j :: 0 <= i < j < |order| ==> order[i] != order[j]
      decreases |remaining|
    {
      var c :| c in remaining;
      assert c !in order && forall i :: 0 <= i < |order| ==> order[i] in order;
      order := order + [c];
      remaining := remaining - {c};
    }
  }

  class CollectorCounters {
    var pending: Ledger

    constructor ()
      ensures pending == map[]
    {
      pending := map[];
    }

    method RecordDrop(c: Name)
      modifies this
      ensures pending == Recorded(old(pending), c)
    {
      var entry := if c in pending then pending[c] else 0;
      pending := pending[c := entry + 1];
    }

    method TakePendingDrops(c: Name) returns (drops: nat)
      modifies this
      ensures drops == Drops(old(pending), c) && pending == old(pending) - {c}
    {
      drops := if c in pending then pending[c] else 0;
      pending := pending - {c};
    }

    method TakeAllPendingDrops() returns (drops: Ledger)
      modifies this
      ensures drops == old(pending) && pending == map[]
    {
      drops := pending;
      pending := map[];
    }
  }

  class Writer {
    const windowSeconds: nat
    const cap: nat
    const live: nat
    const counters: CollectorCounters
    var states: States
    var window: nat
    /** The batches handed to storage, in order. */
    var batches: seq<Batch>

    constructor (windowSeconds: nat, cap: nat, live: nat, counters: CollectorCounters, nowSeconds: nat)
      requires windowSeconds > 0 && Positive(counters.pending)
      ensures this.windowSeconds == windowSeconds && this.cap == cap && this.live == live && this.counters == counters
      ensures Valid() && states == map[] && batches == []
    {
      this.windowSeconds, this.cap, this.live, this.counters := windowSeconds, cap, live, counters;
      states, batches := map[], [];
      window := Timestamp.AlignedWindowStart(nowSeconds, windowSeconds).value;
    }

    ghost predicate Valid()
      reads this, counters
    {
      && windowSeconds > 0 && Positive(counters.pending)
      && SoundStates(states, window, windowSeconds, cap) && SoundBatches(batches, windowSeconds, cap)
    }

    function Contents(): Desk
      reads this, counters
    {
      Desk(counters.pending, states, window, batches)
    }

    /** Everything received for a cohort that has reached the ledger or the writer. */
    ghost function AccountedFor(c: Name): nat
      reads this, counters
    {
      Accounted(counters.pending, states, batches, c)
    }

    ghost function StreamOf(c: Name): seq<Event>
      reads this
    {
      Stream(states, batches, c)
    }

    method FoldPendingDrops(c: Name)
      requires Valid()
      modifies this`states, counters
      ensures Valid() && Contents() == FoldedFor(old(Contents()), c)
      ensures forall d :: AccountedFor(d) == old(AccountedFor(d)) && StreamOf(d) == old(StreamOf(d))
    {
      ghost var ledger := counters.pending;
      FoldSound(states, c, Drops(ledger, c), window, windowSeconds, cap);
      forall d
        ensures Accounted(ledger - {c}, Folded(states, c, Drops(ledger, c)), batches, d)
                == Accounted(ledger, states, batches, d)
        ensures Stream(Folded(states, c, Drops(ledger, c)), batches, d) == Stream(states, batches, d)
      {
        FoldKeeps(ledger, states, batches, c, d);
      }
      hide SoundStates, SoundBatches, Accounted, Stream;
      var drops := counters.TakePendingDrops(c);
      if drops != 0 {
        var state := if c in states then states[c] else EMPTY_STATE;
        states := states[c := state.(received := state.received + drops)];
      }
    }

    method FoldAllPendingDrops()
      requires Valid()
      modifies this`states, counters
      ensures Valid() && Contents() == FoldedWhole(old(Contents()))
      ensures forall d :: AccountedFor(d) == old(AccountedFor(d)) && StreamOf(d) == old(StreamOf(d))
    {
      ghost var ledger, before := counters.pending, states;
      FoldAllSound(before, ledger, window, windowSeconds, cap);
      forall d ensures Accounted(map[], FoldedAll(before, ledger), batches, d) == Accounted(ledger, before, batches, d)
                       && Stream(FoldedAll(before, ledger), batches, d) == Stream(before, batches, d)
      {
        FoldAllKeeps(ledger, before, batches, d);
      }
      hide SoundStates, SoundBatches, Accounted, Stream;
      var taken := counters.TakeAllPendingDrops();
      FoldTaken(taken);
    }

    method FoldTaken(taken: Ledger)
      modifies this`states
      ensures states == FoldedAll(old(states), taken)
    {
      hide FoldedAll;
      ghost var before := states;
      var remaining := taken.Keys;
      NothingFolded(before, taken);
      while remaining != {}
        invariant remaining <= taken.Keys && states == FoldedAll(before, taken - remaining)
        decreases |remaining|
      {
        var c :| c in remaining;
        FoldAllStep(before, taken, remaining, c);
        var state := if c in states then states[c] else EMPTY_STATE;
        states := states[c := state.(received := state.received + taken[c])];
        remaining := remaining - {c};
      }
      assert taken - {} == taken;
    }

    method AddRecord(e: Event)
      modifies this`states
      ensures states == Added(old(states), e, window)
    {
      var state := if e.cohort in states then states[e.cohort] else EMPTY_STATE;
      states := states[e.cohort := CohortState(state.records + [Buffered(e, window)], state.bytes + BytesOf(e),
                                               state.received + 1)];
    }

    method TakeFlushBatch(c: Name) returns (b: Option<Batch>)
      modifies this`states
      ensures states == old(states) - {c}
      ensures b == if Flushable(old(states), c) then Some(BatchOf(old(states), c, window)) else None
    {
      if c !in states {
        assert states - {c} == states;
        return None;
      }
      var state := states[c];
      states := states - {c};
      if state.records == [] && state.received == 0 {
        return None;
      }
      return Some(Batch(window, c, state.records, state.bytes, state.received));
    }

    /** Writes out one cohort: afterwards it has no buffer, and nothing was lost or duplicated. */
    method FlushCohort(c: Name) returns (flushed: bool)
      requires Valid()
      modifies this`states, this`batches, counters
      ensures Valid() && Contents() == FlushedFor(old(Contents()), c) && states.Keys == old(states).Keys - {c}
      ensures forall d :: d in states ==> d in old(states) && states[d] == old(states)[d]
      ensures c !in counters.pending && (forall d :: d in counters.pending ==> d in old(counters.pending))
      ensures flushed <==> c in old(states) || c in old(counters.pending)
      ensures forall d :: AccountedFor(d) == old(AccountedFor(d)) && StreamOf(d) == old(StreamOf(d))
    {
      hide Accounted, Stream, SoundBatches;
      FoldPendingDrops(c);
      label folded:
      if c !in states {
        return false;
      }
      assert SoundState(states[c], c, window, windowSeconds, cap);
      if states[c].records == [] && states[c].received == 0 {
        return false;
      }
      forall d
        ensures Accounted(counters.pending, states - {c}, batches + [BatchOf(states, c, window)], d)
                == Accounted(counters.pending, states, batches, d)
        ensures Stream(states - {c}, batches + [BatchOf(states, c, window)], d) == Stream(states, batches, d)
      {
        TakeKeeps(counters.pending, states, batches, c, window, d);
      }
      BatchesGrow(batches, BatchOf(states, c, window), windowSeconds, cap);
      hide SoundState;
      var batch := TakeFlushBatch(c);
      if batch.None? {
        return false;
      }
      batches := batches + [batch.value];
      return true;
    }

    /** Writes out every cohort. */
    method FlushAll() returns (ghost order: seq<Name>)
      requires Valid()
      modifies this`states, this`batches, counters
      ensures Valid() && states == map[]
      ensures Enumerates(order, old(states)) && Contents() == FlushedEach(old(Contents()), order)
      ensures forall d :: d in counters.pending ==> d in old(counters.pending)
      ensures forall d :: AccountedFor(d) == old(AccountedFor(d)) && StreamOf(d) == old(StreamOf(d))
    {
      hide SoundStates, SoundBatches, Accounted, Stream, FlushedFor, FlushedEach, Positive;
      var cohorts := CohortsOf(states);
      order := cohorts;
      ghost var before := Contents();
      FlushedNone(before);
      for i := 0 to |cohorts|
        invariant Valid() && Contents() == FlushedEach(before, cohorts[..i])
        invariant forall c :: c in states ==> c in cohorts[i..]
        invariant forall d :: d in counters.pending ==> d in old(counters.pending)
        invariant forall d :: AccountedFor(d) == old(AccountedFor(d)) && StreamOf(d) == old(StreamOf(d))
      {
        FlushedNext(before, cohorts, i);
        var _ := FlushCohort(cohorts[i]);
      }
      assert cohorts[..|cohorts|] == cohorts;
      assert states.Keys == {};
    }

    predicate CohortWouldExceedCap(e: Event)
      reads this
    {
      Overfull(states, e, cap)
    }

    /** Moves on to the window a frame was received in, once that is later than the current one. */
    method AdvanceToReceiveWindow(e: Event) returns (ghost order: seq<Name>)
      requires Valid()
      modifies this, counters
      ensures Valid() && Contents() == Advanced(old(Contents()), e, windowSeconds, order)
      ensures ReceiveWindow(e.receiveTime, windowSeconds) > old(window) ==>
        Enumerates(order, FoldedWhole(old(Contents())).states) && states == map[]
      ensures window >= old(window) && (window != old(window) ==> window == ReceiveWindow(e.receiveTime, windowSeconds))
      ensures window >= ReceiveWindow(e.receiveTime, windowSeconds)
      ensures forall d :: AccountedFor(d) == old(AccountedFor(d)) && StreamOf(d) == old(StreamOf(d))
    {
      hide Accounted, Stream, SoundBatches, ReceiveWindow, FlushedEach, FoldedAll;
      var receiveWindow := ReceiveWindow(e.receiveTime, windowSeconds);
      order := [];
      if receiveWindow <= window {
        return;
      }
      FoldAllPendingDrops();
      order := FlushAll();
      window := receiveWindow;
    }

    /** Writes out a largest buffer, if any cohort has records. */
    method FlushLargestCohort() returns (ghost largest: Name)
      requires Valid()
      modifies this`states, this`batches, counters
      ensures Valid() && states.Keys <= old(states).Keys
      ensures forall d :: d in states ==> d in old(states) && states[d] == old(states)[d]
      ensures if NoRecordsAtAll(old(states)) then Contents() == old(Contents())
              else IsLargest(old(states), largest) && Contents() == FlushedFor(old(Contents()), largest)
      ensures forall d :: AccountedFor(d) == old(AccountedFor(d)) && StreamOf(d) == old(StreamOf(d))
    {
      hide SoundStates, SoundBatches, Accounted, Stream, FlushedFor;
      largest := [];
      var found: Option<Name> := None;
      var remaining := states.Keys;
      while remaining != {}
        invariant remaining <= states.Keys
        invariant found.None? ==> forall d :: d in states && d !in remaining ==> states[d].records == []
        invariant found.Some? ==>
          && found.value in states && states[found.value].records != []
          && forall d :: d in states && d !in remaining && states[d].records != [] ==>
               states[d].bytes <= states[found.value].bytes
        decreases |remaining|
      {
        var c :| c in remaining;
        remaining := remaining - {c};
        if states[c].records != [] && (found.None? || states[found.value].bytes <= states[c].bytes) {
          found := Some(c);
        }
      }
      if found.Some? {
        largest := found.value;
        var _ := FlushCohort(found.value);
      }
    }

    /** Takes in one frame. `observed` is what the memory tracker reports at the time. The frame ends up
        last in its cohort's stream, everything else keeps its place, and every buffer stays within
        its cap. */
    method HandleFrame(e: Event, observed: nat) returns (ghost picks: Picks)
      requires Valid() && BytesOf(e) <= cap
      modifies this, counters
      ensures Valid() && e.cohort in states && picks.observed == observed
      ensures Possible(old(Contents()), e, windowSeconds, cap, live, picks)
      ensures Contents() == Handled(old(Contents()), e, windowSeconds, cap, live, picks)
      ensures window >= old(window) && (window != old(window) ==> window == ReceiveWindow(e.receiveTime, windowSeconds))
      ensures forall d :: AccountedFor(d) == old(AccountedFor(d)) + (if d == e.cohort then 1 else 0)
      ensures forall d :: StreamOf(d) == old(StreamOf(d)) + (if d == e.cohort then [e] else [])
    {
      hide Accounted, Stream, SoundBatches, ReceiveWindow, SoundStates, FlushedFor, FlushedEach, Emptied, Advanced,
           FoldedWhole,
           IsLargest, NoRecordsAtAll, Enumerates, Folded;
      ghost var order := AdvanceToReceiveWindow(e);
      FoldPendingDrops(e.cohort);
      if CohortWouldExceedCap(e) {
        var _ := FlushCohort(e.cohort);
      }
      assert StateOf(states, e.cohort).bytes + BytesOf(e) <= cap;
      assert Contents() == Prepared(old(Contents()), e, windowSeconds, cap, order);
      ghost var largest := [];
      if observed >= live {
        largest := FlushLargestCohort();
      }
      picks := Picks(order, observed, largest);
      assert StateOf(states, e.cohort).bytes + BytesOf(e) <= cap;
      Buffer(e);
    }

    /** Buffers a frame that fits. */
    method Buffer(e: Event)
      requires Valid() && StateOf(states, e.cohort).bytes + BytesOf(e) <= cap
      requires ReceiveWindow(e.receiveTime, windowSeconds) <= window
      modifies this`states
      ensures Valid() && Contents() == WithRecord(old(Contents()), e)
      ensures forall d :: AccountedFor(d) == old(AccountedFor(d)) + (if d == e.cohort then 1 else 0)
      ensures forall d :: StreamOf(d) == old(StreamOf(d)) + (if d == e.cohort then [e] else [])
    {
      hide Accounted, Stream, SoundBatches, ReceiveWindow, SoundStates;
      forall d ensures Accounted(counters.pending, Added(states, e, window), batches, d)
                       == Accounted(counters.pending, states, batches, d) + (if d == e.cohort then 1 else 0)
                       && Stream(Added(states, e, window), batches, d)
                       == Stream(states, batches, d) + (if d == e.cohort then [e] else [])
      {
        AddKeeps(counters.pending, states, batches, e, window, d);
      }
      AddSound(states, e, window, windowSeconds, cap);
      AddRecord(e);
    }

    /** Closes the current window and opens the one the clock says, or the next one when the clock cannot
        be read. No buffer survives the change. */
    method CloseWindow(now: Option<nat>) returns (ghost order: seq<Name>)
      requires Valid()
      modifies this, counters
      ensures Valid() && states == map[]
      ensures Enumerates(order, FoldedWhole(old(Contents())).states)
      ensures Contents() == Emptied(old(Contents()), order).(window := NextWindow(old(window), windowSeconds, now))
      ensures now.Some? ==> window <= now.value < window + windowSeconds && window % windowSeconds == 0
      ensures now.None? ==> window == old(window) + windowSeconds
      ensures forall d :: AccountedFor(d) == old(AccountedFor(d)) && StreamOf(d) == old(StreamOf(d))
    {
      hide Accounted, Stream, SoundBatches, FlushedEach, FoldedAll;
      var closing := window;
      NextWindowContains(window, windowSeconds, now);
      FoldAllPendingDrops();
      order := FlushAll();
      match now {
        case Some(seconds) => window := Timestamp.AlignedWindowStart(seconds, windowSeconds).value;
        case None => window := closing + windowSeconds;
      }
    }
  }
}
