/** When the collector writes a batch: at a change of window, for a buffer that a frame would push over its
    cap, and under memory pressure; never otherwise. */
module Flushes {
  import opened Wrappers
  import opened Bytes
  import opened Writer

  /** Every cohort the desk knows of has received something. */
  predicate InUse(d: Desk) {
    Positive(d.ledger) && forall c :: c in d.states ==> d.states[c].received > 0
  }

  lemma SoundInUse(d: Desk, windowSeconds: nat, cap: nat)
    requires windowSeconds > 0 && SoundStates(d.states, d.window, windowSeconds, cap) && Positive(d.ledger)
    ensures InUse(d)
  {
    hide SoundRecords;
    forall c | c in d.states ensures d.states[c].received > 0 {
      assert SoundState(d.states[c], c, d.window, windowSeconds, cap);
    }
  }

  /** The batch a cohort's buffer and pending drops make. */
  predicate WholeBuffer(b: Batch, d: Desk, c: Name) {
    && b.cohort == c && b.window == d.window && b.records == StateOf(d.states, c).records
    && b.bytes == StateOf(d.states, c).bytes && b.received == StateOf(d.states, c).received + Drops(d.ledger, c)
  }

  // ----- a change of window -----

  /** After some cohorts were written out: one new batch for each, holding all it had. */
  ghost predicate WrittenOut(d: Desk, d': Desk, done: set<Name>) {
    && d'.ledger == map[] && d'.window == d.window && d'.states == FoldedWhole(d).states - done
    && |d.batches| <= |d'.batches| && d'.batches[..|d.batches|] == d.batches
    && (forall i, j :: |d.batches| <= i < j < |d'.batches| ==> d'.batches[i].cohort != d'.batches[j].cohort)
    && (forall i :: |d.batches| <= i < |d'.batches| ==>
         d'.batches[i].cohort in done && WholeBuffer(d'.batches[i], d, d'.batches[i].cohort))
    && (forall c :: c in done && (c in d.states || c in d.ledger) ==>
         exists i :: |d.batches| <= i < |d'.batches| && d'.batches[i].cohort == c)
  }

  lemma NothingWrittenOut(d: Desk)
    ensures WrittenOut(d, FoldedWhole(d), {})
  {
    assert d.batches[..|d.batches|] == d.batches;
  }

  lemma FlushedOne(d: Desk, c: Name)
    requires d.ledger == map[] && (c in d.states ==> d.states[c].received > 0)
    ensures FlushedFor(d, c)
         == if c in d.states then
              d.(states := d.states - {c}, batches := d.batches + [BatchOf(d.states, c, d.window)])
            else d
  {
    assert d.ledger - {c} == map[];
  }

  /** The batch of the next cohort. */
  lemma NextBatch(d: Desk, d': Desk, done: set<Name>, c: Name)
    requires InUse(d) && WrittenOut(d, d', done)
    ensures d'.ledger == map[] && (c in d'.states ==> d'.states[c].received > 0)
    ensures c in d'.states ==> WholeBuffer(BatchOf(d'.states, c, d'.window), d, c)
    ensures c in d'.states <==> c !in done && (c in d.states || c in d.ledger)
    ensures d'.states - {c} == FoldedWhole(d).states - (done + {c})
  {
  }

  lemma Appended(d: Desk, d': Desk, done: set<Name>, c: Name, d'': Desk)
    requires WrittenOut(d, d', done) && c !in done && (c in d.states || c in d.ledger)
    requires d'' == d'.(states := FoldedWhole(d).states - (done + {c}), batches := d''.batches)
    requires |d''.batches| == |d'.batches| + 1 && d''.batches[..|d'.batches|] == d'.batches
    requires d''.batches[|d'.batches|].cohort == c && WholeBuffer(d''.batches[|d'.batches|], d, c)
    ensures WrittenOut(d, d'', done + {c})
  {
    hide WholeBuffer, FoldedWhole;
    var n, m := |d.batches|, |d'.batches|;
    assert forall i :: 0 <= i < m ==> d''.batches[i] == d'.batches[i];
    assert d''.batches[..n] == d'.batches[..n];
    forall x | x in done + {c} && (x in d.states || x in d.ledger)
      ensures exists i :: n <= i < |d''.batches| && d''.batches[i].cohort == x
    {
      if x in done {
        var i :| n <= i < m && d'.batches[i].cohort == x;
        assert d''.batches[i].cohort == x;
      }
    }
  }

  lemma OneMoreWrittenOut(d: Desk, d': Desk, done: set<Name>, c: Name)
    requires InUse(d) && WrittenOut(d, d', done)
    ensures WrittenOut(d, FlushedFor(d', c), done + {c})
  {
    NextBatch(d, d', done, c);
    FlushedOne(d', c);
    hide FlushedFor, FoldedWhole, WholeBuffer;
    if c in d'.states {
      var out := FlushedFor(d', c);
      assert out.batches[..|d'.batches|] == d'.batches;
      hide WrittenOut;
      Appended(d, d', done, c, out);
    } else {
      assert d'.states - {c} == d'.states;
    }
  }

  lemma {:induction false} AllWrittenOut(d: Desk, order: seq<Name>)
    requires InUse(d)
    ensures WrittenOut(d, FlushedEach(FoldedWhole(d), order), (set c | c in order))
  {
    hide WrittenOut, FlushedFor;
    if order == [] {
      NothingWrittenOut(d);
      assert (set c | c in order) == {};
    } else {
      var n := |order| - 1;
      AllWrittenOut(d, order[..n]);
      OneMoreWrittenOut(d, FlushedEach(FoldedWhole(d), order[..n]), (set c | c in order[..n]), order[n]);
      assert order == order[..n] + [order[n]];
      assert (set c | c in order[..n]) + {order[n]} == set c | c in order;
    }
  }

  /** Emptying the buffers writes exactly one batch for every cohort with a buffer or pending drops, with
      all it had and under the window being closed; it leaves nothing, and touches no earlier batch. */
  lemma EmptiedExactly(d: Desk, order: seq<Name>)
    requires InUse(d) && Enumerates(order, FoldedWhole(d).states)
    ensures Emptied(d, order).states == map[]
    ensures WrittenOut(d, Emptied(d, order), d.states.Keys + d.ledger.Keys)
  {
    AllWrittenOut(d, order);
    assert (set c | c in order) == d.states.Keys + d.ledger.Keys;
  }

  // ----- a frame that does not change the window -----

  /** The cohort's buffer with the frame in it. */
  function Joined(d: Desk, e: Event): CohortState {
    var s := StateOf(d.states, e.cohort);
    CohortState(s.records + [Buffered(e, d.window)], s.bytes + |e.frame| + 8,
                s.received + Drops(d.ledger, e.cohort) + 1)
  }

  /** The frame does not fit its cohort's buffer. */
  predicate TooFull(d: Desk, e: Event, cap: nat) { StateOf(d.states, e.cohort).bytes + |e.frame| + 8 > cap }

  /** A frame that fits, without memory pressure, joins its cohort's buffer, and nothing is written. */
  lemma QuietFrame(d: Desk, e: Event, windowSeconds: nat, cap: nat, live: nat, picks: Picks)
    requires windowSeconds > 0 && ReceiveWindow(e.receiveTime, windowSeconds) <= d.window
    requires !TooFull(d, e, cap) && picks.observed < live
    ensures Handled(d, e, windowSeconds, cap, live, picks)
         == Desk(d.ledger - {e.cohort}, d.states[e.cohort := Joined(d, e)], d.window, d.batches)
  {
    hide ReceiveWindow;
    var folded := FoldedFor(d, e.cohort);
    assert StateOf(folded.states, e.cohort).bytes == StateOf(d.states, e.cohort).bytes;
    assert Prepared(d, e, windowSeconds, cap, picks.order) == folded;
    assert Added(folded.states, e, d.window) == d.states[e.cohort := Joined(d, e)];
  }

  lemma SpilledBuffer(d: Desk, e: Event, cap: nat)
    requires InUse(d) && BytesOf(e) <= cap && TooFull(d, e, cap)
    ensures var out := Spilled(FoldedFor(d, e.cohort), e, cap);
            && out.ledger == d.ledger - {e.cohort} && out.window == d.window && out.states == d.states - {e.cohort}
            && |out.batches| == |d.batches| + 1 && out.batches[..|d.batches|] == d.batches
            && WholeBuffer(out.batches[|d.batches|], d, e.cohort)
  {
    var c, folded := e.cohort, FoldedFor(d, e.cohort);
    assert c in d.states && c !in folded.ledger && Drops(folded.ledger, c) == 0;
    assert folded.states - {c} == d.states - {c};
    assert FoldedFor(folded, c) == folded by { assert folded.ledger - {c} == folded.ledger; }
  }

  /** A frame that does not fit its cohort's buffer has that one buffer written out, and starts a new one. */
  lemma FullFrame(d: Desk, e: Event, windowSeconds: nat, cap: nat, live: nat, picks: Picks)
    requires windowSeconds > 0 && ReceiveWindow(e.receiveTime, windowSeconds) <= d.window
    requires InUse(d) && BytesOf(e) <= cap && TooFull(d, e, cap) && picks.observed < live
    ensures var out := Handled(d, e, windowSeconds, cap, live, picks);
            && out.ledger == d.ledger - {e.cohort} && out.window == d.window
            && out.states == d.states[e.cohort := CohortState([Buffered(e, d.window)], |e.frame| + 8, 1)]
            && |out.batches| == |d.batches| + 1 && out.batches[..|d.batches|] == d.batches
            && WholeBuffer(out.batches[|d.batches|], d, e.cohort)
  {
    hide ReceiveWindow, Spilled, FoldedFor, WholeBuffer;
    SpilledBuffer(d, e, cap);
    assert [] + [Buffered(e, d.window)] == [Buffered(e, d.window)];
    assert Added(d.states - {e.cohort}, e, d.window)
        == d.states[e.cohort := CohortState([Buffered(e, d.window)], |e.frame| + 8, 1)];
  }

  /** Under memory pressure, and as long as anything is buffered, exactly one more buffer is written out
      before the frame is taken in: one that holds as many bytes as any other. */
  lemma PressedFrame(d: Desk, e: Event, windowSeconds: nat, cap: nat, live: nat, picks: Picks)
    requires windowSeconds > 0 && Possible(d, e, windowSeconds, cap, live, picks) && picks.observed >= live
    ensures var ready := Prepared(d, e, windowSeconds, cap, picks.order);
            var out := Handled(d, e, windowSeconds, cap, live, picks);
            if forall c :: c in ready.states ==> ready.states[c].records == [] then out == WithRecord(ready, e)
            else
              && picks.largest in ready.states && ready.states[picks.largest].records != []
              && (forall c :: c in ready.states && ready.states[c].records != [] ==>
                   ready.states[c].bytes <= ready.states[picks.largest].bytes)
              && |out.batches| == |ready.batches| + 1 && out.batches[..|ready.batches|] == ready.batches
              && WholeBuffer(out.batches[|ready.batches|], ready, picks.largest)
              && out.window == ready.window && out.ledger == ready.ledger - {picks.largest}
              && out.states.Keys == ready.states.Keys - {picks.largest} + {e.cohort}
              && (forall c :: c in out.states && c != e.cohort ==> out.states[c] == ready.states[c])
  {
    hide Prepared;
    var ready := Prepared(d, e, windowSeconds, cap, picks.order);
    if !NoRecordsAtAll(ready.states) { Pressed(ready, picks.largest, e); }
    hide FlushedFor, WholeBuffer;
  }

  lemma Pressed(ready: Desk, largest: Name, e: Event)
    requires IsLargest(ready.states, largest)
    ensures var out := WithRecord(FlushedFor(ready, largest), e);
            && |out.batches| == |ready.batches| + 1 && out.batches[..|ready.batches|] == ready.batches
            && WholeBuffer(out.batches[|ready.batches|], ready, largest)
            && out.window == ready.window && out.ledger == ready.ledger - {largest}
            && out.states.Keys == ready.states.Keys - {largest} + {e.cohort}
            && (forall c :: c in out.states && c != e.cohort ==> out.states[c] == ready.states[c])
  {
  }
}
