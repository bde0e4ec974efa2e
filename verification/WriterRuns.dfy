/** What the writer does to its desk in one piece, as a run of the collector in which only the writer
    moves. */
module WriterRuns {
  import opened Wrappers
  import opened Bytes
  import opened Writer
  import opened Collector
  import opened CollectorLaws
  import CollectorGuarantees

  function DeskOf(s: Sys): Desk { Desk(s.ledger, s.states, s.window, s.batches) }

  /** Steps the writer takes on its own. */
  predicate OfWriter(step: Step) { step.Dequeue? || step.CloseWindow? || step.Work? || step.Continue? }

  /** The writer gets from `s` to `t` while nobody else moves. */
  ghost predicate Reaches(s: Sys, config: Config, t: Sys)
    requires ValidConfig(config)
  {
    exists steps: seq<Step> :: (forall step :: step in steps ==> OfWriter(step)) && Run(s, config, steps) == t
  }

  lemma {:induction false} RunConcat(s: Sys, config: Config, p: seq<Step>, q: seq<Step>)
    requires ValidConfig(config)
    ensures Run(s, config, p + q) == Run(Run(s, config, p), config, q)
    decreases |q|
  {
    hide TakeStep, ValidConfig;
    if q == [] {
      assert p + q == p;
    } else {
      assert (p + q)[..|p + q| - 1] == p + q[..|q| - 1];
      RunConcat(s, config, p, q[..|q| - 1]);
    }
  }

  lemma Stays(s: Sys, config: Config)
    requires ValidConfig(config)
    ensures Reaches(s, config, s)
  {
    assert Run(s, config, []) == s;
  }

  lemma Moves(s: Sys, config: Config, step: Step)
    requires ValidConfig(config) && OfWriter(step) && TakeStep(s, config, step).Some?
    ensures Reaches(s, config, TakeStep(s, config, step).value)
  {
    hide TakeStep, ValidConfig;
    assert [step][..0] == [] && Run(s, config, []) == s;
    assert Run(s, config, [step]) == TakeStep(s, config, step).value;
  }

  lemma Chains(s: Sys, config: Config, t: Sys, u: Sys)
    requires ValidConfig(config) && Reaches(s, config, t) && Reaches(t, config, u)
    ensures Reaches(s, config, u)
  {
    hide Run, OfWriter, ValidConfig;
    var p :| (forall step :: step in p ==> OfWriter(step)) && Run(s, config, p) == t;
    var q :| (forall step :: step in q ==> OfWriter(step)) && Run(t, config, q) == u;
    RunConcat(s, config, p, q);
    assert forall step :: step in p + q ==> OfWriter(step);
  }

  /** `t` is what the writer makes of `s`: this desk, this work left, and nothing else touched but the
      memory counter, which stays what the guards add up to. */
  ghost predicate Makes(s: Sys, config: Config, t: Sys, desk: Desk, work: seq<Op>, next: Next)
    requires ValidConfig(config)
  {
    && Reaches(s, config, t) && Inv(t, config)
    && DeskOf(t) == desk && t.work == work && t.next == next && t.segment == None
    && t.readers == s.readers && t.channel == s.channel && t.received == s.received && t.sent == s.sent
  }

  lemma OneMove(s: Sys, config: Config, step: Step)
    requires ValidConfig(config) && Inv(s, config) && OfWriter(step) && TakeStep(s, config, step).Some?
    ensures Reaches(s, config, TakeStep(s, config, step).value) && Inv(TakeStep(s, config, step).value, config)
  {
    hide TakeStep, Inv, OfWriter, ValidConfig;
    Moves(s, config, step);
    InvStep(s, config, step);
  }

  // ----- writing out one cohort -----

  /** All guards of a written batch are given back, one after the other. */
  lemma {:induction false} DiscardRun(s: Sys, config: Config, records: seq<Buffered>, rest: seq<Op>) returns (t: Sys)
    requires ValidConfig(config) && Inv(s, config) && s.work == [Discard(records)] + rest
    ensures Reaches(s, config, t) && Inv(t, config) && t == s.(used := t.used, work := rest)
    decreases |records|
  {
    hide Inv, Reaches, ValidConfig;
    assert s.work[1..] == rest;
    assert DoWork(s, Nothing).Some? by { DiscardReady(s, config); }
    var step := Work(Nothing);
    OneMove(s, config, step);
    t := TakeStep(s, config, step).value;
    if records != [] {
      var u := t;
      t := DiscardRun(u, config, records[1..], rest);
      Chains(s, config, u, t);
    }
  }

  lemma DiscardReady(s: Sys, config: Config)
    requires ValidConfig(config) && Inv(s, config) && s.work != [] && s.work[0].Discard?
    ensures DoWork(s, Nothing).Some?
  {
    hide WriterInv, Genuine, OneSegment, DoWork, ValidConfig;
    CollectorGuarantees.DiscardPossible(s, Nothing);
  }

  /** A batch that was taken is serialized, discarded and stored. */
  lemma BatchRun(s: Sys, config: Config, b: Batch, rest: seq<Op>) returns (t: Sys)
    requires ValidConfig(config) && Inv(s, config) && s.work == [Serialize(b)] + rest && s.segment == None
    ensures Reaches(s, config, t) && Inv(t, config) && t == s.(used := t.used, work := rest)
  {
    hide Inv, Reaches, ValidConfig, Serializable, SegmentLen;
    var step := Work(Nothing);
    assert s.work[1..] == rest;
    OneMove(s, config, step);
    var u := TakeStep(s, config, step).value;
    if Serializable(b) {
      assert u.work == [Discard(b.records)] + ([Store] + rest);
      var v := DiscardRun(u, config, b.records, [Store] + rest);
      Chains(s, config, u, v);
      assert v.work[1..] == rest;
      OneMove(v, config, step);
      t := TakeStep(v, config, step).value;
      Chains(s, config, v, t);
    } else {
      t := DiscardRun(u, config, b.records, rest);
      Chains(s, config, u, t);
    }
  }

  lemma FlushRun(s: Sys, config: Config, c: Name, rest: seq<Op>) returns (t: Sys)
    requires ValidConfig(config) && Inv(s, config) && s.work == [Flush(c)] + rest && s.segment == None
    ensures Makes(s, config, t, FlushedFor(DeskOf(s), c), rest, s.next)
  {
    hide Inv, Reaches, ValidConfig, Folded;
    var step := Work(Nothing);
    assert s.work[1..] == rest;
    OneMove(s, config, step);
    var u := TakeStep(s, config, step).value;
    assert DeskOf(u) == FoldedFor(DeskOf(s), c) && u.work == [Take(c)] + rest && u.work[1..] == rest;
    OneMove(u, config, step);
    t := TakeStep(u, config, step).value;
    Chains(s, config, u, t);
    if Flushable(u.states, c) {
      var v := t;
      t := BatchRun(v, config, BatchOf(u.states, c, u.window), rest);
      Chains(s, config, v, t);
    }
  }

  // ----- writing out all cohorts -----

  lemma FlushOpsSplit(order: seq<Name>)
    requires order != []
    ensures FlushOps(order) == [Flush(order[0])] + FlushOps(order[1..])
  {
  }

  lemma {:induction false} FlushedFront(d: Desk, order: seq<Name>)
    requires order != []
    ensures FlushedEach(d, order) == FlushedEach(FlushedFor(d, order[0]), order[1..])
  {
    hide FlushedFor;
    var n := |order| - 1;
    if n == 0 {
      assert order[..0] == [] && order[1..] == [];
    } else {
      FlushedFront(d, order[..n]);
      assert order[..n][1..] == order[1..][..n - 1];
    }
  }

  lemma {:induction false} FlushEachRun(s: Sys, config: Config, order: seq<Name>, rest: seq<Op>) returns (t: Sys)
    requires ValidConfig(config) && Inv(s, config) && s.work == FlushOps(order) + rest && s.segment == None
    ensures Makes(s, config, t, FlushedEach(DeskOf(s), order), rest, s.next)
    decreases |order|
  {
    hide Inv, Reaches, ValidConfig, FlushedFor;
    if order == [] {
      t := s;
      Stays(s, config);
      assert FlushOps(order) + rest == rest;
    } else {
      FlushOpsSplit(order);
      assert s.work == [Flush(order[0])] + (FlushOps(order[1..]) + rest);
      var u := FlushRun(s, config, order[0], FlushOps(order[1..]) + rest);
      t := FlushEachRun(u, config, order[1..], rest);
      FlushedFront(DeskOf(s), order);
      Chains(s, config, u, t);
    }
  }

  /** Emptying all buffers, from where it is the writer's work. */
  lemma EmptyRun(s: Sys, config: Config, order: seq<Name>) returns (t: Sys)
    requires ValidConfig(config) && Inv(s, config) && s.work == [FoldAll, FlushAll] && s.segment == None
    requires Enumerates(order, FoldedWhole(DeskOf(s)).states)
    ensures Makes(s, config, t, Emptied(DeskOf(s), order), [], s.next)
  {
    hide Inv, Reaches, ValidConfig, FoldedAll, Enumerates, FlushedEach;
    assert s.work[1..] == [FlushAll];
    OneMove(s, config, Work(Nothing));
    var u := TakeStep(s, config, Work(Nothing)).value;
    assert u.work[1..] == [];
    OneMove(u, config, Work(Order(order)));
    var v := TakeStep(u, config, Work(Order(order))).value;
    Chains(s, config, u, v);
    t := FlushEachRun(v, config, order, []);
    Chains(s, config, v, t);
  }

  // ----- taking in a frame -----

  lemma MakesThen(s: Sys, config: Config, t: Sys, u: Sys, desk: Desk, desk': Desk, work: seq<Op>, work': seq<Op>,
                  next: Next, next': Next)
    requires ValidConfig(config) && Makes(s, config, t, desk, work, next) && Makes(t, config, u, desk', work', next')
    ensures Makes(s, config, u, desk', work', next')
  {
    hide Reaches, Inv, DeskOf, ValidConfig;
    Chains(s, config, t, u);
  }

  lemma ProceedElsewhere(s: Sys, config: Config, choice: Choice)
    requires ValidConfig(config) && s.work == [] && Proceed(s, config, choice).Some?
    ensures var t := Proceed(s, config, choice).value;
            t.readers == s.readers && t.channel == s.channel && t.received == s.received && t.sent == s.sent
            && t.segment == s.segment
  {
    hide ValidConfig, ReceiveWindow, Folded, Added, IsLargest, NoRecordsAtAll, Overfull, NextWindow;
  }

  /** One step of the writer that only changes its desk, its work and its place. */
  lemma MakesOne(s: Sys, config: Config, choice: Choice, t: Sys)
    requires ValidConfig(config) && Inv(s, config) && s.segment == None && s.work == []
    requires Proceed(s, config, choice) == Some(t)
    ensures Makes(s, config, t, DeskOf(t), t.work, t.next)
  {
    ProceedElsewhere(s, config, choice);
    hide Inv, Reaches, ValidConfig, Proceed;
    OneMove(s, config, Continue(choice));
  }

  lemma AdvanceRun(s: Sys, config: Config, e: Event, order: seq<Name>) returns (t: Sys)
    requires ValidConfig(config) && Inv(s, config) && s.segment == None
    requires var later := ReceiveWindow(e.receiveTime, config.windowSeconds) > s.window;
             if later then s.work == [FoldAll, FlushAll] && s.next == OpenFor(e)
               && Enumerates(order, FoldedWhole(DeskOf(s)).states)
             else s.work == [] && s.next == FoldFor(e)
    ensures Makes(s, config, t, Advanced(DeskOf(s), e, config.windowSeconds, order), [], FoldFor(e))
  {
    hide Inv, Reaches, ReceiveWindow, FoldedAll, Enumerates, FlushedEach;
    if s.work == [] {
      t := s;
      Stays(s, config);
    } else {
      var u := EmptyRun(s, config, order);
      t := Proceed(u, config, Nothing).value;
      MakesOne(u, config, Nothing, t);
      MakesThen(s, config, u, t, DeskOf(u), DeskOf(t), u.work, t.work, u.next, t.next);
    }
  }

  lemma SpillRun(s: Sys, config: Config, e: Event) returns (t: Sys)
    requires ValidConfig(config) && Inv(s, config) && s.segment == None && s.work == [] && s.next == FoldFor(e)
    ensures Makes(s, config, t, Spilled(FoldedFor(DeskOf(s), e.cohort), e, config.cap), [], LargestFor(e))
  {
    hide Inv, Reaches, Folded, FlushedFor, Overfull;
    var u := Proceed(s, config, Nothing).value;
    MakesOne(s, config, Nothing, u);
    var v := Proceed(u, config, Nothing).value;
    MakesOne(u, config, Nothing, v);
    MakesThen(s, config, u, v, DeskOf(u), DeskOf(v), u.work, v.work, u.next, v.next);
    t := v;
    if v.work != [] {
      assert v.work == [Flush(e.cohort)] + [];
      t := FlushRun(v, config, e.cohort, []);
      MakesThen(s, config, v, t, DeskOf(v), DeskOf(t), v.work, [], v.next, t.next);
    }
  }

  lemma RelieveRun(s: Sys, config: Config, e: Event, observed: nat, largest: Name) returns (t: Sys)
    requires ValidConfig(config) && Inv(s, config) && s.segment == None && s.work == [] && s.next == LargestFor(e)
    requires observed >= LiveBytes(config).value && !NoRecordsAtAll(s.states) ==> IsLargest(s.states, largest)
    ensures Makes(s, config, t, Relieved(DeskOf(s), observed, LiveBytes(config).value, largest), [], AddFor(e))
  {
    hide Inv, Reaches, FlushedFor, IsLargest, NoRecordsAtAll;
    var v := Proceed(s, config, Observed(observed, largest)).value;
    MakesOne(s, config, Observed(observed, largest), v);
    t := v;
    if v.work != [] {
      assert v.work == [Flush(largest)] + [];
      t := FlushRun(v, config, largest, []);
      MakesThen(s, config, v, t, DeskOf(v), DeskOf(t), v.work, [], v.next, t.next);
    }
  }

  /** Taking in a frame, from where the writer has taken it off the channel. */
  lemma FrameRun(s: Sys, config: Config, e: Event, picks: Picks) returns (t: Sys)
    requires ValidConfig(config) && Inv(s, config) && s.segment == None
    requires if ReceiveWindow(e.receiveTime, config.windowSeconds) > s.window
             then s.work == [FoldAll, FlushAll] && s.next == OpenFor(e) else s.work == [] && s.next == FoldFor(e)
    requires Possible(DeskOf(s), e, config.windowSeconds, config.cap, LiveBytes(config).value, picks)
    ensures Makes(s, config, t, Handled(DeskOf(s), e, config.windowSeconds, config.cap, LiveBytes(config).value, picks),
                  [],
                  Waiting)
  {
    hide Inv, Reaches, ReceiveWindow, Advanced, FoldedFor, Spilled, Relieved, IsLargest, NoRecordsAtAll, Enumerates,
         Added;
    var u := AdvanceRun(s, config, e, picks.order);
    var v := SpillRun(u, config, e);
    MakesThen(s, config, u, v, DeskOf(u), DeskOf(v), u.work, v.work, u.next, v.next);
    var w := RelieveRun(v, config, e, picks.observed, picks.largest);
    MakesThen(s, config, v, w, DeskOf(v), DeskOf(w), v.work, w.work, v.next, w.next);
    t := Proceed(w, config, Nothing).value;
    MakesOne(w, config, Nothing, t);
    MakesThen(s, config, w, t, DeskOf(w), DeskOf(t), w.work, t.work, w.next, t.next);
  }

  /** What the writer's method for a frame does to its desk is a run of the collector in which the writer
      takes that frame off the channel and no other task moves. */
  lemma HandleFrameIsRun(s: Sys, config: Config, picks: Picks) returns (t: Sys)
    requires ValidConfig(config) && Inv(s, config) && Idle(s) && s.segment == None && s.channel != []
    requires Possible(DeskOf(s), s.channel[0], config.windowSeconds, config.cap, LiveBytes(config).value, picks)
    ensures Reaches(s, config, t) && Inv(t, config) && Idle(t) && t.segment == None
    ensures DeskOf(t) == Handled(DeskOf(s), s.channel[0], config.windowSeconds, config.cap, LiveBytes(config).value,
                                 picks)
    ensures t.channel == s.channel[1..] && t.readers == s.readers && t.received == s.received && t.sent == s.sent
  {
    hide Inv, Reaches, ReceiveWindow, Handled, Possible;
    var u := TakeStep(s, config, Dequeue).value;
    OneMove(s, config, Dequeue);
    assert DeskOf(u) == DeskOf(s);
    t := FrameRun(u, config, s.channel[0], picks);
    Chains(s, config, u, t);
  }

  /** The same for closing the window. */
  lemma CloseWindowIsRun(s: Sys, config: Config, order: seq<Name>, now: Option<nat>) returns (t: Sys)
    requires ValidConfig(config) && Inv(s, config) && Idle(s) && s.segment == None
    requires Enumerates(order, FoldedWhole(DeskOf(s)).states)
    ensures Reaches(s, config, t) && Inv(t, config) && Idle(t) && t.segment == None
    ensures DeskOf(t) == Emptied(DeskOf(s), order).(window := NextWindow(s.window, config.windowSeconds, now))
    ensures t.channel == s.channel && t.readers == s.readers && t.received == s.received && t.sent == s.sent
  {
    hide Inv, Reaches, FoldedAll, Enumerates, FlushedEach;
    var u := TakeStep(s, config, CloseWindow).value;
    OneMove(s, config, CloseWindow);
    var v := EmptyRun(u, config, order);
    Chains(s, config, u, v);
    WindowKept(FoldedWhole(DeskOf(s)), order);
    t := Proceed(v, config, Clock(now)).value;
    MakesOne(v, config, Clock(now), t);
    Chains(s, config, v, t);
  }

  lemma {:induction false} WindowKept(d: Desk, order: seq<Name>)
    ensures FlushedEach(d, order).window == d.window
  {
    if order != [] { WindowKept(d, order[..|order| - 1]); }
  }
}
