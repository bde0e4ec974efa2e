/** What the collector can do: a run that takes one frame from a connection into a stored batch, and one
    that refuses it and says so in a batch. */
module Delivery {
  import opened Wrappers
  import opened Bytes
  import opened Writer
  import opened Collector
  import opened CollectorGuarantees
  import Frame
  import Memory

  lemma StepTaken(config: Config, window: nat, steps: seq<Step>, step: Step, after: Sys)
    requires ValidConfig(config)
    requires TakeStep(Run(Initial(window), config, steps), config, step) == Some(after)
    ensures Run(Initial(window), config, steps + [step]) == after
  {
    hide TakeStep, ValidConfig;
    assert (steps + [step])[..|steps|] == steps;
  }

  /** `steps` brings the collector from its start to `s`. */
  predicate Leads(config: Config, window: nat, steps: seq<Step>, s: Sys)
    requires ValidConfig(config)
  {
    Run(Initial(window), config, steps) == s
  }

  lemma AtTheStart(config: Config, window: nat)
    requires ValidConfig(config)
    ensures Leads(config, window, [], Initial(window))
  {
  }

  lemma Onward(config: Config, window: nat, steps: seq<Step>, s: Sys, step: Step, after: Sys)
    requires ValidConfig(config) && Leads(config, window, steps, s) && TakeStep(s, config, step) == Some(after)
    ensures Leads(config, window, steps + [step], after)
  {
    hide TakeStep, ValidConfig;
    StepTaken(config, window, steps, step, after);
  }

  /** A collector with one connection, before anything was buffered. */
  function Early(window: nat, reader: Reader, channel: seq<Event>, used: nat, received: seq<Event>, sent: seq<Event>,
                 next: Next): Sys {
    Sys([reader], channel, map[], used, map[], window, [], next, [], None, received, sent)
  }

  lemma Received(config: Config, window: nat, e: Event) returns (steps: seq<Step>)
    requires ValidConfig(config) && ValidEvent(e, config)
    ensures Leads(config, window, steps, Early(window, Reader.Received(e), [], 0, [e], [], Waiting))
  {
    hide ValidEvent, Leads;
    var none: seq<Event> := [];
    assert Leads(config, window, [], Initial(window)) by { AtTheStart(config, window); }
    assert [] + [Reading] == [Reading] && none + [e] == [e]
      && [Reading][0 := Reader.Received(e)] == [Reader.Received(e)];
    Onward(config, window, [], Initial(window), ByReader(Accept), Early(window, Reading, [], 0, [], [], Waiting));
    steps := [] + [ByReader(Accept)];
    Onward(config, window, steps, Early(window, Reading, [], 0, [], [], Waiting), ByReader(Receive(0, e)),
           Early(window, Reader.Received(e), [], 0, [e], [], Waiting));
    steps := steps + [ByReader(Receive(0, e))];
  }

  /** What a frame leaves in its cohort's buffer. */
  function Alone(e: Event, window: nat): CohortState { CohortState([Buffered(e, window)], |e.frame| + 8, 1) }

  /** What a refused frame leaves. */
  const REFUSED: CohortState := CohortState([], 0, 1)

  lemma ReservedAndSent(config: Config, window: nat, e: Event, before: seq<Step>) returns (steps: seq<Step>)
    requires ValidConfig(config) && ValidEvent(e, config)
    requires Leads(config, window, before, Early(window, Reader.Received(e), [], 0, [e], [], Waiting))
    ensures Leads(config, window, steps, Early(window, Reading, [e], |e.frame| + 8, [e], [e], Waiting))
  {
    var bytes := |e.frame| + 8;
    var none: seq<Event> := [];
    assert bytes <= LiveBytes(config).value;
    hide Leads, ValidEvent, ReceiveWindow;
    assert none + [e] == [e] && [Reader.Received(e)][0 := Reserved(e)] == [Reserved(e)];
    assert [Reserved(e)][0 := Reading] == [Reading];
    Onward(config, window, before, Early(window, Reader.Received(e), [], 0, [e], [], Waiting), ByReader(Reserve(0)),
           Early(window, Reserved(e), [], bytes, [e], [], Waiting));
    steps := before + [ByReader(Reserve(0))];
    Onward(config, window, steps, Early(window, Reserved(e), [], bytes, [e], [], Waiting), ByReader(Send(0)),
           Early(window, Reading, [e], bytes, [e], [e], Waiting));
    steps := steps + [ByReader(Send(0))];
  }

  /** The writer takes the frame off the channel, up to where it would make room. */
  lemma TakenIn(config: Config, window: nat, e: Event, before: seq<Step>) returns (steps: seq<Step>)
    requires ValidConfig(config) && ReceiveWindow(e.receiveTime, config.windowSeconds) <= window
    requires Leads(config, window, before, Early(window, Reading, [e], |e.frame| + 8, [e], [e], Waiting))
    ensures Leads(config, window, steps, Early(window, Reading, [], |e.frame| + 8, [e], [e], LargestFor(e)))
  {
    hide Leads, ReceiveWindow;
    var bytes := |e.frame| + 8;
    var none: Ledger := map[];
    assert [e][1..] == [] && none - {e.cohort} == none;
    Onward(config, window, before, Early(window, Reading, [e], bytes, [e], [e], Waiting), Dequeue,
           Early(window, Reading, [], bytes, [e], [e], FoldFor(e)));
    steps := before + [Dequeue];
    Onward(config, window, steps, Early(window, Reading, [], bytes, [e], [e], FoldFor(e)), Continue(Nothing),
           Early(window, Reading, [], bytes, [e], [e], SpillFor(e)));
    steps := steps + [Continue(Nothing)];
    Onward(config, window, steps, Early(window, Reading, [], bytes, [e], [e], SpillFor(e)), Continue(Nothing),
           Early(window, Reading, [], bytes, [e], [e], LargestFor(e)));
    steps := steps + [Continue(Nothing)];
  }

  /** The collector on its way to a stop, its one connection closed. */
  function Late(window: nat, reader: Reader, ledger: Ledger, used: nat, states: States, work: seq<Op>, next: Next,
                batches: seq<Batch>, segment: Option<nat>, e: Event, sent: seq<Event>): Sys {
    Sys([reader], [], ledger, used, states, window, work, next, batches, segment, [e], sent)
  }

  lemma BufferedAlone(config: Config, window: nat, e: Event, before: seq<Step>) returns (steps: seq<Step>)
    requires ValidConfig(config)
    requires Leads(config, window, before, Early(window, Reading, [], |e.frame| + 8, [e], [e], LargestFor(e)))
    ensures Leads(config, window, steps,
                  Late(window, Reading, map[], |e.frame| + 8, map[e.cohort := Alone(e, window)], [],
                                              Waiting, [], None, e, [e]))
  {
    hide Leads;
    var bytes := |e.frame| + 8;
    assert [] + [Buffered(e, window)] == [Buffered(e, window)];
    Onward(config, window, before, Early(window, Reading, [], bytes, [e], [e], LargestFor(e)),
           Continue(Observed(0, [])),
           Early(window, Reading, [], bytes, [e], [e], AddFor(e)));
    steps := before + [Continue(Observed(0, []))];
    Onward(config, window, steps, Early(window, Reading, [], bytes, [e], [e], AddFor(e)), Continue(Nothing),
           Late(window, Reading, map[], bytes, map[e.cohort := Alone(e, window)], [], Waiting, [], None, e, [e]));
    steps := steps + [Continue(Nothing)];
  }

  lemma RefusedAndRecorded(config: Config, window: nat, e: Event, before: seq<Step>) returns (steps: seq<Step>)
    requires ValidConfig(config)
    requires Leads(config, window, before, Early(window, Reader.Received(e), [], 0, [e], [], Waiting))
    ensures Leads(config, window, steps,
                  Late(window, Reading, map[e.cohort := 1], 0, map[], [], Waiting, [], None, e, []))
  {
    hide Leads;
    assert [Reader.Received(e)][0 := Reader.Refused(e)] == [Reader.Refused(e)];
    assert [Reader.Refused(e)][0 := Reading] == [Reading];
    Onward(config, window, before, Early(window, Reader.Received(e), [], 0, [e], [], Waiting), ByReader(Refuse(0)),
           Early(window, Reader.Refused(e), [], 0, [e], [], Waiting));
    steps := before + [ByReader(Refuse(0))];
    Onward(config, window, steps, Early(window, Reader.Refused(e), [], 0, [e], [], Waiting), ByReader(Record(0)),
           Late(window, Reading, map[e.cohort := 1], 0, map[], [], Waiting, [], None, e, []));
    steps := steps + [ByReader(Record(0))];
  }

  /** Stopping turns a cohort's buffer, or its drops, into flush work for it. */
  lemma Stopping(config: Config, window: nat, e: Event, ledger: Ledger, used: nat, states: States, sent: seq<Event>,
                 st: CohortState, before: seq<Step>) returns (steps: seq<Step>)
    requires ValidConfig(config) && FoldedAll(states, ledger) == map[e.cohort := st]
    requires Leads(config, window, before, Late(window, Reading, ledger, used, states, [], Waiting, [], None, e, sent))
    ensures Leads(config, window, steps, Late(window, Closed, map[], used, map[e.cohort := st], [Flush(e.cohort)], Stop,
                                              [], None, e, sent))
  {
    hide Leads, FoldedAll;
    var folded := map[e.cohort := st];
    assert [Reading][0 := Closed] == [Closed] && [FoldAll, FlushAll][1..] == [FlushAll] && [FlushAll][1..] == [];
    assert FlushOps([e.cohort]) + [] == [Flush(e.cohort)];
    Onward(config, window, before, Late(window, Reading, ledger, used, states, [], Waiting, [], None, e, sent),
           ByReader(Close(0)), Late(window, Closed, ledger, used, states, [], Waiting, [], None, e, sent));
    steps := before + [ByReader(Close(0))];
    Onward(config, window, steps, Late(window, Closed, ledger, used, states, [], Waiting, [], None, e, sent), Finish,
           Late(window, Closed, ledger, used, states, [FoldAll, FlushAll], Stop, [], None, e, sent));
    steps := steps + [Finish];
    Onward(config, window, steps,
           Late(window, Closed, ledger, used, states, [FoldAll, FlushAll], Stop, [], None, e, sent),
           Work(Nothing), Late(window, Closed, map[], used, folded, [FlushAll], Stop, [], None, e, sent));
    steps := steps + [Work(Nothing)];
    Onward(config, window, steps, Late(window, Closed, map[], used, folded, [FlushAll], Stop, [], None, e, sent),
           Work(Order([e.cohort])),
             Late(window, Closed, map[], used, folded, [Flush(e.cohort)], Stop, [], None, e, sent));
    steps := steps + [Work(Order([e.cohort]))];
  }

  /** The batch is taken and written, and its first guard is next. */
  lemma Writing(config: Config, window: nat, e: Event, used: nat, sent: seq<Event>, st: CohortState, before: seq<Step>)
    returns (steps: seq<Step>)
    requires ValidConfig(config) && st.received > 0
    requires Serializable(Batch(window, e.cohort, st.records, st.bytes, st.received))
    requires Leads(config, window, before,
                   Late(window, Closed, map[], used, map[e.cohort := st], [Flush(e.cohort)], Stop,
                                                [], None, e, sent))
    ensures var b := Batch(window, e.cohort, st.records, st.bytes, st.received);
            Leads(config, window, steps,
                  Late(window, Closed, map[], used, map[], [Discard(st.records), Store], Stop, [b],
                                              Some(SegmentLen(b)), e, sent))
  {
    hide Leads, Serializable, SegmentLen;
    var states, none, b := map[e.cohort := st], map[], Batch(window, e.cohort, st.records, st.bytes, st.received);
    assert states - {e.cohort} == none && [Flush(e.cohort)][1..] == [] && [Take(e.cohort)] + [] == [Take(e.cohort)];
    assert [Take(e.cohort)][1..] == [] && [Serialize(b)] + [] == [Serialize(b)] && [Serialize(b)][1..] == [];
    assert [] + [b] == [b] && [Discard(st.records), Store] + [] == [Discard(st.records), Store];
    var noDrops: Ledger := map[];
    assert noDrops - {e.cohort} == noDrops;
    Onward(config, window, before,
           Late(window, Closed, noDrops, used, states, [Flush(e.cohort)], Stop, [], None, e, sent),
           Work(Nothing), Late(window, Closed, noDrops, used, states, [Take(e.cohort)], Stop, [], None, e, sent));
    steps := before + [Work(Nothing)];
    Onward(config, window, steps,
           Late(window, Closed, noDrops, used, states, [Take(e.cohort)], Stop, [], None, e, sent),
           Work(Nothing), Late(window, Closed, noDrops, used, none, [Serialize(b)], Stop, [b], None, e, sent));
    steps := steps + [Work(Nothing)];
    Onward(config, window, steps, Late(window, Closed, noDrops, used, none, [Serialize(b)], Stop, [b], None, e, sent),
           Work(Nothing), Late(window, Closed, noDrops, used, none, [Discard(st.records), Store], Stop, [b],
                               Some(SegmentLen(b)), e, sent));
    steps := steps + [Work(Nothing)];
  }

  /** The collector has stopped, with this one batch stored and no memory reserved. */
  function Stopped(window: nat, e: Event, b: Batch, sent: seq<Event>): Sys {
    Late(window, Closed, map[], 0, map[], [], Stop, [b], None, e, sent)
  }

  lemma Stored(config: Config, window: nat, e: Event, b: Batch, sent: seq<Event>, before: seq<Step>)
    returns (steps: seq<Step>)
    requires ValidConfig(config)
    requires Leads(config, window, before, Late(window, Closed, map[], 0, map[], [Discard([]), Store], Stop, [b],
                                                Some(SegmentLen(b)), e, sent))
    ensures Leads(config, window, steps, Stopped(window, e, b, sent))
  {
    hide Leads, SegmentLen;
    assert [Discard([]), Store][1..] == [Store] && [Store][1..] == [];
    Onward(config, window, before, Late(window, Closed, map[], 0, map[], [Discard([]), Store], Stop, [b],
                                        Some(SegmentLen(b)), e, sent),
           Work(Nothing), Late(window, Closed, map[], 0, map[], [Store], Stop, [b], Some(SegmentLen(b)), e, sent));
    steps := before + [Work(Nothing)];
    Onward(config, window, steps,
           Late(window, Closed, map[], 0, map[], [Store], Stop, [b], Some(SegmentLen(b)), e, sent),
           Work(Nothing), Stopped(window, e, b, sent));
    steps := steps + [Work(Nothing)];
  }

  lemma GivenBack(config: Config, window: nat, e: Event, b: Batch, sent: seq<Event>, before: seq<Step>)
    returns (steps: seq<Step>)
    requires ValidConfig(config) && b.records == [Buffered(e, window)]
    requires Leads(config, window, before,
                   Late(window, Closed, map[], |e.frame| + 8, map[], [Discard(b.records), Store],
                                                Stop, [b], Some(SegmentLen(b)), e, sent))
    ensures Leads(config, window, steps, Late(window, Closed, map[], 0, map[], [Discard([]), Store], Stop, [b],
                                              Some(SegmentLen(b)), e, sent))
  {
    hide Leads, SegmentLen;
    assert [Discard(b.records), Store][1..] == [Store] && b.records[1..] == [];
    assert [Discard([])] + [Store] == [Discard([]), Store];
    Onward(config, window, before,
           Late(window, Closed, map[], |e.frame| + 8, map[], [Discard(b.records), Store], Stop, [b],
                                        Some(SegmentLen(b)), e, sent),
           Work(Nothing), Late(window, Closed, map[], 0, map[], [Discard([]), Store], Stop, [b], Some(SegmentLen(b)), e,
                               sent));
    steps := before + [Work(Nothing)];
  }

  lemma FoldedAlready(states: States)
    ensures FoldedAll(states, map[]) == states
  {
  }

  lemma FoldedRefusal(c: Name)
    ensures FoldedAll(map[], map[c := 1]) == map[c := REFUSED]
  {
  }

  lemma Writable(e: Event, window: nat, config: Config)
    requires ValidConfig(config) && ValidEvent(e, config)
    ensures Serializable(Batch(window, e.cohort, [Buffered(e, window)], |e.frame| + 8, 1))
    ensures Serializable(Batch(window, e.cohort, [], 0, 1))
  {
    Frame.ValidNamesAreText(e.cohort);
    hide Frame.ParseFrame;
  }

  /** Whatever valid frame a connection brings: the collector can take it all the way into a batch of its
      window that holds just this frame, and then has no memory reserved; and it can refuse it, and then
      stores a batch without records that counts it. */
  lemma FramesReachBatches(config: Config, window: nat, e: Event) returns (kept: seq<Step>, refused: seq<Step>)
    requires ValidConfig(config) && ValidEvent(e, config)
    requires ReceiveWindow(e.receiveTime, config.windowSeconds) <= window
    ensures Run(Initial(window), config, kept)
         == Stopped(window, e, Batch(window, e.cohort, [Buffered(e, window)], |e.frame| + 8, 1), [e])
    ensures Run(Initial(window), config, refused) == Stopped(window, e, Batch(window, e.cohort, [], 0, 1), [])
    ensures Finished(Run(Initial(window), config, kept)) && Finished(Run(Initial(window), config, refused))
  {
    hide Run, ValidConfig, ValidEvent, ReceiveWindow, FoldedAll, Serializable;
    var c, full, empty := e.cohort, Batch(window, e.cohort, [Buffered(e, window)], |e.frame| + 8, 1),
      Batch(window, e.cohort, [], 0, 1);
    Writable(e, window, config);
    var received := Received(config, window, e);
    kept := ReservedAndSent(config, window, e, received);
    kept := TakenIn(config, window, e, kept);
    kept := BufferedAlone(config, window, e, kept);
    FoldedAlready(map[c := Alone(e, window)]);
    kept := Stopping(config, window, e, map[], |e.frame| + 8, map[c := Alone(e, window)], [e], Alone(e, window), kept);
    kept := Writing(config, window, e, |e.frame| + 8, [e], Alone(e, window), kept);
    kept := GivenBack(config, window, e, full, [e], kept);
    kept := Stored(config, window, e, full, [e], kept);
    refused := RefusedAndRecorded(config, window, e, received);
    FoldedRefusal(c);
    refused := Stopping(config, window, e, map[c := 1], 0, map[], [], REFUSED, refused);
    refused := Writing(config, window, e, 0, [], REFUSED, refused);
    refused := Stored(config, window, e, empty, [], refused);
  }
}
