/** When the clock does not run backwards, no record is labelled with a window after its own either. */
module Labels {
  import opened Wrappers
  import opened Bytes
  import opened Writer
  import opened Collector
  import opened CollectorLaws
  import opened CollectorGuarantees
  import Accounting
  import Memory
  import Timestamp

  // ----- the clock as the writer meets it -----

  /** The start of the window that contains an instant. */
  function Start(seconds: nat, config: Config): (w: nat)
    requires ValidConfig(config)
    ensures w <= seconds < w + config.windowSeconds && w % config.windowSeconds == 0
  {
    Timestamp.AlignmentIsFloor(seconds, config.windowSeconds);
    Timestamp.AlignedWindowStart(seconds, config.windowSeconds).value
  }

  function Seconds(e: Event): nat { e.receiveTime / MICROS_PER_SECOND }

  lemma LaterStart(a: nat, b: nat, config: Config)
    requires ValidConfig(config) && a <= b
    ensures Start(a, config) <= Start(b, config)
  {
    var x, y := Start(a, config), Start(b, config);
    hide ValidConfig, Start;
    if y < x { Accounting.AlignedGap(y, x, config.windowSeconds); }
  }

  /** The writer starts in the window its first clock reading is in. */
  function Begin(start: nat, config: Config): Sys
    requires ValidConfig(config)
  {
    Initial(Start(start, config))
  }

  /** The frames the writer has taken off the channel, in order. */
  function TakenOff(config: Config, start: nat, steps: seq<Step>): seq<Event>
    requires ValidConfig(config)
  {
    if steps == [] then []
    else
      var rest, last := steps[..|steps| - 1], steps[|steps| - 1];
      var s := Run(Begin(start, config), config, rest);
      TakenOff(config, start, rest)
      + (if last.Dequeue? && TakeStep(s, config, last).Some? then [s.channel[0]] else [])
  }

  /** The latest instant the writer knows to have passed: its last clock reading, or the end of the window
      it closed when the clock could not be read. */
  function Told(config: Config, start: nat, steps: seq<Step>): nat
    requires ValidConfig(config)
  {
    if steps == [] then start
    else
      var rest, last := steps[..|steps| - 1], steps[|steps| - 1];
      var s := Run(Begin(start, config), config, rest);
      if last.Continue? && s.next.OpenNow? && TakeStep(s, config, last).Some? then
        (if last.choice.now.Some? then last.choice.now.value else s.window + config.windowSeconds)
      else Told(config, start, rest)
  }

  /** Every frame the writer takes was received no earlier than the frames it took before, and no earlier
      than what the clock had told it by then. */
  predicate Timely(config: Config, start: nat, steps: seq<Step>)
    requires ValidConfig(config)
  {
    steps == []
    || (var rest, last := steps[..|steps| - 1], steps[|steps| - 1];
        var s, before := Run(Begin(start, config), config, rest), TakenOff(config, start, rest);
        && Timely(config, start, rest)
        && (last.Dequeue? && TakeStep(s, config, last).Some? ==>
             Seconds(s.channel[0]) >= Told(config, start, rest)
             && (before == [] || before[|before| - 1].receiveTime <= s.channel[0].receiveTime)))
  }

  // ----- what that keeps -----

  predicate Prompt(records: seq<Buffered>, windowSeconds: nat)
    requires windowSeconds > 0
  {
    forall i :: 0 <= i < |records| ==> ReceiveWindow(records[i].event.receiveTime, windowSeconds) == records[i].window
  }

  predicate PromptStates(states: States, windowSeconds: nat)
    requires windowSeconds > 0
  {
    forall c :: c in states ==> Prompt(states[c].records, windowSeconds)
  }

  predicate PromptBatches(batches: seq<Batch>, windowSeconds: nat)
    requires windowSeconds > 0
  {
    forall i :: 0 <= i < |batches| ==> Prompt(batches[i].records, windowSeconds)
  }

  /** The window is one that the clock or the last frame taken has reached. */
  predicate Reached(window: nat, told: nat, taken: seq<Event>, config: Config)
    requires ValidConfig(config)
  {
    || window <= Start(told, config)
    || (taken != [] && window <= ReceiveWindow(taken[|taken| - 1].receiveTime, config.windowSeconds))
  }

  predicate LastTaken(taken: seq<Event>, e: Event) { taken != [] && taken[|taken| - 1] == e }

  predicate OnTime(s: Sys, told: nat, taken: seq<Event>, config: Config)
    requires ValidConfig(config)
  {
    && s.window % config.windowSeconds == 0
    && PromptStates(s.states, config.windowSeconds) && PromptBatches(s.batches, config.windowSeconds)
    && match s.next
       case OpenFor(e) => LastTaken(taken, e)
       case FoldFor(e) => LastTaken(taken, e) && ReceiveWindow(e.receiveTime, config.windowSeconds) == s.window
       case SpillFor(e) => LastTaken(taken, e) && ReceiveWindow(e.receiveTime, config.windowSeconds) == s.window
       case LargestFor(e) => LastTaken(taken, e) && ReceiveWindow(e.receiveTime, config.windowSeconds) == s.window
       case AddFor(e) => LastTaken(taken, e) && ReceiveWindow(e.receiveTime, config.windowSeconds) == s.window
       case _ => Reached(s.window, told, taken, config)
  }

  lemma ReceivedIn(e: Event, config: Config)
    requires ValidConfig(config)
    ensures ReceiveWindow(e.receiveTime, config.windowSeconds) == Start(Seconds(e), config)
  {
  }

  lemma FoldPrompt(states: States, c: Name, drops: nat, windowSeconds: nat)
    requires windowSeconds > 0 && PromptStates(states, windowSeconds)
    ensures PromptStates(Folded(states, c, drops), windowSeconds)
  {
    hide ReceiveWindow;
  }

  lemma FoldAllPrompt(states: States, ledger: Ledger, windowSeconds: nat)
    requires windowSeconds > 0 && PromptStates(states, windowSeconds)
    ensures PromptStates(FoldedAll(states, ledger), windowSeconds)
  {
    hide ReceiveWindow;
  }

  lemma AddPrompt(states: States, e: Event, window: nat, windowSeconds: nat)
    requires windowSeconds > 0 && PromptStates(states, windowSeconds)
    requires ReceiveWindow(e.receiveTime, windowSeconds) == window
    ensures PromptStates(Added(states, e, window), windowSeconds)
  {
    hide ReceiveWindow;
  }

  lemma WorkOnTime(s: Sys, config: Config, choice: Choice, told: nat, taken: seq<Event>)
    requires ValidConfig(config) && OnTime(s, told, taken, config) && s.work != [] && DoWork(s, choice).Some?
    ensures OnTime(DoWork(s, choice).value, told, taken, config)
  {
    hide Prompt, Folded, FoldedAll, Serializable, ReceiveWindow, Start, LastTaken;
    match s.work[0] {
      case FoldAll => FoldAllPrompt(s.states, s.ledger, config.windowSeconds);
      case Flush(c) => FoldPrompt(s.states, c, Drops(s.ledger, c), config.windowSeconds);
      case _ =>
    }
  }

  lemma NextAligned(window: nat, config: Config, now: Option<nat>)
    requires ValidConfig(config) && window % config.windowSeconds == 0
    ensures var next := NextWindow(window, config.windowSeconds, now);
            && next % config.windowSeconds == 0
            && next == Start(if now.Some? then now.value else window + config.windowSeconds, config)
  {
    NextWindowContains(window, config.windowSeconds, now);
    if now.None? { AlignedIsStart(window + config.windowSeconds, config); }
  }

  lemma AlignedIsStart(t: nat, config: Config)
    requires ValidConfig(config) && t % config.windowSeconds == 0
    ensures Start(t, config) == t
  {
    var w, n := Start(t, config), config.windowSeconds;
    hide ValidConfig, Start;
    assert t == n * (t / n) && w == n * (w / n);
    Timestamp.DistanceOfMultiples(n, t / n - w / n);
    assert n * (t / n - w / n) == t - w;
  }

  lemma ProceedOnTime(s: Sys, config: Config, choice: Choice, told: nat, taken: seq<Event>, told': nat)
    requires ValidConfig(config) && OnTime(s, told, taken, config) && s.work == [] && Proceed(s, config, choice).Some?
    requires told' == if !s.next.OpenNow? then told
                      else if choice.now.Some? then choice.now.value else s.window + config.windowSeconds
    ensures OnTime(Proceed(s, config, choice).value, told', taken, config)
  {
    hide Prompt, Folded, Added, Start, IsLargest, NoRecordsAtAll, Overfull, NextWindow;
    match s.next {
      case OpenNow => NextAligned(s.window, config, choice.now);
      case FoldFor(e) => FoldPrompt(s.states, e.cohort, Drops(s.ledger, e.cohort), config.windowSeconds);
      case AddFor(e) => AddPrompt(s.states, e, s.window, config.windowSeconds);
      case _ =>
    }
  }

  lemma DequeueOnTime(s: Sys, config: Config, told: nat, taken: seq<Event>)
    requires ValidConfig(config) && OnTime(s, told, taken, config) && TakeStep(s, config, Dequeue).Some?
    requires Seconds(s.channel[0]) >= told
    requires taken == [] || taken[|taken| - 1].receiveTime <= s.channel[0].receiveTime
    ensures OnTime(TakeStep(s, config, Dequeue).value, told, taken + [s.channel[0]], config)
  {
    var e := s.channel[0];
    ReceivedIn(e, config);
    LaterStart(told, Seconds(e), config);
    if taken != [] {
      ReceivedIn(taken[|taken| - 1], config);
      LaterStart(Seconds(taken[|taken| - 1]), Seconds(e), config);
    }
    hide Prompt, PromptStates, PromptBatches, ReceiveWindow, Start, ValidConfig;
    assert ReceiveWindow(e.receiveTime, config.windowSeconds) >= s.window;
  }

  lemma OtherOnTime(s: Sys, config: Config, step: Step, told: nat, taken: seq<Event>)
    requires ValidConfig(config) && OnTime(s, told, taken, config) && TakeStep(s, config, step).Some?
    requires step.ByReader? || step.CloseWindow? || step.Finish?
    ensures OnTime(TakeStep(s, config, step).value, told, taken, config)
  {
    hide Prompt, PromptStates, PromptBatches, ReceiveWindow, Start, ValidConfig, ValidEvent, Memory.Raised,
         Memory.Lowered;
  }

  lemma {:induction false} RunOnTime(config: Config, start: nat, steps: seq<Step>)
    requires ValidConfig(config) && Timely(config, start, steps)
    ensures OnTime(Run(Begin(start, config), config, steps), Told(config, start, steps), TakenOff(config, start, steps),
                   config)
  {
    hide OnTime, TakeStep, ValidConfig, Seconds;
    if steps == [] {
      BeginsOnTime(start, config);
    } else {
      var rest, last := steps[..|steps| - 1], steps[|steps| - 1];
      RunOnTime(config, start, rest);
      assert TakenOff(config, start, rest) + [] == TakenOff(config, start, rest);
      var s := Run(Begin(start, config), config, rest);
      if TakeStep(s, config, last).Some? {
        StepOnTime(s, config, last, Told(config, start, rest), TakenOff(config, start, rest),
                   Told(config, start, steps), TakenOff(config, start, steps));
      }
    }
  }

  lemma BeginsOnTime(start: nat, config: Config)
    requires ValidConfig(config)
    ensures OnTime(Begin(start, config), start, [], config)
  {
    hide Start, ReceiveWindow;
  }

  lemma StepOnTime(s: Sys, config: Config, step: Step, told: nat, taken: seq<Event>, told': nat, taken': seq<Event>)
    requires ValidConfig(config) && OnTime(s, told, taken, config) && TakeStep(s, config, step).Some?
    requires taken' == taken + (if step.Dequeue? then [s.channel[0]] else [])
    requires told' == if !(step.Continue? && s.next.OpenNow?) then told
                      else if step.choice.now.Some? then step.choice.now.value else s.window + config.windowSeconds
    requires step.Dequeue? ==>
      (Seconds(s.channel[0]) >= told && (taken == [] || taken[|taken| - 1].receiveTime <= s.channel[0].receiveTime))
    ensures OnTime(TakeStep(s, config, step).value, told', taken', config)
  {
    hide OnTime, NextReader, DoWork, Proceed, ValidConfig, ReceiveWindow, Seconds;
    assert taken + [] == taken;
    match step {
      case Work(choice) => WorkOnTime(s, config, choice, told, taken);
      case Continue(choice) => ProceedOnTime(s, config, choice, told, taken, told');
      case Dequeue => DequeueOnTime(s, config, told, taken);
      case _ => OtherOnTime(s, config, step, told, taken);
    }
  }

  /** So when frames are taken in the order they were received, and none was received before a moment the
      clock had already shown, every record is labelled with exactly the window it was received in. */
  lemma LabelsAreNotLate(config: Config, start: nat, steps: seq<Step>)
    requires ValidConfig(config) && Timely(config, start, steps)
    ensures var s := Run(Begin(start, config), config, steps);
            forall i, k :: 0 <= i < |s.batches| && 0 <= k < |s.batches[i].records| ==>
              ReceiveWindow(s.batches[i].records[k].event.receiveTime, config.windowSeconds) == s.batches[i].window
  {
    RunOnTime(config, start, steps);
    LabelsAreNeverEarly(config, Start(start, config), steps);
    hide Run, Timely, ReceiveWindow, ValidConfig, Start;
    var s := Run(Begin(start, config), config, steps);
    forall i | 0 <= i < |s.batches| ensures Prompt(s.batches[i].records, config.windowSeconds) {}
  }
}
