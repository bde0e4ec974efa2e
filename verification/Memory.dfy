/** The memory tracker: threads reserving and releasing bytes with compare-and-swap loops over one
    relaxed atomic. The atomic is its modification order; a relaxed load may return any entry the
    loading thread is not already past. */
module Memory {
  import opened Wrappers

  /** A live reservation, and the entry of the modification order that made it. Whoever holds the
      guard got it, directly or through the channel, from the thread that wrote that entry. */
  datatype Guard = Guard(bytes: nat, since: nat)

  /** Where a thread is. `current` is the local variable of the loop. */
  datatype Thread =
    | Idle
    | Reserving(bytes: nat, current: nat)
    | Releasing(guard: nat, current: nat, releaseBytes: nat)

  datatype State = State(order: seq<nat>, guards: map<nat, Guard>, threads: map<nat, Thread>, nextGuard: nat,
                         refused: nat)

  datatype Step =
    | StartReserve(thread: nat, bytes: nat, entry: nat)
    | Refuse(thread: nat)
    | Reserve(thread: nat)
    | StartRelease(thread: nat, guard: nat, entry: nat)
    | Release(thread: nat)
    | FailedSwap(thread: nat, entry: nat)

  function Initial(): State { State([0], map[], map[], 0, 0) }

  function ThreadOf(s: State, t: nat): Thread { if t in s.threads then s.threads[t] else Idle }

  function Last(order: seq<nat>): nat
    requires order != []
  {
    order[|order| - 1]
  }

  /** Whether some thread is already releasing the guard. */
  predicate BeingReleased(s: State, g: nat) {
    exists t :: t in s.threads && s.threads[t].Releasing? && s.threads[t].guard == g
  }

  /** The amount the release loop subtracts: clamped, should it ever exceed what is there. */
  function Clamped(releaseBytes: nat, current: nat): (r: nat)
    ensures r <= current
  {
    if releaseBytes > current then current else releaseBytes
  }

  /** One atomic step, under the limit all reservations share; `None` where it is not possible. */
  function Next(s: State, limit: nat, step: Step): Option<State>
    requires s.order != []
  {
    match step
    case StartReserve(t, bytes, entry) =>
      if ThreadOf(s, t).Idle? && entry < |s.order| then
        Some(s.(threads := s.threads[t := Reserving(bytes, s.order[entry])]))
      else None
    case Refuse(t) =>
      var th := ThreadOf(s, t);
      if th.Reserving? && th.current + th.bytes > limit then
        Some(s.(threads := s.threads[t := Idle], refused := s.refused + 1))
      else None
    case Reserve(t) =>
      var th := ThreadOf(s, t);
      if th.Reserving? && th.current + th.bytes <= limit && Last(s.order) == th.current then
        Some(State(s.order + [th.current + th.bytes], s.guards[s.nextGuard := Guard(th.bytes, |s.order|)],
                   s.threads[t := Idle], s.nextGuard + 1, s.refused))
      else None
    case StartRelease(t, g, entry) =>
      if ThreadOf(s, t).Idle? && g in s.guards && !BeingReleased(s, g) && s.guards[g].since <= entry < |s.order| then
        Some(s.(threads := s.threads[t := Releasing(g, s.order[entry], s.guards[g].bytes)]))
      else None
    case Release(t) =>
      var th := ThreadOf(s, t);
      if th.Releasing? && Last(s.order) == th.current then
        Some(s.(order := s.order + [th.current - Clamped(th.releaseBytes, th.current)],
                guards := s.guards - {th.guard}, threads := s.threads[t := Idle]))
      else None
    case FailedSwap(t, entry) =>
      match ThreadOf(s, t)
      case Idle => None
      case Reserving(bytes, current) =>
        if current + bytes <= limit && entry < |s.order| then
          Some(s.(threads := s.threads[t := Reserving(bytes, s.order[entry])]))
        else None
      case Releasing(g, current, releaseBytes) =>
        if g in s.guards && s.guards[g].since <= entry < |s.order| then
          Some(s.(threads := s.threads[t := Releasing(g, s.order[entry], Clamped(releaseBytes, current))]))
        else None
  }

  // ----- the invariant -----

  /** The bytes of a set of guards. */
  ghost function Total(guards: map<nat, Guard>): nat {
    if guards == map[] then 0
    else
      var g :| g in guards;
      guards[g].bytes + Total(guards - {g})
  }

  lemma {:induction false} TotalWithout(guards: map<nat, Guard>, g: nat)
    requires g in guards
    ensures Total(guards) == guards[g].bytes + Total(guards - {g})
    decreases |guards|
  {
    var h :| h in guards && Total(guards) == guards[h].bytes + Total(guards - {h});
    if h != g {
      TotalWithout(guards - {h}, g);
      TotalWithout(guards - {g}, h);
      assert guards - {h} - {g} == guards - {g} - {h};
    }
  }

  lemma TotalWith(guards: map<nat, Guard>, g: nat, guard: Guard)
    requires g !in guards
    ensures Total(guards[g := guard]) == guard.bytes + Total(guards)
  {
    TotalWithout(guards[g := guard], g);
    assert guards[g := guard] - {g} == guards;
  }

  predicate Covered(order: seq<nat>, guard: Guard) {
    guard.since < |order| && forall k :: guard.since <= k < |order| ==> order[k] >= guard.bytes
  }

  /** A thread that is releasing has a live guard, all of its bytes left to release, and has only
      seen values that contain them. */
  predicate ThreadSane(s: State, t: nat)
    requires t in s.threads
  {
    var th := s.threads[t];
    th.Releasing? ==>
      (th.guard in s.guards && th.releaseBytes == s.guards[th.guard].bytes <= th.current)
  }

  ghost predicate Inv(s: State, limit: nat) {
    && s.order != [] && Last(s.order) == Total(s.guards)
    && (forall k :: 0 <= k < |s.order| ==> s.order[k] <= limit)
    && (forall g :: g in s.guards ==> g < s.nextGuard && Covered(s.order, s.guards[g]))
    && (forall t :: t in s.threads ==> ThreadSane(s, t))
    && (forall t, u ::
         (t in s.threads && u in s.threads && s.threads[t].Releasing? && s.threads[u].Releasing?
          && s.threads[t].guard == s.threads[u].guard) ==> t == u)
  }

  lemma InitialInv(limit: nat)
    ensures Inv(Initial(), limit)
  {
  }

  lemma CoveredGrows(order: seq<nat>, value: nat, guard: Guard)
    requires Covered(order, guard) && value >= guard.bytes
    ensures Covered(order + [value], guard)
  {
  }

  lemma ReserveKeeps(s: State, limit: nat, t: nat)
    requires Inv(s, limit) && Next(s, limit, Reserve(t)).Some?
    ensures Inv(Next(s, limit, Reserve(t)).value, limit)
  {
    var th, s' := ThreadOf(s, t), Next(s, limit, Reserve(t)).value;
    var value := th.current + th.bytes;
    TotalWith(s.guards, s.nextGuard, Guard(th.bytes, |s.order|));
    forall g | g in s'.guards ensures g < s'.nextGuard && Covered(s'.order, s'.guards[g]) {
      if g in s.guards {
        TotalWithout(s.guards, g);
        CoveredGrows(s.order, value, s.guards[g]);
      }
    }
    hide Covered, Total;
  }

  lemma ReleaseKeeps(s: State, limit: nat, t: nat)
    requires Inv(s, limit) && Next(s, limit, Release(t)).Some?
    ensures Inv(Next(s, limit, Release(t)).value, limit)
  {
    var th, s' := ThreadOf(s, t), Next(s, limit, Release(t)).value;
    assert ThreadSane(s, t);
    TotalWithout(s.guards, th.guard);
    var value := th.current - th.releaseBytes;
    forall g | g in s'.guards ensures g < s'.nextGuard && Covered(s'.order, s'.guards[g]) {
      TotalWithout(s'.guards, g);
      CoveredGrows(s.order, value, s.guards[g]);
    }
    hide Covered, Total;
    forall u | u in s'.threads ensures ThreadSane(s', u) {
      if u != t { assert ThreadSane(s, u); }
    }
  }

  /** Every step keeps the invariant; in particular the clamp changes nothing. */
  lemma StepKeeps(s: State, limit: nat, step: Step)
    requires Inv(s, limit) && Next(s, limit, step).Some?
    ensures Inv(Next(s, limit, step).value, limit)
  {
    match step
    case Reserve(t) => ReserveKeeps(s, limit, t);
    case Release(t) => ReleaseKeeps(s, limit, t);
    case StartRelease(t, g, entry) =>
      hide Total;
      assert Covered(s.order, s.guards[g]);
    case FailedSwap(t, entry) =>
      hide Total;
      if ThreadOf(s, t).Releasing? {
        assert ThreadSane(s, t);
        assert Covered(s.order, s.guards[ThreadOf(s, t).guard]);
      }
    case _ =>
      hide Total, Covered;
  }

  // ----- every run -----

  /** Steps that are not possible leave the state alone. */
  function Run(s: State, limit: nat, steps: seq<Step>): (s': State)
    requires s.order != []
    ensures s'.order != []
  {
    if steps == [] then s
    else
      var before := Run(s, limit, steps[..|steps| - 1]);
      match Next(before, limit, steps[|steps| - 1])
      case None => before
      case Some(after) => after
  }

  lemma {:induction false} RunInv(limit: nat, steps: seq<Step>)
    ensures Inv(Run(Initial(), limit, steps), limit)
  {
    hide Inv, Next;
    if steps == [] {
      InitialInv(limit);
    } else {
      RunInv(limit, steps[..|steps| - 1]);
      var before := Run(Initial(), limit, steps[..|steps| - 1]);
      if Next(before, limit, steps[|steps| - 1]).Some? { StepKeeps(before, limit, steps[|steps| - 1]); }
    }
  }

  /** Under every interleaving the counter is exactly the bytes of the live guards, never above the
      limit, and no release ever has more to give back than it finds. */
  lemma UsedIsLiveGuards(limit: nat, steps: seq<Step>)
    ensures var s := Run(Initial(), limit, steps);
            && Last(s.order) == Total(s.guards) <= limit
            && (forall k :: 0 <= k < |s.order| ==> s.order[k] <= limit)
            && (forall t :: t in s.threads && s.threads[t].Releasing? ==>
                 Clamped(s.threads[t].releaseBytes, s.threads[t].current) == s.threads[t].releaseBytes)
  {
    RunInv(limit, steps);
    hide Run, Total;
    var s := Run(Initial(), limit, steps);
    forall t | t in s.threads && s.threads[t].Releasing?
      ensures Clamped(s.threads[t].releaseBytes, s.threads[t].current) == s.threads[t].releaseBytes
    {
      assert ThreadSane(s, t);
    }
  }

  // ----- refinement of an atomic counter -----

  /** A reservation in one piece. */
  function Raised(used: nat, bytes: nat, limit: nat): Option<nat> {
    if used + bytes <= limit then Some(used + bytes) else None
  }

  /** A release in one piece, of no more than what is reserved. */
  function Lowered(used: nat, bytes: nat): Option<nat> {
    if bytes <= used then Some(used - bytes) else None
  }

  datatype CounterStep = Raise(bytes: nat) | Lower(bytes: nat)

  /** The counter after reservations and releases in one piece each, all of them possible. */
  function Counter(limit: nat, steps: seq<CounterStep>): Option<nat> {
    if steps == [] then Some(0)
    else match Counter(limit, steps[..|steps| - 1])
      case None => None
      case Some(used) =>
        match steps[|steps| - 1]
        case Raise(bytes) => Raised(used, bytes, limit)
        case Lower(bytes) => Lowered(used, bytes)
  }

  lemma CounterMore(limit: nat, steps: seq<CounterStep>, step: CounterStep)
    requires Counter(limit, steps).Some?
    ensures Counter(limit, steps + [step])
         == match step
            case Raise(bytes) => Raised(Counter(limit, steps).value, bytes, limit)
            case Lower(bytes) => Lowered(Counter(limit, steps).value, bytes)
  {
    assert (steps + [step])[..|steps|] == steps;
  }

  /** What one step does to the counter and to the guards: one reservation of exactly the bytes asked
      for, one release of exactly the bytes held, or nothing. */
  lemma StepIsAtomic(s: State, limit: nat, step: Step)
    requires Inv(s, limit) && Next(s, limit, step).Some?
    ensures var s' := Next(s, limit, step).value;
            match step
            case Reserve(t) =>
              s.nextGuard !in s.guards
              && s'.guards == s.guards[s.nextGuard := Guard(ThreadOf(s, t).bytes, |s.order|)]
              && Raised(Last(s.order), ThreadOf(s, t).bytes, limit) == Some(Last(s'.order))
            case Release(t) =>
              ThreadOf(s, t).guard in s.guards
              && s'.guards == s.guards - {ThreadOf(s, t).guard}
              && Lowered(Last(s.order), s.guards[ThreadOf(s, t).guard].bytes) == Some(Last(s'.order))
            case _ => s'.order == s.order && s'.guards == s.guards
  {
    hide Covered;
    if step.Release? {
      assert ThreadSane(s, step.thread);
      TotalWithout(s.guards, ThreadOf(s, step.thread).guard);
    }
    hide Total;
  }

  /** What a step of the loops is to the counter, if it completes a reservation or a release. */
  function EffectOf(s: State, step: Step): seq<CounterStep> {
    match step
    case Reserve(t) => [Raise(match ThreadOf(s, t) case Reserving(bytes, _) => bytes case _ => 0)]
    case Release(t) =>
      [Lower(match ThreadOf(s, t) case Releasing(g, _, _) => (if g in s.guards then s.guards[g].bytes else 0)
             case _ => 0)]
    case _ => []
  }

  lemma StepEffect(s: State, limit: nat, step: Step)
    requires Inv(s, limit) && Next(s, limit, step).Some?
    ensures var effect, after := EffectOf(s, step), Last(Next(s, limit, step).value.order);
            if effect == [] then after == Last(s.order)
            else |effect| == 1
                 && Some(after) == match effect[0]
                                   case Raise(bytes) => Raised(Last(s.order), bytes, limit)
                                   case Lower(bytes) => Lowered(Last(s.order), bytes)
  {
    StepIsAtomic(s, limit, step);
    hide Total, Covered, Raised, Lowered;
    if step.Release? { assert ThreadSane(s, step.thread); }
  }

  /** The completed reservations and releases of a run, in order. */
  function Effects(limit: nat, steps: seq<Step>): seq<CounterStep> {
    if steps == [] then []
    else
      var before, last := Run(Initial(), limit, steps[..|steps| - 1]), steps[|steps| - 1];
      Effects(limit, steps[..|steps| - 1]) + (if Next(before, limit, last).Some? then EffectOf(before, last) else [])
  }

  /** Every run of the loops is a run of the counter that reserves and releases in one piece: its value
      is what the completed reservations and releases, taken one at a time, add up to. */
  lemma {:induction false} LoopsImplementCounter(limit: nat, steps: seq<Step>)
    ensures Counter(limit, Effects(limit, steps)) == Some(Last(Run(Initial(), limit, steps).order))
  {
    hide Next, Counter, Raised, Lowered, Inv, EffectOf;
    if steps == [] {
      NothingCounted(limit);
    } else {
      var rest, last := steps[..|steps| - 1], steps[|steps| - 1];
      var before := Run(Initial(), limit, rest);
      LoopsImplementCounter(limit, rest);
      RunInv(limit, rest);
      if Next(before, limit, last).Some? {
        StepEffect(before, limit, last);
        var effect := EffectOf(before, last);
        if effect != [] {
          assert effect == [effect[0]];
          CounterMore(limit, Effects(limit, rest), effect[0]);
        }
        assert Effects(limit, rest) + [] == Effects(limit, rest);
      }
    }
  }

  lemma NothingCounted(limit: nat)
    ensures Counter(limit, []) == Some(0)
  {
  }

  /** Every value a reserving thread goes by has been the counter's. */
  predicate SeenOnly(s: State) {
    forall t :: t in s.threads && s.threads[t].Reserving? ==> s.threads[t].current in s.order
  }

  lemma StepSees(s: State, limit: nat, step: Step)
    requires s.order != [] && SeenOnly(s) && Next(s, limit, step).Some?
    ensures SeenOnly(Next(s, limit, step).value)
  {
    var s' := Next(s, limit, step).value;
    assert s.order <= s'.order;
    assert forall x :: x in s.order ==> x in s'.order;
  }

  lemma {:induction false} RunSees(limit: nat, steps: seq<Step>)
    ensures SeenOnly(Run(Initial(), limit, steps))
  {
    hide Next;
    if steps != [] {
      RunSees(limit, steps[..|steps| - 1]);
      var before := Run(Initial(), limit, steps[..|steps| - 1]);
      if Next(before, limit, steps[|steps| - 1]).Some? { StepSees(before, limit, steps[|steps| - 1]); }
      hide SeenOnly;
    }
  }

  /** A refusal is never made up: some value of the counter did not leave room for the request. */
  lemma RefusalHadCause(limit: nat, steps: seq<Step>, t: nat)
    requires var s := Run(Initial(), limit, steps); Next(s, limit, Refuse(t)).Some?
    ensures var s := Run(Initial(), limit, steps);
            ThreadOf(s, t).Reserving?
            && exists k :: 0 <= k < |s.order| && s.order[k] + ThreadOf(s, t).bytes > limit
  {
    RunSees(limit, steps);
    hide Run;
    var s := Run(Initial(), limit, steps);
    var k :| 0 <= k < |s.order| && s.order[k] == ThreadOf(s, t).current;
  }

  // ----- what the loops can do -----

  /** A thread that has read the counter's latest value, and that no other thread overtakes, reserves
      whatever still fits; and one that went by an old value gets there after reading again. */
  lemma ReservesWhatFits(s: State, limit: nat, t: nat, bytes: nat)
    requires s.order != [] && ThreadOf(s, t) == Idle && Last(s.order) + bytes <= limit
    ensures var last := |s.order| - 1;
            var started := Next(s, limit, StartReserve(t, bytes, last));
            && started.Some?
            && var reserved := Next(started.value, limit, Reserve(t));
               && reserved.Some? && Last(reserved.value.order) == Last(s.order) + bytes
               && reserved.value.guards == s.guards[s.nextGuard := Guard(bytes, |s.order|)]
               && ThreadOf(reserved.value, t) == Idle
    ensures forall seen: nat :: seen + bytes <= limit ==>
      var last := |s.order| - 1;
      Next(s.(threads := s.threads[t := Reserving(bytes, seen)]), limit, FailedSwap(t, last))
      == Next(s, limit, StartReserve(t, bytes, last))
  {
    forall seen: nat | seen + bytes <= limit
      ensures Next(s.(threads := s.threads[t := Reserving(bytes, seen)]), limit, FailedSwap(t, |s.order| - 1))
           == Next(s, limit, StartReserve(t, bytes, |s.order| - 1))
    {
      assert s.threads[t := Reserving(bytes, seen)][t := Reserving(bytes, Last(s.order))]
          == s.threads[t := Reserving(bytes, Last(s.order))];
    }
  }

  /** A guard that no thread is releasing yet can be released, and gives back exactly its bytes. */
  lemma ReleasesWhole(s: State, limit: nat, t: nat, g: nat)
    requires Inv(s, limit) && ThreadOf(s, t) == Idle && g in s.guards && !BeingReleased(s, g)
    ensures var started := Next(s, limit, StartRelease(t, g, |s.order| - 1));
            && started.Some?
            && var released := Next(started.value, limit, Release(t));
               && released.Some? && Last(released.value.order) + s.guards[g].bytes == Last(s.order)
               && released.value.guards == s.guards - {g} && ThreadOf(released.value, t) == Idle
  {
    assert Covered(s.order, s.guards[g]);
  }
}
