/** The duty-cycle pacer of one database connection, with clock readings as parameters. */
module Pacer {
  datatype State = State(nextAllowed: real, workCount: nat, totalBusy: real)

  predicate ValidShare(share: real) { 0.0 < share <= 1.0 }

  /** What happens on the connection: a unit of work that starts once it is allowed to, whether it then
      succeeds or fails, or a wait that is cancelled. The last reading is taken after the unit ended. */
  datatype Event = Unit(started: real, finished: real, now: real) | CancelledWait

  predicate Possible(s: State, e: Event) {
    e.Unit? ==> s.nextAllowed <= e.started <= e.finished <= e.now
  }

  function Cooldown(elapsed: real, share: real): real
    requires ValidShare(share)
  {
    elapsed * ((1.0 - share) / share)
  }

  function After(s: State, e: Event, share: real): State
    requires ValidShare(share)
  {
    match e
    case CancelledWait => s
    case Unit(started, finished, now) =>
      State(now + Cooldown(finished - started, share), s.workCount + 1, s.totalBusy + (finished - started))
  }

  function AfterAll(s: State, events: seq<Event>, share: real): State
    requires ValidShare(share)
  {
    if events == [] then s else After(AfterAll(s, events[..|events| - 1], share), events[|events| - 1], share)
  }

  predicate PossibleRun(s: State, events: seq<Event>, share: real)
    requires ValidShare(share)
  {
    events == []
    || (PossibleRun(s, events[..|events| - 1], share)
        && Possible(AfterAll(s, events[..|events| - 1], share), events[|events| - 1]))
  }

  function Initial(now: real): State { State(now, 0, 0.0) }

  class DutyCyclePacer {
    const dbShare: real
    var nextAllowed: real
    var workCount: nat
    var totalBusy: real

    constructor (dbShare: real, now: real)
      requires ValidShare(dbShare)
      ensures this.dbShare == dbShare && Value() == Initial(now)
    {
      this.dbShare := dbShare;
      nextAllowed, workCount, totalBusy := now, 0, 0.0;
    }

    function Value(): State
      reads this
    {
      State(nextAllowed, workCount, totalBusy)
    }

    method RunReady(started: real, finished: real, now: real)
      requires ValidShare(dbShare)
      modifies this
      ensures Value() == After(old(Value()), Unit(started, finished, now), dbShare)
    {
      var elapsed := finished - started;
      workCount := workCount + 1;
      totalBusy := totalBusy + elapsed;
      nextAllowed := now + Cooldown(elapsed, dbShare);
    }

    /** Returns whether the unit ran. `cancelled` says that cancellation came first. */
    method RunCancelableBeforeStart(cancelled: bool, started: real, finished: real, now: real) returns (completed: bool)
      requires ValidShare(dbShare)
      modifies this
      ensures completed == !cancelled
      ensures Value() == After(old(Value()), if cancelled then CancelledWait else Unit(started, finished, now), dbShare)
    {
      if cancelled {
        return false;
      }
      RunReady(started, finished, now);
      return true;
    }
  }

  // ----- the bound -----

  /** When the first unit started, if there was one. */
  function FirstStart(events: seq<Event>): real {
    if events == [] then 0.0 else if events[0].Unit? then events[0].started else FirstStart(events[1..])
  }

  predicate HasUnit(events: seq<Event>) { exists i :: 0 <= i < |events| && events[i].Unit? }

  lemma {:induction false} FirstStartStays(events: seq<Event>, e: Event)
    ensures HasUnit(events) ==> FirstStart(events + [e]) == FirstStart(events)
    ensures !HasUnit(events) && e.Unit? ==> FirstStart(events + [e]) == e.started
    ensures HasUnit(events + [e]) <==> HasUnit(events) || e.Unit?
  {
    assert HasUnit(events + [e]) <==> HasUnit(events) || e.Unit? by {
      assert forall i :: 0 <= i < |events| ==> (events + [e])[i] == events[i];
      assert (events + [e])[|events|] == e;
    }
    if events != [] {
      FirstStartStays(events[1..], e);
      assert (events + [e])[1..] == events[1..] + [e];
      assert HasUnit(events) <==> events[0].Unit? || HasUnit(events[1..]) by {
        assert forall i :: 0 < i < |events| ==> events[i] == events[1..][i - 1];
        assert forall i :: 0 <= i < |events[1..]| ==> events[1..][i] == events[i + 1];
      }
    }
  }

  /** The share of a span: what may have been busy of it. */
  function ShareOf(share: real, span: real): real { share * span }

  lemma ShareSplits(share: real, a: real, b: real)
    ensures ShareOf(share, a + b) == ShareOf(share, a) + ShareOf(share, b)
  {
  }

  lemma ShareGrows(share: real, a: real, b: real)
    requires share > 0.0 && a <= b
    ensures ShareOf(share, a) <= ShareOf(share, b)
  {
    assert share * (b - a) >= 0.0;
  }

  /** Working for `elapsed` and cooling down takes exactly as long as makes `elapsed` its share. */
  lemma CooldownShare(elapsed: real, share: real)
    requires ValidShare(share)
    ensures ShareOf(share, elapsed + Cooldown(elapsed, share)) == elapsed
  {
    var q := (1.0 - share) / share;
    assert share * q == 1.0 - share;
    Swapped(share, elapsed, q);
    ShareSplits(share, elapsed, elapsed * q);
  }

  lemma Swapped(share: real, elapsed: real, q: real)
    requires share * q == 1.0 - share
    ensures ShareOf(share, elapsed * q) == elapsed - ShareOf(share, elapsed)
  {
    assert share * (elapsed * q) == elapsed * (share * q);
  }

  lemma UnitKeepsBound(s: State, e: Event, share: real, first: real)
    requires ValidShare(share) && e.Unit? && Possible(s, e)
    requires s.totalBusy <= ShareOf(share, s.nextAllowed - first) || (s.totalBusy == 0.0 && first == e.started)
    ensures After(s, e, share).totalBusy <= ShareOf(share, After(s, e, share).nextAllowed - first)
    ensures s.totalBusy <= ShareOf(share, e.started - first)
  {
    var elapsed := e.finished - e.started;
    var busyUntil := e.started + (elapsed + Cooldown(elapsed, share));
    CooldownShare(elapsed, share);
    ShareSplits(share, e.started - first, elapsed + Cooldown(elapsed, share));
    if s.totalBusy <= ShareOf(share, s.nextAllowed - first) {
      ShareGrows(share, s.nextAllowed - first, e.started - first);
    }
    ShareGrows(share, busyUntil - first, After(s, e, share).nextAllowed - first);
    hide ShareOf, Cooldown;
    assert (e.started - first) + (elapsed + Cooldown(elapsed, share)) == busyUntil - first;
  }

  /** Over any run of succeeding, failing and cancelled units, the time spent working is at most the
      configured share of the time from the first unit's start until the next unit may start. */
  lemma {:induction false} DutyCycleHolds(now: real, events: seq<Event>, share: real)
    requires ValidShare(share) && PossibleRun(Initial(now), events, share)
    ensures var s := AfterAll(Initial(now), events, share);
            if HasUnit(events) then s.totalBusy <= ShareOf(share, s.nextAllowed - FirstStart(events))
            else s == Initial(now)
  {
    hide ShareOf;
    if events != [] {
      var before, e := events[..|events| - 1], events[|events| - 1];
      assert events == before + [e];
      DutyCycleHolds(now, before, share);
      FirstStartStays(before, e);
      hide FirstStart, HasUnit;
      if e.Unit? { UnitKeepsBound(AfterAll(Initial(now), before, share), e, share, FirstStart(events)); }
    }
  }

  /** So at the start of every later unit the connection has been busy for at most its share. */
  lemma BusyAtMostShare(now: real, events: seq<Event>, share: real, next: Event)
    requires ValidShare(share) && PossibleRun(Initial(now), events + [next], share) && next.Unit? && HasUnit(events)
    ensures AfterAll(Initial(now), events, share).totalBusy <= ShareOf(share, next.started - FirstStart(events))
  {
    assert (events + [next])[..|events|] == events;
    DutyCycleHolds(now, events, share);
    var s := AfterAll(Initial(now), events, share);
    ShareGrows(share, s.nextAllowed - FirstStart(events), next.started - FirstStart(events));
  }

  /** After a unit the next one may start exactly as much later as makes the time worked its share of the
      time worked and rested; units are counted and their time adds up. */
  lemma UnitExactly(s: State, started: real, finished: real, now: real, share: real)
    requires ValidShare(share)
    ensures var after := After(s, Unit(started, finished, now), share);
            && share * ((finished - started) + (after.nextAllowed - now)) == finished - started
            && after.workCount == s.workCount + 1 && after.totalBusy - s.totalBusy == finished - started
  {
    CooldownShare(finished - started, share);
  }
}
