/**
 The bounded poll for seeds the server is still creating.

 A timer ticks while something undismissed is pending. A tick sends one request unless one is
 still out, and after the attempt budget the poll gives up. Cleaning up cancels it for good.
 */
module SeedPoll {
  import opened Common

  const MAX_ATTEMPTS: nat := 30

  /** What one request came to; `merged` is absent when no seed is served. */
  datatype Answer =
    | Rejected
    | HttpFailed
    | Served(merged: Option<seq<string>>, pending: seq<string>)

  datatype Poll = Poll(
    attempts: nat,
    inFlight: bool,
    ticking: bool,
    cancelled: bool,
    connections: seq<string>,
    active: Option<string>)

  datatype Event =
    | Tick
    | Settle(answer: Answer, dismissed: set<string>)
    | Cleanup

  predicate SomethingPending(pending: seq<string>, dismissed: set<string>) {
    exists seed <- pending :: seed !in dismissed
  }

  function Started(connections: seq<string>, active: Option<string>, pending: seq<string>,
          dismissed: set<string>): Poll
  {
    Poll(0, false, SomethingPending(pending, dismissed), false, connections, active)
  }

  /** The timer ticks while it is set, and only a request that is out can settle. */
  predicate Enabled(p: Poll, event: Event) {
    match event
    case Tick => p.ticking
    case Settle(_, _) => p.inFlight
    case Cleanup => true
  }

  predicate SendsRequest(p: Poll, event: Event) {
    event.Tick? && p.ticking && !p.inFlight
  }

  /** The answer ends the wait: it came through, and nothing undismissed is pending any more. */
  predicate EndsTheWait(event: Event) {
    event.Settle? && event.answer.Served? && !SomethingPending(event.answer.pending, event.dismissed)
  }

  function FirstOf(xs: seq<string>): Option<string> {
    if xs == [] then None else Some(xs[0])
  }

  function Step(p: Poll, event: Event): Poll
    requires Enabled(p, event)
  {
    match event
    case Tick => if p.inFlight then p else p.(inFlight := true, attempts := p.attempts + 1)
    case Settle(answer, _) =>
      var stop := (!p.cancelled && EndsTheWait(event)) || p.attempts >= MAX_ATTEMPTS;
      var shown :=
        if p.cancelled || !answer.Served? || answer.merged.None? then p
        else p.(connections := answer.merged.value,
                active := if p.active.Some? then p.active else FirstOf(answer.merged.value));
      shown.(inFlight := false, ticking := p.ticking && !stop)
    case Cleanup => p.(cancelled := true, ticking := false)
  }

  class SeedPoller {
    var attempts: nat
    var inFlight: bool
    var pollTimer: bool
    var cancelled: bool
    var connections: seq<string>
    var active: Option<string>

    ghost function View(): Poll
      reads this
    {
      Poll(attempts, inFlight, pollTimer, cancelled, connections, active)
    }

    constructor (listed: seq<string>, activeNow: Option<string>, pendingSeeds: seq<string>, dismissed: set<string>)
      ensures View() == Started(listed, activeNow, pendingSeeds, dismissed)
    {
      attempts, inFlight, cancelled, connections, active := 0, false, false, listed, activeNow;
      pollTimer := exists seed <- pendingSeeds :: seed !in dismissed;
    }

    method OnTick()
      requires pollTimer
      modifies `attempts, `inFlight
      ensures View() == Step(old(View()), Tick)
    {
      if inFlight { return; }
      inFlight := true;
      attempts := attempts + 1;
    }

    method StopPoll()
      modifies `pollTimer
      ensures !pollTimer
    {
      pollTimer := false;
    }

    method OnSettled(answer: Answer, dismissed: set<string>)
      requires inFlight
      modifies this
      ensures View() == Step(old(View()), Settle(answer, dismissed))
    {
      if !cancelled && answer.Served? {
        if answer.merged.Some? {
          connections := answer.merged.value;
          if active.None? && |connections| > 0 {
            active := Some(connections[0]);
          }
        }
        if !(exists seed <- answer.pending :: seed !in dismissed) {
          StopPoll();
        }
      }
      inFlight := false;
      if attempts >= MAX_ATTEMPTS {
        StopPoll();
      }
    }

    method CleanUp()
      modifies `cancelled, `pollTimer
      ensures View() == Step(old(View()), Cleanup)
    {
      cancelled := true;
      StopPoll();
    }
  }

  // ---------------------------------------------------------------- whole runs

  predicate Possible(p: Poll, events: seq<Event>)
    decreases |events|
  {
    events == [] || (Enabled(p, events[0]) && Possible(Step(p, events[0]), events[1..]))
  }

  function After(p: Poll, events: seq<Event>): Poll
    requires Possible(p, events)
    decreases |events|
  {
    if events == [] then p else After(Step(p, events[0]), events[1..])
  }

  /** How many requests go out during a run. */
  function Requests(p: Poll, events: seq<Event>): nat
    requires Possible(p, events)
    decreases |events|
  {
    if events == [] then 0
    else (if SendsRequest(p, events[0]) then 1 else 0) + Requests(Step(p, events[0]), events[1..])
  }

  function Settles(events: seq<Event>): nat {
    if events == [] then 0 else (if events[0].Settle? then 1 else 0) + Settles(events[1..])
  }

  ghost predicate Inv(p: Poll) {
    && p.attempts <= MAX_ATTEMPTS
    && (p.ticking ==> p.attempts < MAX_ATTEMPTS || p.inFlight)
    && (p.cancelled ==> !p.ticking)
  }

  lemma {:induction false} RunKeepsInv(p: Poll, events: seq<Event>)
    requires Inv(p) && Possible(p, events)
    ensures Inv(After(p, events))
    ensures After(p, events).attempts == p.attempts + Requests(p, events)
    ensures Requests(p, events) + (if p.inFlight then 1 else 0)
         == Settles(events) + (if After(p, events).inFlight then 1 else 0)
    decreases |events|
  {
    if events != [] {
      RunKeepsInv(Step(p, events[0]), events[1..]);
    }
  }

  /** Over every run at most thirty requests go out, and never two are out at once. */
  lemma BudgetHolds(listed: seq<string>, active: Option<string>, pending: seq<string>, dismissed: set<string>,
                    events: seq<Event>)
    requires Possible(Started(listed, active, pending, dismissed), events)
    ensures var sent := Requests(Started(listed, active, pending, dismissed), events);
            sent <= 30 && Settles(events) <= sent <= Settles(events) + 1
  {
    RunKeepsInv(Started(listed, active, pending, dismissed), events);
  }

  /**
   Exactly when a poll that started has stopped: something cleaned it up, an answer ended the
   wait, or all thirty requests went out and settled. Failures alone never end it early.
   */
  lemma {:induction false} StopsExactlyWhen(p: Poll, events: seq<Event>)
    requires Inv(p) && p.ticking && Possible(p, events)
    ensures var now := After(p, events);
            !now.ticking <==>
              || (exists e <- events :: e.Cleanup? || EndsTheWait(e))
              || (now.attempts == MAX_ATTEMPTS && !now.inFlight)
    decreases |events|
  {
    if events != [] {
      var next := Step(p, events[0]);
      assert forall e :: e in events <==> e == events[0] || e in events[1..];
      if next.ticking {
        StopsExactlyWhen(next, events[1..]);
      } else {
        StoppedStays(next, events[1..]);
      }
    }
  }

  /** A stopped poll sends nothing more; a request that was out may still settle. */
  lemma {:induction false} StoppedStays(p: Poll, events: seq<Event>)
    requires !p.ticking && Possible(p, events)
    ensures !After(p, events).ticking && Requests(p, events) == 0
    ensures After(p, events).attempts == p.attempts
    ensures !p.inFlight ==> !After(p, events).inFlight
    decreases |events|
  {
    if events != [] {
      StoppedStays(Step(p, events[0]), events[1..]);
    }
  }

  /** After cleanup no answer reaches the list or the choice of connection. */
  lemma {:induction false} CancelledWritesNothing(p: Poll, events: seq<Event>)
    requires p.cancelled && Possible(p, events)
    ensures After(p, events).connections == p.connections && After(p, events).active == p.active
    decreases |events|
  {
    if events != [] {
      CancelledWritesNothing(Step(p, events[0]), events[1..]);
    }
  }

  /** The poll fills in an active connection at most; it never takes a chosen one away. */
  lemma {:induction false} ChoiceSurvives(p: Poll, events: seq<Event>)
    requires p.active.Some? && Possible(p, events)
    ensures After(p, events).active == p.active
    decreases |events|
  {
    if events != [] {
      ChoiceSurvives(Step(p, events[0]), events[1..]);
    }
  }

  /** The list of the last answer with one before any cleanup, read off the events. */
  function LastListed(listed: seq<string>, events: seq<Event>): seq<string>
    decreases |events|
  {
    if events == [] || events[0].Cleanup? then listed
    else
      var now :=
        if events[0].Settle? && events[0].answer.Served? && events[0].answer.merged.Some? then
          events[0].answer.merged.value
        else listed;
      LastListed(now, events[1..])
  }

  /** The first connection of the first such list that has one, unless one was chosen before. */
  function FirstChosen(active: Option<string>, events: seq<Event>): Option<string>
    decreases |events|
  {
    if active.Some? || events == [] || events[0].Cleanup? then active
    else
      var served := events[0].Settle? && events[0].answer.Served? && events[0].answer.merged.Some?;
      if served && events[0].answer.merged.value != [] then Some(events[0].answer.merged.value[0])
      else FirstChosen(active, events[1..])
  }

  /**
   What is on the screen over every run: the list that was answered last, a failure or an answer
   without a list leaving it as it was, and as active the connection that was, or else the first
   that was ever listed.
   */
  lemma {:induction false} AnswersAreShown(p: Poll, events: seq<Event>)
    requires !p.cancelled && Possible(p, events)
    ensures After(p, events).connections == LastListed(p.connections, events)
    ensures After(p, events).active == FirstChosen(p.active, events)
    decreases |events|
  {
    if events != [] {
      var next := Step(p, events[0]);
      if events[0].Cleanup? {
        CancelledWritesNothing(next, events[1..]);
      } else {
        AnswersAreShown(next, events[1..]);
        if next.active.Some? {
          ChoiceSurvives(next, events[1..]);
        }
      }
    }
  }

  /** The wait is over when an answer came through and everything it lists as pending has been dismissed. */
  lemma EndsTheWaitIff(event: Event, listed: seq<string>, active: Option<string>)
    ensures EndsTheWait(event) <==>
              event.Settle? && event.answer.Served? && forall seed <- event.answer.pending :: seed in event.dismissed
    ensures event.Settle? && event.answer.Served? ==>
              (Started(listed, active, event.answer.pending, event.dismissed).ticking <==> !EndsTheWait(event))
  {
  }
}
