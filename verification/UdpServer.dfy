/**
 The receive loop of the UDP server: one datagram, one error or one re-arm timer at a time, and a
 stop that may land between any two of them.
 */
module UdpServer {
  import opened RateLimit
  import opened Bytes

  /** How an asynchronous receive completes. */
  datatype Completion = Data | OtherError | Aborted | BadDescriptor

  /** What the io_context holds for the server: operations under way and handlers queued to run. */
  datatype Io = Io(
    receives: nat,                  // receives waiting on the socket
    completed: multiset<Completion>, // their handlers, queued
    timerArmed: bool,
    expiry: nat,                    // how long the wait last armed is, in milliseconds
    timerFired: nat,                // timer handlers queued without error
    timerCancelled: nat,            // timer handlers queued with operation_aborted
    stops: nat)                     // posted stop handlers

  datatype State = State(socketOpen: bool, stopped: bool, backoff: Backoff, io: Io)

  // ---- What each call does to the state ---------------------------------------------------

  /** A receive on a closed socket completes at once with bad_descriptor. */
  function Receiving(s: State): State {
    if s.socketOpen then s.(io := s.io.(receives := s.io.receives + 1))
    else s.(io := s.io.(completed := s.io.completed + multiset{BadDescriptor}))
  }

  /** Setting a new expiry cancels the wait there is; then one wait is armed. */
  function Armed(io: Io, delay: nat): Io {
    io.(timerCancelled := io.timerCancelled + if io.timerArmed then 1 else 0, timerArmed := true, expiry := delay)
  }

  function Disarmed(io: Io): Io {
    io.(timerCancelled := io.timerCancelled + if io.timerArmed then 1 else 0, timerArmed := false)
  }

  function AfterReceive(s: State, c: Completion, now: int): State {
    match c
    case Aborted | BadDescriptor => s
    case OtherError =>
      var (backoff, decision) := AfterError(s.backoff, now);
      s.(backoff := backoff, io := Armed(s.io, decision.delay))
    case Data => Receiving(s.(backoff := AfterSuccess(s.backoff).0))
  }

  /** Closing the socket completes every waiting receive with operation_aborted. */
  function AfterStop(s: State): State {
    State(false, true, s.backoff,
          Disarmed(s.io.(receives := 0, completed := s.io.completed[Aborted := s.io.completed[Aborted] + s.io.receives])))
  }

  /** Everything that can happen: the io_context completing an operation, or running a handler. */
  datatype Event =
    | Arrives(ok: bool)               // a datagram or an error
    | TimerFires
    | RunReceive(c: Completion, now: int)
    | RunTimer(cancelled: bool)
    | RunStop
    | CallStop                        // somebody calls stop()

  predicate CanHappen(s: State, e: Event) {
    match e
    case Arrives(_) => s.io.receives > 0
    case TimerFires => s.io.timerArmed
    case RunReceive(c, _) => c in s.io.completed
    case RunTimer(cancelled) => (if cancelled then s.io.timerCancelled else s.io.timerFired) > 0
    case RunStop => s.io.stops > 0
    case CallStop => true
  }

  function Happen(s: State, e: Event): State
    requires CanHappen(s, e)
  {
    match e
    case Arrives(ok) =>
      s.(io := s.io.(receives := s.io.receives - 1,
                     completed := s.io.completed + multiset{if ok then Data else OtherError}))
    case TimerFires => s.(io := s.io.(timerArmed := false, timerFired := s.io.timerFired + 1))
    case RunReceive(c, now) =>
      AfterReceive(s.(io := s.io.(completed := s.io.completed - multiset{c})), c, now)
    case RunTimer(cancelled) =>
      if cancelled then s.(io := s.io.(timerCancelled := s.io.timerCancelled - 1))
      else Receiving(s.(io := s.io.(timerFired := s.io.timerFired - 1)))
    case RunStop => AfterStop(s.(io := s.io.(stops := s.io.stops - 1)))
    case CallStop => s.(io := s.io.(stops := s.io.stops + 1))
  }

  /** start(): the socket is open and one receive waits. */
  const STARTED := State(true, false, QUIET, Io(1, multiset{}, false, 0, 0, 0, 0))

  // ---- The handlers themselves ----------------------------------------------------------------

  class Server {
    var socketOpen: bool
    var stopped: bool
    var backoff: ReceiveBackoff
    var io: Io

    function Abstract(): State
      reads this, backoff
    {
      State(socketOpen, stopped, backoff.State(), io)
    }

    constructor ()
      ensures Abstract() == STARTED && fresh(backoff)
    {
      socketOpen, stopped := true, false;
      backoff := new ReceiveBackoff();
      io := Io(0, multiset{}, false, 0, 0, 0, 0);
      new;
      Receive();
    }

    method Receive()
      modifies this`io
      ensures Abstract() == Receiving(old(Abstract()))
    {
      if socketOpen {
        io := io.(receives := io.receives + 1);
      } else {
        io := io.(completed := io.completed + multiset{BadDescriptor});
      }
    }

    method HandleReceiveError(now: int)
      modifies this`io, backoff
      ensures Abstract() == AfterReceive(old(Abstract()), OtherError, now)
    {
      var decision := backoff.OnError(now);
      io := Armed(io, decision.delay);
    }

    /** The receive handler: gives up on a socket that is gone, backs off on any other error. */
    method OnReceive(c: Completion, now: int)
      modifies this`io, backoff
      ensures Abstract() == AfterReceive(old(Abstract()), c, now)
    {
      if c != Data {
        if c != Aborted && c != BadDescriptor {
          HandleReceiveError(now);
        }
        return;
      }
      var ended := backoff.OnSuccess();
      Receive();
    }

    method OnTimer(cancelled: bool)
      modifies this`io
      ensures Abstract() == if cancelled then old(Abstract()) else Receiving(old(Abstract()))
    {
      if cancelled {
        return;
      }
      Receive();
    }

    /** The posted part of stop(): closes the socket, then cancels a pending re-arm. */
    method OnStop()
      modifies this`socketOpen, this`stopped, this`io
      ensures Abstract() == AfterStop(old(Abstract()))
    {
      socketOpen := false;
      stopped := true;
      io := io.(receives := 0, completed := io.completed[Aborted := io.completed[Aborted] + io.receives]);
      io := Disarmed(io);
    }
  }

  // ---- Liveness: one thread of control -------------------------------------------------------------

  /** Receives and re-arms under way or queued. */
  function Control(s: State): nat {
    s.io.receives + |s.io.completed| + (if s.io.timerArmed then 1 else 0) + s.io.timerFired + s.io.timerCancelled
  }

  /**
   While running, exactly one receive or re-arm is outstanding, and it is a live one. Once stopped
   the socket stays closed, no receive ever waits again, and at most that one operation is left.
   */
  ghost predicate Inv(s: State) {
    if !s.stopped then
      && s.socketOpen && Control(s) == 1
      && s.io.completed[Aborted] == 0 && s.io.completed[BadDescriptor] == 0 && s.io.timerCancelled == 0
    else
      !s.socketOpen && s.io.receives == 0 && Control(s) <= 1
  }

  lemma {:induction false} CountSplit(m: multiset<Completion>)
    ensures |m| == m[Data] + m[OtherError] + m[Aborted] + m[BadDescriptor]
  {
    var rest := m[Data := 0][OtherError := 0][Aborted := 0][BadDescriptor := 0];
    if rest != multiset{} {
      var c :| c in rest;
      match c
      case Data => assert false;
      case OtherError => assert false;
      case Aborted => assert false;
      case BadDescriptor => assert false;
    }
    assert |rest| == 0;
  }

  lemma {:induction false} EventKeepsInv(s: State, e: Event)
    requires Inv(s) && CanHappen(s, e)
    ensures Inv(Happen(s, e))
    ensures s.stopped ==> Happen(s, e).stopped
  {
    hide AfterError, AfterSuccess;
    match e
    case Arrives(ok) =>
    case TimerFires =>
    case RunReceive(c, now) => ReceiveKeepsInv(s, c, now);
    case RunTimer(cancelled) =>
    case RunStop => StopKeepsInv(s);
    case CallStop =>
  }

  lemma {:induction false} ReceiveKeepsInv(s: State, c: Completion, now: int)
    requires Inv(s) && CanHappen(s, RunReceive(c, now))
    ensures Inv(Happen(s, RunReceive(c, now)))
  {
    hide AfterError, AfterSuccess;
    CountSplit(s.io.completed);
  }

  lemma {:induction false} StopKeepsInv(s: State)
    requires Inv(s) && CanHappen(s, RunStop)
    ensures Inv(Happen(s, RunStop))
  {
    CountSplit(s.io.completed);
    CountSplit(Happen(s, RunStop).io.completed);
  }

  ghost predicate IsRun(s: State, events: seq<Event>)
    decreases |events|
  {
    events != [] ==> CanHappen(s, events[0]) && IsRun(Happen(s, events[0]), events[1..])
  }

  ghost function After(s: State, events: seq<Event>): State
    requires IsRun(s, events)
    decreases |events|
  {
    if events == [] then s else After(Happen(s, events[0]), events[1..])
  }

  /** In every order of arrivals, timers, handlers and stops the receive loop is live, or stopped for good. */
  lemma {:induction false} RunKeepsInv(s: State, events: seq<Event>)
    requires Inv(s) && IsRun(s, events)
    ensures Inv(After(s, events)) && (s.stopped ==> After(s, events).stopped)
    decreases |events|
  {
    hide Inv, Happen, CanHappen;
    if events != [] {
      EventKeepsInv(s, events[0]);
      RunKeepsInv(Happen(s, events[0]), events[1..]);
    }
  }

  lemma {:induction false} StartedInv()
    ensures Inv(STARTED)
  {}

  /**
   Every run from start(): until a stop has run, exactly one of a waiting receive, an armed re-arm timer
   and a queued handler is there, and none of them has been cancelled; afterwards the socket is closed,
   no receive waits on it and at most that one is left.
   */
  lemma {:induction false} EveryRun(events: seq<Event>)
    requires IsRun(STARTED, events)
    ensures var s := After(STARTED, events);
            && (s.socketOpen <==> !s.stopped)
            && (!s.stopped ==> Control(s) == 1 && s.io.timerCancelled == 0 && Aborted !in s.io.completed)
            && (s.stopped ==> Control(s) <= 1 && s.io.receives == 0)
  {
    hide After, IsRun, Happen, CanHappen;
    StartedInv();
    RunKeepsInv(STARTED, events);
  }

  // ---- What errors and datagrams do to the back-off ------------------------------------------------

  /** The errors and datagrams whose handlers have run. */
  function Handled(events: seq<Event>): seq<RateLimit.Event> {
    if events == [] then []
    else
      (match events[0]
       case RunReceive(c, now) => if c == OtherError then [Failed(now)] else if c == Data then [Received] else []
       case _ => [])
      + Handled(events[1..])
  }

  lemma {:induction false} EventCounts(s: State, e: Event, past: seq<RateLimit.Event>)
    requires CanHappen(s, e) && s.backoff == RunOf(past).state
    ensures Happen(s, e).backoff == RunOf(past + Handled([e])).state
  {
    assert [e][1..] == [] && Handled([]) == [];
    match e
    case RunReceive(c, now) =>
      RunMore(past, Failed(now));
      RunMore(past, Received);
      assert past + [] == past;
      assert Handled([e]) == if c == OtherError then [Failed(now)] else if c == Data then [Received] else [];
    case _ => assert past + [] == past;
  }

  lemma {:induction false} RunCounts(s: State, events: seq<Event>, past: seq<RateLimit.Event>)
    requires IsRun(s, events) && s.backoff == RunOf(past).state
    ensures After(s, events).backoff == RunOf(past + Handled(events)).state
    decreases |events|
  {
    hide Happen, CanHappen, RunOf, Handled;
    HandledStep(events);
    if events == [] {
      assert past + [] == past;
    } else {
      EventCounts(s, events[0], past);
      RunCounts(Happen(s, events[0]), events[1..], past + Handled([events[0]]));
      Assoc(past, Handled([events[0]]), Handled(events[1..]));
    }
  }

  lemma {:induction false} HandledStep(events: seq<Event>)
    ensures Handled(events) == if events == [] then [] else Handled([events[0]]) + Handled(events[1..])
  {
    if events != [] {
      assert [events[0]][1..] == [] && Handled([]) == [];
    }
  }

  /**
   In every run from start() the back-off has counted exactly the errors handled, each datagram ending
   the streak; and an error, k-th of its streak, arms the timer for 50 ms doubled k - 1 times, at most a
   second, and no receive.
   */
  lemma {:induction false} ErrorsAreCounted(events: seq<Event>, now: int)
    requires IsRun(STARTED, events)
    ensures After(STARTED, events).backoff == RunOf(Handled(events)).state
    ensures
      var s, e, k := After(STARTED, events), RunReceive(OtherError, now), Consecutive(Handled(events)) + 1;
      CanHappen(s, e) ==>
        var t, doubled := Happen(s, e), 50 * Pow2(k - 1);
        t.io.timerArmed && t.io.expiry == (if doubled < 1000 then doubled else 1000) && t.io.receives == s.io.receives
  {
    RunCounts(STARTED, events, []);
    assert [] + Handled(events) == Handled(events);
    var past, s := Handled(events), After(STARTED, events);
    RunMore(past, Failed(now));
    BackoffDelays(past + [Failed(now)]);
    hide RunOf, Handled, Consecutive, Pow2, After, IsRun;
  }

  function Times(events: seq<Event>, f: Event -> bool): nat {
    if events == [] then 0 else (if f(events[0]) then 1 else 0) + Times(events[1..], f)
  }

  /** Every call of stop() queues one handler, which runs once. */
  lemma {:induction false} StopsRunOnce(s: State, events: seq<Event>)
    requires IsRun(s, events)
    ensures After(s, events).io.stops + Times(events, (e: Event) => e.RunStop?)
         == s.io.stops + Times(events, (e: Event) => e.CallStop?)
    decreases |events|
  {
    if events != [] {
      StopsRunOnce(Happen(s, events[0]), events[1..]);
    }
  }

  // ---- Shutdown: the work left runs out ----------------------------------------------------------------

  /** Steps left at most, after a stop has run: an error still queued re-arms once more. */
  function Work(s: State): nat {
    var done := s.io.completed;
    done[Aborted] + done[BadDescriptor] + 2 * done[Data] + 4 * done[OtherError]
    + (if s.io.timerArmed then 3 else 0) + 2 * s.io.timerFired + s.io.timerCancelled + s.io.stops
  }

  lemma {:induction false} StoppedWorkShrinks(s: State, e: Event)
    requires Inv(s) && s.stopped && CanHappen(s, e) && !e.CallStop?
    ensures Work(Happen(s, e)) < Work(s)
  {
    hide AfterError, AfterSuccess, Inv;
    NoneWaiting(s);
    match e
    case Arrives(ok) =>
    case TimerFires =>
    case RunReceive(c, now) => ReceiveShrinks(s, c, now);
    case RunTimer(cancelled) =>
    case RunStop =>
  }

  lemma {:induction false} ReceiveShrinks(s: State, c: Completion, now: int)
    requires !s.socketOpen && c in s.io.completed
    ensures Work(Happen(s, RunReceive(c, now))) < Work(s)
  {
    hide AfterError, AfterSuccess, Work;
    var left := s.(io := s.io.(completed := s.io.completed - multiset{c}));
    OneLess(s, c);
    HandlerAdds(left, c, now);
  }

  /** What one queued handler weighs. */
  function Weight(c: Completion): nat {
    match c
    case Aborted => 1
    case BadDescriptor => 1
    case Data => 2
    case OtherError => 4
  }

  lemma {:induction false} OneLess(s: State, c: Completion)
    requires c in s.io.completed
    ensures Work(s.(io := s.io.(completed := s.io.completed - multiset{c}))) + Weight(c) == Work(s)
  {
    var done, left := s.io.completed, s.io.completed - multiset{c};
    assert forall x: Completion :: left[x] == done[x] - if x == c then 1 else 0;
  }

  lemma {:induction false} HandlerAdds(s: State, c: Completion, now: int)
    requires !s.socketOpen
    ensures Work(AfterReceive(s, c, now)) < Work(s) + Weight(c)
  {
    hide AfterError, AfterSuccess;
    var done := s.io.completed;
    assert c == Data ==> (done + multiset{BadDescriptor})[Data] == done[Data];
  }

  lemma {:induction false} NoneWaiting(s: State)
    requires Inv(s) && s.stopped
    ensures !s.socketOpen && s.io.receives == 0
  {}

  /** After a stop has run, at most Work more things can happen, whatever their order. */
  lemma {:induction false} ShutdownEnds(s: State, events: seq<Event>)
    requires Inv(s) && s.stopped && IsRun(s, events) && forall i | 0 <= i < |events| :: !events[i].CallStop?
    ensures |events| + Work(After(s, events)) <= Work(s)
    decreases |events|
  {
    hide Inv, Happen, CanHappen, Work;
    if events != [] {
      EventKeepsInv(s, events[0]);
      StoppedWorkShrinks(s, events[0]);
      ShutdownEnds(Happen(s, events[0]), events[1..]);
    }
  }

  /** No work left means nothing outstanding; while some is left, something can happen. */
  lemma {:induction false} WorkIsOutstanding(s: State)
    requires Inv(s) && s.stopped
    ensures Work(s) == 0 <==> Control(s) == 0 && s.io.stops == 0
    ensures Work(s) > 0 ==> exists e: Event :: CanHappen(s, e) && !e.CallStop?
  {
    CountSplit(s.io.completed);
    if s.io.stops > 0 {
      assert CanHappen(s, RunStop);
    } else if s.io.timerArmed {
      assert CanHappen(s, TimerFires);
    } else if s.io.timerFired > 0 {
      assert CanHappen(s, RunTimer(false));
    } else if s.io.timerCancelled > 0 {
      assert CanHappen(s, RunTimer(true));
    } else if |s.io.completed| > 0 {
      var c :| c in s.io.completed;
      assert CanHappen(s, RunReceive(c, 0));
    }
  }

  /** Once stopped, nothing but the handler of a queued error can arm the timer, and no new error comes. */
  lemma {:induction false} NoNewError(s: State, e: Event)
    requires Inv(s) && s.stopped && CanHappen(s, e)
    requires !s.io.timerArmed && OtherError !in s.io.completed
    ensures !Happen(s, e).io.timerArmed && OtherError !in Happen(s, e).io.completed
  {}

  lemma {:induction false} StaysDisarmed(s: State, events: seq<Event>)
    requires Inv(s) && s.stopped && IsRun(s, events)
    requires !s.io.timerArmed && OtherError !in s.io.completed
    ensures !After(s, events).io.timerArmed
    decreases |events|
  {
    hide Inv, Happen, CanHappen;
    if events != [] {
      EventKeepsInv(s, events[0]);
      NoNewError(s, events[0]);
      StaysDisarmed(Happen(s, events[0]), events[1..]);
    }
  }

  lemma {:induction false} ErrorRearms(s: State) returns (events: seq<Event>)
    requires OtherError in s.io.completed
    ensures IsRun(s, events) && After(s, events).io.timerArmed
  {
    var e := RunReceive(OtherError, 0);
    var t := Happen(s, e);
    events := [e];
    assert [e][1..] == [] && IsRun(t, []) && After(t, []) == t;
  }

  /**
   Cancelling the timer does not always spare a shutdown the back-off: over everything that can happen
   after a stop, the timer is armed again if and only if an error's handler was queued behind the stop.
   */
  lemma {:induction false} RearmedAfterStop(s: State)
    requires Inv(s) && s.stopped && !s.io.timerArmed
    ensures (exists events :: IsRun(s, events) && After(s, events).io.timerArmed) <==> OtherError in s.io.completed
  {
    if OtherError in s.io.completed {
      var events := ErrorRearms(s);
      assert IsRun(s, events) && After(s, events).io.timerArmed;
    } else {
      forall events | IsRun(s, events) ensures !After(s, events).io.timerArmed {
        StaysDisarmed(s, events);
      }
    }
  }

  lemma {:induction false} RearmedAfterStopHappens(now: int)
    ensures var events := [Arrives(false), CallStop, RunStop, RunReceive(OtherError, now)];
            IsRun(STARTED, events) && After(STARTED, events).stopped && After(STARTED, events).io.timerArmed
  {
    var s1 := Happen(STARTED, Arrives(false));
    var s2 := Happen(s1, CallStop);
    var s3 := Happen(s2, RunStop);
    var s4 := Happen(s3, RunReceive(OtherError, now));
    var e4 := [RunReceive(OtherError, now)];
    var e3 := [RunStop] + e4;
    var e2 := [CallStop] + e3;
    var e1 := [Arrives(false)] + e2;
    assert e4[1..] == [] && e3[1..] == e4 && e2[1..] == e3 && e1[1..] == e2;
    assert IsRun(s4, []) && After(s4, []) == s4;
    assert IsRun(s3, e4) && After(s3, e4) == s4;
    assert IsRun(s2, e3) && After(s2, e3) == s4;
    assert IsRun(s1, e2) && After(s1, e2) == s4;
    assert e1 == [Arrives(false), CallStop, RunStop, RunReceive(OtherError, now)];
  }
}
