/**
 Forwarding to another collector: the destination is looked up in the background and retried, and
 what arrives meanwhile is dropped and counted.
 */
module Forwarder {
  const FIRST_RETRY_DELAY := 1
  const MAX_RETRY_DELAY := 60

  /** A finished lookup: whether it was the one started at construction, and whether it found an address. */
  datatype Answer = Answer(first: bool, found: bool)

  /** What the io_context holds for the forwarder. */
  datatype Io = Io(
    lookups: multiset<bool>,   // lookups under way, by whether they are the first
    answers: multiset<Answer>, // their handlers, queued
    timerArmed: bool, expiry: nat, timerFired: nat, timerCancelled: nat, // expiry: the wait last armed, in seconds
    stops: nat, messages: nat)

  /** The forwarder's fields, and what the network and the system log have seen of it. */
  datatype State = State(
    resolved: bool, stopping: bool, retryDelay: nat, dropped: nat, failureReported: bool,
    io: Io, matched: nat, sent: nat, announced: nat, failureLines: nat)

  function Doubled(delay: nat): nat {
    if delay * 2 < MAX_RETRY_DELAY then delay * 2 else MAX_RETRY_DELAY
  }

  function RetryScheduled(s: State): State {
    if s.stopping then s
    else s.(io := s.io.(timerCancelled := s.io.timerCancelled + (if s.io.timerArmed then 1 else 0), timerArmed := true, expiry := s.retryDelay))
  }

  function Reported(s: State): State {
    s.(failureReported := true, failureLines := s.failureLines + 1)
  }

  function EndpointUsed(s: State, ok: bool): State {
    if !ok then
      var s1 := if s.failureReported then s else Reported(s);
      RetryScheduled(s1.(retryDelay := Doubled(s.retryDelay)))
    else s.(resolved := true, announced := s.announced + s.dropped, dropped := 0)
  }

  function AfterAnswer(s: State, a: Answer, ok: bool): State {
    if s.stopping then s
    else if a.found then EndpointUsed(s, ok)
    else RetryScheduled(if a.first then Reported(s) else s.(retryDelay := Doubled(s.retryDelay)))
  }

  function Resolving(s: State, first: bool): State {
    s.(io := s.io.(lookups := s.io.lookups + multiset{first}))
  }

  function AfterTimer(s: State, cancelled: bool): State {
    if cancelled || s.stopping then s else Resolving(s, false)
  }

  /** The handlers a cancelled resolver queues. */
  function Aborted(lookups: multiset<bool>): multiset<Answer> {
    multiset{}[Answer(true, false) := lookups[true]][Answer(false, false) := lookups[false]]
  }

  /** What is pending is cancelled: the retry, and the lookup when it can still be aborted. */
  function AfterStop(s: State, aborts: bool): State {
    var io := s.io.(timerCancelled := s.io.timerCancelled + (if s.io.timerArmed then 1 else 0), timerArmed := false);
    s.(stopping := true,
       io := if aborts then io.(lookups := multiset{}, answers := io.answers + Aborted(io.lookups)) else io)
  }

  function AfterMessage(s: State, matches: bool): State {
    if !matches then s
    else if !s.resolved then s.(matched := s.matched + 1, dropped := s.dropped + 1)
    else s.(matched := s.matched + 1, sent := s.sent + 1)
  }

  const IDLE := State(false, false, FIRST_RETRY_DELAY, 0, false, Io(multiset{}, multiset{}, false, 0, 0, 0, 0, 0), 0, 0, 0, 0)

  /** Construction: an IP literal is adopted at once, a name is looked up. */
  function Constructed(literal: bool, ok: bool): State {
    if literal then EndpointUsed(IDLE, ok) else Resolving(IDLE, true)
  }

  // ---- The handlers ------------------------------------------------------------------------------

  class Handlers {
    var resolved: bool
    var stopping: bool
    var retryDelay: nat
    var droppedUnresolved: nat
    var failureReported: bool
    var io: Io
    var matched: nat
    var sent: nat
    var announced: nat
    var failureLines: nat

    function Abstract(): State
      reads this
    {
      State(resolved, stopping, retryDelay, droppedUnresolved, failureReported, io, matched, sent, announced, failureLines)
    }

    constructor (literal: bool, ok: bool)
      ensures Abstract() == Constructed(literal, ok)
    {
      resolved, stopping, retryDelay, droppedUnresolved, failureReported := false, false, FIRST_RETRY_DELAY, 0, false;
      matched, sent, announced, failureLines := 0, 0, 0, 0;
      io := IDLE.io;
      new;
      if literal {
        UseEndpoint(ok);
        return;
      }
      StartResolve(true);
    }

    method StartResolve(first: bool)
      modifies this
      ensures Abstract() == Resolving(old(Abstract()), first)
    {
      io := io.(lookups := io.lookups + multiset{first});
    }

    method OnResolved(a: Answer, ok: bool)
      modifies this
      ensures Abstract() == AfterAnswer(old(Abstract()), a, ok)
    {
      if stopping {
        return;
      }
      if a.found {
        UseEndpoint(ok);
        return;
      }
      if a.first {
        failureReported := true;
        failureLines := failureLines + 1;
      } else {
        retryDelay := if retryDelay * 2 < MAX_RETRY_DELAY then retryDelay * 2 else MAX_RETRY_DELAY;
      }
      ScheduleResolveRetry();
    }

    method UseEndpoint(ok: bool)
      modifies this
      ensures Abstract() == EndpointUsed(old(Abstract()), ok)
    {
      if !ok {
        if !failureReported {
          failureReported := true;
          failureLines := failureLines + 1;
        }
        retryDelay := if retryDelay * 2 < MAX_RETRY_DELAY then retryDelay * 2 else MAX_RETRY_DELAY;
        ScheduleResolveRetry();
        return;
      }
      resolved := true;
      if droppedUnresolved != 0 {
        announced := announced + droppedUnresolved;
        droppedUnresolved := 0;
      }
    }

    method ScheduleResolveRetry()
      modifies this
      ensures Abstract() == RetryScheduled(old(Abstract()))
    {
      if stopping {
        return;
      }
      io := io.(timerCancelled := io.timerCancelled + (if io.timerArmed then 1 else 0), timerArmed := true, expiry := retryDelay);
    }

    method OnTimer(cancelled: bool)
      modifies this
      ensures Abstract() == AfterTimer(old(Abstract()), cancelled)
    {
      if cancelled || stopping {
        return;
      }
      StartResolve(false);
    }

    /** The posted part of stop(); a lookup that is past aborting still ends, with any result. */
    method OnStop(aborts: bool)
      modifies this
      ensures Abstract() == AfterStop(old(Abstract()), aborts)
    {
      stopping := true;
      io := io.(timerCancelled := io.timerCancelled + (if io.timerArmed then 1 else 0), timerArmed := false);
      if aborts {
        io := io.(lookups := multiset{}, answers := io.answers + Aborted(io.lookups));
      }
    }

    method DoForward(matches: bool)
      modifies this
      ensures Abstract() == AfterMessage(old(Abstract()), matches)
    {
      if !matches {
        return;
      }
      matched := matched + 1;
      if !resolved {
        droppedUnresolved := droppedUnresolved + 1;
        return;
      }
      sent := sent + 1;
    }
  }

  // ---- Everything that can happen -----------------------------------------------------------------------

  datatype Event =
    | LookupEnds(first: bool, found: bool)
    | TimerFires
    | RunAnswer(a: Answer, ok: bool)
    | RunTimer(cancelled: bool)
    | RunStop(aborts: bool)
    | RunMessage(matches: bool)
    | CallStop
    | CallForward

  predicate CanHappen(s: State, e: Event) {
    match e
    case LookupEnds(first, _) => first in s.io.lookups
    case TimerFires => s.io.timerArmed
    case RunAnswer(a, _) => a in s.io.answers
    case RunTimer(cancelled) => (if cancelled then s.io.timerCancelled else s.io.timerFired) > 0
    case RunStop(_) => s.io.stops > 0
    case RunMessage(_) => s.io.messages > 0
    case CallStop => true
    case CallForward => true
  }

  function Happen(s: State, e: Event): State
    requires CanHappen(s, e)
  {
    match e
    case LookupEnds(first, found) =>
      s.(io := s.io.(lookups := s.io.lookups - multiset{first}, answers := s.io.answers + multiset{Answer(first, found)}))
    case TimerFires => s.(io := s.io.(timerArmed := false, timerFired := s.io.timerFired + 1))
    case RunAnswer(a, ok) => AfterAnswer(s.(io := s.io.(answers := s.io.answers - multiset{a})), a, ok)
    case RunTimer(cancelled) =>
      AfterTimer(if cancelled then s.(io := s.io.(timerCancelled := s.io.timerCancelled - 1))
                 else s.(io := s.io.(timerFired := s.io.timerFired - 1)), cancelled)
    case RunStop(aborts) => AfterStop(s.(io := s.io.(stops := s.io.stops - 1)), aborts)
    case RunMessage(matches) => AfterMessage(s.(io := s.io.(messages := s.io.messages - 1)), matches)
    case CallStop => s.(io := s.io.(stops := s.io.stops + 1))
    case CallForward => s.(io := s.io.(messages := s.io.messages + 1))
  }

  // ---- Exactly one way forward ----------------------------------------------------------------------------

  /** Lookups and retries under way or queued. */
  function Control(s: State): nat {
    |s.io.lookups| + |s.io.answers| + (if s.io.timerArmed then 1 else 0) + s.io.timerFired + s.io.timerCancelled
  }

  /** The first lookup's failure is still to be reported. */
  ghost predicate FirstPending(s: State) {
    true in s.io.lookups || exists a <- s.io.answers :: a.first
  }

  /**
   Until stopped, either the destination is known or exactly one lookup or retry is under way. The
   failure is reported at most once, the delay stays within its bounds, and every message that was
   to be forwarded was sent, has been announced as dropped, or is counted for the announcement.
   */
  ghost predicate Inv(s: State) {
    && (if s.stopping then Control(s) + (if s.resolved then 1 else 0) <= 1 && !s.io.timerArmed
        else Control(s) + (if s.resolved then 1 else 0) == 1 && s.io.timerCancelled == 0)
    && FIRST_RETRY_DELAY <= s.retryDelay <= MAX_RETRY_DELAY
    && s.failureLines == (if s.failureReported then 1 else 0)
    && (FirstPending(s) ==> !s.failureReported)
    && s.matched == s.sent + s.announced + s.dropped
    && (s.resolved ==> s.dropped == 0)
  }

  /** What one event keeps; once stopping, no endpoint is adopted and no lookup is started. */
  ghost predicate Kept(s: State, e: Event)
    requires CanHappen(s, e)
  {
    var t := Happen(s, e);
    && Inv(t) && t.retryDelay >= s.retryDelay
    && (s.stopping ==> t.stopping && t.resolved == s.resolved && t.io.lookups <= s.io.lookups)
  }

  lemma {:induction false} ConstructedInv(literal: bool, ok: bool)
    ensures Inv(Constructed(literal, ok))
  {}

  /** Only one of the two multisets is inhabited, and by one element. */
  lemma {:induction false} OneOf<T>(m: multiset<T>, x: T)
    requires x in m && |m| <= 1
    ensures m == multiset{x} && m - multiset{x} == multiset{}
  {
    var rest := m - multiset{x};
    assert |rest| == 0;
    assert rest == multiset{};
    assert m == rest + multiset{x};
  }

  lemma {:induction false} EventKeepsInv(s: State, e: Event)
    requires Inv(s) && CanHappen(s, e)
    ensures Kept(s, e)
  {
    hide Inv, Happen, CanHappen;
    match e
    case LookupEnds(first, found) => LookupKeepsInv(s, first, found);
    case TimerFires => FireKeepsInv(s);
    case RunAnswer(a, ok) => AnswerKeepsInv(s, a, ok);
    case RunTimer(cancelled) => TimerKeepsInv(s, cancelled);
    case RunStop(aborts) => StopKeepsInv(s, aborts);
    case RunMessage(matches) => MessageKeepsInv(s, matches);
    case CallStop => CallKeepsInv(s, CallStop);
    case CallForward => CallKeepsInv(s, CallForward);
  }

  lemma {:induction false} FireKeepsInv(s: State)
    requires Inv(s) && CanHappen(s, TimerFires)
    ensures Kept(s, TimerFires)
  {}

  lemma {:induction false} TimerKeepsInv(s: State, cancelled: bool)
    requires Inv(s) && CanHappen(s, RunTimer(cancelled))
    ensures Kept(s, RunTimer(cancelled))
  {
    assert |s.io.lookups| == 0 && |s.io.answers| == 0;
    assert s.io.lookups == multiset{} && s.io.answers == multiset{};
  }

  lemma {:induction false} StopKeepsInv(s: State, aborts: bool)
    requires Inv(s) && CanHappen(s, RunStop(aborts))
    ensures Kept(s, RunStop(aborts))
  {
    AbortedOnes(s.io.lookups);
  }

  /** Aborting a lookup, if there is one, queues the failed answer of that lookup. */
  lemma {:induction false} AbortedOnes(lookups: multiset<bool>)
    requires |lookups| <= 1
    ensures |Aborted(lookups)| == |lookups|
    ensures (exists a <- Aborted(lookups) :: a.first) <==> true in lookups
  {
    if first :| first in lookups {
      OneOf(lookups, first);
      assert Aborted(lookups) == multiset{Answer(first, false)};
    } else {
      assert lookups[true] == 0 && lookups[false] == 0;
      assert Aborted(lookups) == multiset{};
      SomeLookup(lookups);
    }
  }

  lemma {:induction false} MessageKeepsInv(s: State, matches: bool)
    requires Inv(s) && CanHappen(s, RunMessage(matches))
    ensures Kept(s, RunMessage(matches))
  {}

  lemma {:induction false} CallKeepsInv(s: State, e: Event)
    requires Inv(s) && (e == CallStop || e == CallForward)
    ensures Kept(s, e)
  {}

  lemma {:induction false} LookupKeepsInv(s: State, first: bool, found: bool)
    requires Inv(s) && CanHappen(s, LookupEnds(first, found))
    ensures Kept(s, LookupEnds(first, found))
  {
    OneOf(s.io.lookups, first);
    assert |s.io.answers| == 0;
    assert Happen(s, LookupEnds(first, found)).io.answers == multiset{Answer(first, found)};
  }

  lemma {:induction false} AnswerKeepsInv(s: State, a: Answer, ok: bool)
    requires Inv(s) && CanHappen(s, RunAnswer(a, ok))
    ensures Kept(s, RunAnswer(a, ok))
  {
    OneOf(s.io.answers, a);
    assert |s.io.lookups| == 0;
  }

  ghost predicate IsRun(s: State, events: seq<Event>)
    decreases |events|
  {
    events != [] ==> CanHappen(s, events[0]) && IsRun(Happen(s, events[0]), events[1..])
  }

  ghost function After(s: State, events: seq<Event>): State
    requires IsRun(s, events)
    decreases |events|
  {
    if events == [] then s else After(Happen(s, events[0]), events[1..])
  }

  /** In every order of answers, timers, messages and stops, all of that holds. */
  lemma {:induction false} RunKeepsInv(s: State, events: seq<Event>)
    requires Inv(s) && IsRun(s, events)
    ensures Inv(After(s, events)) && After(s, events).retryDelay >= s.retryDelay
    ensures s.stopping ==> After(s, events).stopping && After(s, events).resolved == s.resolved
    decreases |events|
  {
    hide Inv, Happen, CanHappen;
    if events != [] {
      EventKeepsInv(s, events[0]);
      RunKeepsInv(Happen(s, events[0]), events[1..]);
    }
  }

  /**
   Every run from construction, for an IP literal or a name: until stopped the destination is known or
   exactly one lookup or retry is under way, the delay is between 1 s and 60 s, at most one failure is
   logged, and every matching message was sent, announced as dropped or is counted for it.
   */
  lemma {:induction false} EveryRun(literal: bool, ok: bool, events: seq<Event>)
    requires IsRun(Constructed(literal, ok), events)
    ensures var s := After(Constructed(literal, ok), events);
            && (!s.stopping ==> Control(s) + (if s.resolved then 1 else 0) == 1)
            && (s.stopping ==> Control(s) <= 1 && !s.io.timerArmed)
            && 1 <= s.retryDelay <= 60 && s.failureLines <= 1
            && s.matched == s.sent + s.announced + s.dropped && (s.resolved ==> s.dropped == 0)
  {
    hide After, IsRun, Happen, CanHappen;
    ConstructedInv(literal, ok);
    RunKeepsInv(Constructed(literal, ok), events);
  }

  // ---- What a run comes to ---------------------------------------------------------------------------------

  /** The events before the first stop. */
  function Live(past: seq<Event>): seq<Event> {
    if past == [] || past[0].RunStop? then [] else [past[0]] + Live(past[1..])
  }

  predicate Stopped(past: seq<Event>) {
    exists e <- past :: e.RunStop?
  }

  /** A lookup that found an address a socket could be opened for. */
  predicate Adopts(e: Event) {
    e.RunAnswer? && e.a.found && e.ok
  }

  predicate Fails(e: Event) {
    e.RunAnswer? && !(e.a.found && e.ok)
  }

  function Adoptions(es: seq<Event>): nat {
    if es == [] then 0 else Adoptions(es[..|es| - 1]) + if Adopts(es[|es| - 1]) then 1 else 0
  }

  function Failures(es: seq<Event>): nat {
    if es == [] then 0 else Failures(es[..|es| - 1]) + if Fails(es[|es| - 1]) then 1 else 0
  }

  /** Failures that double the delay: all but that of a first lookup that found nothing. */
  function Doublings(es: seq<Event>): nat {
    if es == [] then 0
    else
      var e := es[|es| - 1];
      Doublings(es[..|es| - 1]) + if Fails(e) && (e.a.found || !e.a.first) then 1 else 0
  }

  /** The messages handled that were to be forwarded. */
  function Matching(es: seq<Event>): nat {
    if es == [] then 0 else Matching(es[..|es| - 1]) + if es[|es| - 1] == RunMessage(true) then 1 else 0
  }

  /** The events until the destination is known, which it is at once when a literal is taken. */
  function Early(taken: bool, past: seq<Event>): seq<Event> {
    if taken || past == [] then []
    else
      var n := |past| - 1;
      if Adoptions(Live(past[..n])) > 0 then Early(taken, past[..n]) else past
  }

  function Pow2(n: nat): nat {
    if n == 0 then 1 else 2 * Pow2(n - 1)
  }

  /** 1 s doubled n times, at most 60 s. */
  function DelayAfter(n: nat): nat {
    if Pow2(n) < 60 then Pow2(n) else 60
  }

  /** What the state tells of the events so far. */
  ghost predicate Tells(literal: bool, ok: bool, past: seq<Event>, s: State) {
    var refused, live := if literal && !ok then 1 else 0, Live(past);
    && (s.stopping <==> Stopped(past))
    && (s.resolved <==> (literal && ok) || Adoptions(live) > 0)
    && s.failureLines == (if refused + Failures(live) > 0 then 1 else 0)
    && ToldOf(s)
  }

  /** What it tells of the delay. */
  ghost predicate Delays(literal: bool, ok: bool, past: seq<Event>, s: State) {
    (s.stopping <==> Stopped(past)) && s.retryDelay == DelayAfter((if literal && !ok then 1 else 0) + Doublings(Live(past)))
  }

  /** What it tells of the messages, and of the retry. */
  ghost predicate Sends(taken: bool, past: seq<Event>, s: State) {
    && (s.stopping <==> Stopped(past))
    && (s.resolved <==> taken || Adoptions(Live(past)) > 0)
    && (!s.resolved ==> Early(taken, past) == past)
    && s.matched == Matching(past) && s.sent == s.matched - Matching(Early(taken, past))
    && (s.io.timerArmed ==> s.io.expiry == s.retryDelay)
  }

  lemma {:induction false} LiveMore(past: seq<Event>, e: Event)
    ensures Live(past + [e]) == if Stopped(past) || e.RunStop? then Live(past) else past + [e]
    ensures !Stopped(past) ==> Live(past) == past
    ensures Stopped(past + [e]) <==> Stopped(past) || e.RunStop?
    decreases |past|
  {
    var all := past + [e];
    assert forall x :: x in all <==> x in past || x == e;
    if past == [] {
      assert all[1..] == [] && all == [e];
    } else {
      LiveMore(past[1..], e);
      assert all[1..] == past[1..] + [e];
      assert past == [past[0]] + past[1..];
    }
  }

  lemma {:induction false} CountMore(es: seq<Event>, e: Event)
    ensures Adoptions(es + [e]) == Adoptions(es) + if Adopts(e) then 1 else 0
    ensures Failures(es + [e]) == Failures(es) + if Fails(e) then 1 else 0
    ensures Doublings(es + [e]) == Doublings(es) + if Fails(e) && (e.a.found || !e.a.first) then 1 else 0
    ensures Matching(es + [e]) == Matching(es) + if e == RunMessage(true) then 1 else 0
  {
    assert (es + [e])[..|es|] == es;
  }

  lemma {:induction false} DelayDoubles(n: nat)
    ensures Doubled(DelayAfter(n)) == DelayAfter(n + 1)
  {}

  lemma {:induction false} LiveCounts(past: seq<Event>, e: Event)
    ensures var was, now := Live(past), Live(past + [e]);
            && (Stopped(past + [e]) <==> Stopped(past) || e.RunStop?)
            && Adoptions(now) == Adoptions(was) + (if !Stopped(past) && Adopts(e) then 1 else 0)
            && Failures(now) == Failures(was) + (if !Stopped(past) && Fails(e) then 1 else 0)
            && Doublings(now) == Doublings(was) + if !Stopped(past) && Fails(e) && (e.a.found || !e.a.first) then 1 else 0
  {
    LiveMore(past, e);
    CountMore(past, e);
    hide Live, Stopped, Adoptions, Failures, Doublings;
  }

  /** The failure has been logged, or the first lookup is still to tell, or there is none to log. */
  ghost predicate ToldOf(s: State) {
    s.stopping || s.resolved || FirstPending(s) || s.failureReported
  }

  /** What one event changes of it. */
  lemma {:induction false} EventMeans(s: State, e: Event)
    requires Inv(s) && ToldOf(s) && CanHappen(s, e)
    ensures var t, fails := Happen(s, e), Fails(e) && !s.stopping;
            && (t.stopping <==> s.stopping || e.RunStop?)
            && (t.resolved <==> s.resolved || (Adopts(e) && !s.stopping))
            && t.failureLines == (if fails then 1 else s.failureLines)
            && t.retryDelay == (if fails && (e.a.found || !e.a.first) then Doubled(s.retryDelay) else s.retryDelay)
  {
    hide Doubled;
    if e.RunAnswer? {
      OneOf(s.io.answers, e.a);
      assert |s.io.lookups| == 0;
    }
  }

  /** What it changes of the messages and the retry. */
  lemma {:induction false} EventSends(s: State, e: Event)
    requires Inv(s) && CanHappen(s, e)
    ensures var t := Happen(s, e);
            && (t.stopping <==> s.stopping || e.RunStop?)
            && (t.resolved <==> s.resolved || (Adopts(e) && !s.stopping))
            && t.matched == s.matched + (if e == RunMessage(true) then 1 else 0)
            && t.sent == s.sent + (if e == RunMessage(true) && s.resolved then 1 else 0)
            && ((s.io.timerArmed ==> s.io.expiry == s.retryDelay) ==> t.io.timerArmed ==> t.io.expiry == t.retryDelay)
  {
    hide Doubled;
    if e.RunAnswer? {
      OneOf(s.io.answers, e.a);
      assert |s.io.lookups| == 0;
    }
  }

  lemma {:induction false} AnswerStillTold(s: State, a: Answer, ok: bool)
    requires Inv(s) && ToldOf(s) && CanHappen(s, RunAnswer(a, ok))
    ensures ToldOf(Happen(s, RunAnswer(a, ok)))
  {
    OneOf(s.io.answers, a);
    assert |s.io.lookups| == 0;
    hide Doubled;
  }

  lemma {:induction false} LookupStillTold(s: State, first: bool, found: bool)
    requires Inv(s) && ToldOf(s) && CanHappen(s, LookupEnds(first, found))
    ensures ToldOf(Happen(s, LookupEnds(first, found)))
  {
    OneOf(s.io.lookups, first);
    assert |s.io.answers| == 0;
    assert first ==> Answer(true, found) in Happen(s, LookupEnds(first, found)).io.answers;
  }

  lemma {:induction false} EventStillTold(s: State, e: Event)
    requires Inv(s) && ToldOf(s) && CanHappen(s, e)
    ensures ToldOf(Happen(s, e))
  {
    hide Inv, FirstPending;
    if e.RunAnswer? {
      hide ToldOf, Happen, CanHappen;
      AnswerStillTold(s, e.a, e.ok);
    } else if e.LookupEnds? {
      hide ToldOf, Happen, CanHappen;
      LookupStillTold(s, e.first, e.found);
    } else {
      OthersStillTold(s, e);
    }
  }

  lemma {:induction false} OthersStillTold(s: State, e: Event)
    requires CanHappen(s, e) && ToldOf(s) && !e.RunAnswer? && !e.LookupEnds?
    ensures ToldOf(Happen(s, e))
  {}

  lemma {:induction false} EventTells(literal: bool, ok: bool, past: seq<Event>, s: State, e: Event)
    requires Tells(literal, ok, past, s) && Inv(s) && CanHappen(s, e)
    ensures Tells(literal, ok, past + [e], Happen(s, e))
  {
    EventMeans(s, e);
    EventStillTold(s, e);
    LiveCounts(past, e);
    hide Inv, ToldOf, Happen, CanHappen, Live, Stopped, Adoptions, Failures, Doublings, Matching, DelayAfter, Doubled;
    hide Fails, Adopts;
  }

  lemma {:induction false} EventDelays(literal: bool, ok: bool, past: seq<Event>, s: State, e: Event)
    requires Tells(literal, ok, past, s) && Delays(literal, ok, past, s) && Inv(s) && CanHappen(s, e)
    ensures Delays(literal, ok, past + [e], Happen(s, e))
  {
    assert ToldOf(s);
    hide Tells;
    EventMeans(s, e);
    LiveCounts(past, e);
    DelayDoubles((if literal && !ok then 1 else 0) + Doublings(Live(past)));
    hide Inv, ToldOf, Happen, CanHappen, Live, Stopped, Adoptions, Failures, Doublings, Matching, DelayAfter, Doubled;
    hide Fails, Adopts;
  }

  lemma {:induction false} EarlyMore(taken: bool, past: seq<Event>, e: Event)
    ensures Early(taken, past + [e]) == if taken || Adoptions(Live(past)) > 0 then Early(taken, past) else past + [e]
    ensures taken ==> Early(taken, past) == []
  {
    assert (past + [e])[..|past|] == past;
    hide Live, Adoptions;
  }

  lemma {:induction false} MoreSent(taken: bool, past: seq<Event>, s: State, e: Event)
    requires Sends(taken, past, s) && Inv(s) && CanHappen(s, e)
    ensures Sends(taken, past + [e], Happen(s, e))
  {
    EventSends(s, e);
    LiveCounts(past, e);
    CountMore(past, e);
    EarlyMore(taken, past, e);
    assert e == RunMessage(true) ==> !Adopts(e);
    hide Inv, Happen, CanHappen, Live, Stopped, Adoptions, Failures, Doublings, Matching, Early, Adopts, Fails;
  }

  lemma {:induction false} RunSends(taken: bool, past: seq<Event>, s: State, events: seq<Event>)
    requires Sends(taken, past, s) && Inv(s) && IsRun(s, events)
    ensures Sends(taken, past + events, After(s, events))
    decreases |events|
  {
    hide Sends, Inv, Happen, CanHappen;
    if events == [] {
      assert past + [] == past;
    } else {
      EventKeepsInv(s, events[0]);
      MoreSent(taken, past, s, events[0]);
      RunSends(taken, past + [events[0]], Happen(s, events[0]), events[1..]);
      assert past + [events[0]] + events[1..] == past + events;
    }
  }

  lemma {:induction false} ConstructedTells(literal: bool, ok: bool)
    ensures Tells(literal, ok, [], Constructed(literal, ok)) && Delays(literal, ok, [], Constructed(literal, ok))
    ensures Sends(literal && ok, [], Constructed(literal, ok))
  {
    NothingYet();
    ConstructedFields(literal, ok);
    hide Live, Stopped, Adoptions, Failures, Doublings, Matching, DelayAfter, Early, Constructed, ToldOf;
  }

  lemma {:induction false} ConstructedFields(literal: bool, ok: bool)
    ensures var s := Constructed(literal, ok);
            && !s.stopping && s.resolved == (literal && ok) && s.failureLines == (if literal && !ok then 1 else 0)
            && s.retryDelay == (if literal && !ok then 2 else 1) && s.matched == 0 && s.sent == 0
            && (s.io.timerArmed ==> s.io.expiry == s.retryDelay) && ToldOf(s)
  {}

  lemma {:induction false} NothingYet()
    ensures Live([]) == [] && !Stopped([]) && DelayAfter(0) == 1 && DelayAfter(1) == 2
    ensures Adoptions([]) == 0 && Failures([]) == 0 && Doublings([]) == 0 && Matching([]) == 0
    ensures forall taken :: Early(taken, []) == []
  {
    assert Pow2(0) == 1;
  }

  lemma {:induction false} RunTells(literal: bool, ok: bool, past: seq<Event>, s: State, events: seq<Event>)
    requires Tells(literal, ok, past, s) && Delays(literal, ok, past, s) && Inv(s) && IsRun(s, events)
    ensures Tells(literal, ok, past + events, After(s, events)) && Delays(literal, ok, past + events, After(s, events))
    decreases |events|
  {
    hide Tells, Delays, Inv, Happen, CanHappen;
    if events == [] {
      assert past + [] == past;
    } else {
      EventKeepsInv(s, events[0]);
      EventTells(literal, ok, past, s, events[0]);
      EventDelays(literal, ok, past, s, events[0]);
      RunTells(literal, ok, past + [events[0]], Happen(s, events[0]), events[1..]);
      assert past + [events[0]] + events[1..] == past + events;
    }
  }

  /**
   Every run from construction: the destination is known if and only if the literal was taken or a
   lookup before any stop found an address that could be used; one line is logged if and only if
   something failed before a stop; and the delay is 1 s doubled with every failure but that of a first
   lookup, at most 60 s.
   */
  lemma {:induction false} RunMeans(literal: bool, ok: bool, events: seq<Event>)
    requires IsRun(Constructed(literal, ok), events)
    ensures
      var s, live, refused := After(Constructed(literal, ok), events), Live(events), if literal && !ok then 1 else 0;
      var doubled := Pow2(refused + Doublings(live));
      && (s.resolved <==> (literal && ok) || Adoptions(live) > 0)
      && s.failureLines == (if refused + Failures(live) > 0 then 1 else 0)
      && s.retryDelay == (if doubled < 60 then doubled else 60)
  {
    ConstructedTells(literal, ok);
    ConstructedInv(literal, ok);
    hide Inv, After, IsRun, Constructed, ToldOf, Sends, Live, Stopped, Adoptions, Failures, Doublings, Matching, Pow2;
    RunTells(literal, ok, [], Constructed(literal, ok), events);
    assert [] + events == events;
  }

  /**
   A retry that is armed waits the delay. Of the matching messages, those handled before the destination
   was known are the ones announced as dropped, or still to be while it is not known; all the others were
   sent.
   */
  lemma {:induction false} RunDelivers(literal: bool, ok: bool, events: seq<Event>)
    requires IsRun(Constructed(literal, ok), events)
    ensures
      var s, early := After(Constructed(literal, ok), events), Matching(Early(literal && ok, events));
      && s.announced + s.dropped == early && (s.resolved ==> s.dropped == 0)
      && s.sent == Matching(events) - early
      && (s.io.timerArmed ==> s.io.expiry == s.retryDelay)
  {
    ConstructedTells(literal, ok);
    ConstructedInv(literal, ok);
    hide After, IsRun, Constructed, Tells, Live, Stopped, Adoptions, Matching, Early, Control, FirstPending;
    RunKeepsInv(Constructed(literal, ok), events);
    RunSends(literal && ok, [], Constructed(literal, ok), events);
    assert [] + events == events;
  }

  function Times(events: seq<Event>, f: Event -> bool): nat {
    if events == [] then 0 else (if f(events[0]) then 1 else 0) + Times(events[1..], f)
  }

  lemma {:induction false} EventQueues(s: State, e: Event)
    requires CanHappen(s, e)
    ensures var t := Happen(s, e);
            && t.io.messages == s.io.messages + (if e.CallForward? then 1 else 0) - (if e.RunMessage? then 1 else 0)
            && t.io.stops == s.io.stops + (if e.CallStop? then 1 else 0) - (if e.RunStop? then 1 else 0)
  {
    if e.RunAnswer? {
      AnswerQueues(s.(io := s.io.(answers := s.io.answers - multiset{e.a})), e.a, e.ok);
    }
    hide AfterAnswer;
  }

  lemma {:induction false} AnswerQueues(s: State, a: Answer, ok: bool)
    ensures var t := AfterAnswer(s, a, ok); t.io.messages == s.io.messages && t.io.stops == s.io.stops
  {
    hide Doubled;
  }

  /** Every call of forward() and of stop() queues one handler, which runs once. */
  lemma {:induction false} CallsRunOnce(s: State, events: seq<Event>)
    requires IsRun(s, events)
    ensures After(s, events).io.messages + Times(events, (e: Event) => e.RunMessage?)
         == s.io.messages + Times(events, (e: Event) => e.CallForward?)
    ensures After(s, events).io.stops + Times(events, (e: Event) => e.RunStop?)
         == s.io.stops + Times(events, (e: Event) => e.CallStop?)
    decreases |events|
  {
    hide Happen, CanHappen;
    if events != [] {
      EventQueues(s, events[0]);
      CallsRunOnce(Happen(s, events[0]), events[1..]);
    }
  }

  // ---- Shutdown ------------------------------------------------------------------------------------------------

  /** Steps left after a stop has run: a lookup that was past aborting is waited for, and every answer ignored. */
  function Work(s: State): nat {
    2 * |s.io.lookups| + |s.io.answers| + s.io.timerFired + s.io.timerCancelled + s.io.stops + s.io.messages
  }

  lemma {:induction false} StoppedWorkShrinks(s: State, e: Event)
    requires Inv(s) && s.stopping && CanHappen(s, e) && !e.CallStop? && !e.CallForward?
    ensures Work(Happen(s, e)) < Work(s)
  {
    match e
    case LookupEnds(first, found) => OneOf(s.io.lookups, first);
    case RunAnswer(a, ok) => OneOf(s.io.answers, a);
    case RunTimer(cancelled) =>
    case RunStop(aborts) => AbortedOnes(s.io.lookups);
    case RunMessage(matches) =>
  }

  lemma {:induction false} StoppedUnarmed(s: State)
    requires Inv(s) && s.stopping
    ensures !s.io.timerArmed
  {}

  /**
   After a stop the work left runs out in any order, and on the way no endpoint is adopted, no lookup
   is started and no retry is armed.
   */
  lemma {:induction false} ShutdownEnds(s: State, events: seq<Event>)
    requires Inv(s) && s.stopping && IsRun(s, events)
    requires forall i | 0 <= i < |events| :: !events[i].CallStop? && !events[i].CallForward?
    ensures |events| + Work(After(s, events)) <= Work(s)
    ensures var t := After(s, events); t.resolved == s.resolved && t.io.lookups <= s.io.lookups && !t.io.timerArmed
    decreases |events|
  {
    StoppedUnarmed(s);
    hide Inv, Happen, CanHappen, Work;
    if events != [] {
      EventKeepsInv(s, events[0]);
      StoppedWorkShrinks(s, events[0]);
      ShutdownEnds(Happen(s, events[0]), events[1..]);
    }
  }

  lemma {:induction false} SomeLookup(m: multiset<bool>)
    ensures m != multiset{} ==> true in m || false in m
  {
    assert forall b: bool :: b in m ==> b == true || b == false;
  }

  lemma {:induction false} WorkIsOutstanding(s: State)
    requires Inv(s) && s.stopping
    ensures Work(s) == 0 <==> Control(s) == 0 && s.io.stops == 0 && s.io.messages == 0
    ensures Work(s) > 0 ==> exists e: Event :: CanHappen(s, e) && !e.CallStop? && !e.CallForward?
  {
    if |s.io.lookups| > 0 {
      SomeLookup(s.io.lookups);
      assert CanHappen(s, LookupEnds(true, false)) || CanHappen(s, LookupEnds(false, false));
    } else if |s.io.answers| > 0 {
      var a :| a in s.io.answers;
      assert CanHappen(s, RunAnswer(a, false));
    } else if s.io.timerFired > 0 {
      assert CanHappen(s, RunTimer(false));
    } else if s.io.timerCancelled > 0 {
      assert CanHappen(s, RunTimer(true));
    } else if s.io.stops > 0 {
      assert CanHappen(s, RunStop(true));
    } else if s.io.messages > 0 {
      assert CanHappen(s, RunMessage(false));
    }
  }
}
