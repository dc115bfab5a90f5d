/**
 The two policies that pace retries and keep the system log from filling: one for the receive
 socket, one for a sink closed by a filesystem error. Times are in milliseconds.
 */
module RateLimit {
  import opened Options

  const FIRST_DELAY := 50
  const MAX_DELAY := 1000
  const REPORT_INTERVAL := 60000

  // ---- The receive socket ------------------------------------------------------------

  datatype Backoff = Backoff(streak: nat, unreported: nat, streakReported: bool, delay: nat, lastReport: Option<int>)

  datatype Decision = Decision(delay: nat, report: bool, suppressed: nat)

  const QUIET := Backoff(0, 0, false, 0, None)

  function AfterError(s: Backoff, now: int): (Backoff, Decision) {
    var delay := if s.streak == 0 then FIRST_DELAY else if s.delay * 2 < MAX_DELAY then s.delay * 2 else MAX_DELAY;
    if s.lastReport == None || now - s.lastReport.value >= REPORT_INTERVAL then
      (Backoff(s.streak + 1, 0, true, delay, Some(now)),
       Decision(delay, true, if s.lastReport == None then 0 else s.unreported + 1))
    else
      (Backoff(s.streak + 1, s.unreported + 1, s.streakReported, delay, s.lastReport), Decision(delay, false, 0))
  }

  function AfterSuccess(s: Backoff): (Backoff, nat) {
    (s.(streak := 0, streakReported := false, delay := 0), if s.streakReported then s.streak else 0)
  }

  class ReceiveBackoff {
    var streak: nat
    var unreported: nat
    var streakReported: bool
    var delay: nat
    var lastReport: Option<int>

    function State(): Backoff
      reads this
    {
      Backoff(streak, unreported, streakReported, delay, lastReport)
    }

    constructor ()
      ensures State() == QUIET
    {
      streak, unreported, streakReported, delay, lastReport := 0, 0, false, 0, None;
    }

    method OnError(now: int) returns (decision: Decision)
      modifies this
      ensures (State(), decision) == AfterError(old(State()), now)
    {
      decision := Decision(0, false, 0);
      streak := streak + 1;
      unreported := unreported + 1;
      delay := if streak == 1 then FIRST_DELAY else if delay * 2 < MAX_DELAY then delay * 2 else MAX_DELAY;
      decision := decision.(delay := delay);
      if lastReport == None || now - lastReport.value >= REPORT_INTERVAL {
        decision := decision.(report := true);
        if lastReport != None {
          decision := decision.(suppressed := unreported);
        }
        unreported := 0;
        lastReport := Some(now);
        streakReported := true;
      }
    }

    method OnSuccess() returns (ended: nat)
      modifies this
      ensures (State(), ended) == AfterSuccess(old(State()))
    {
      ended := if streakReported then streak else 0;
      streak := 0;
      streakReported := false;
      delay := 0;
    }
  }

  /** What happens to the receive socket. */
  datatype Event = Failed(now: int) | Received

  /** A run: the policy's state, and what an observer has counted and seen written. */
  datatype Run = Run(
    state: Backoff, errors: nat, reports: seq<int>, suppressed: nat, recoveries: nat, reportedErrors: nat, lastDelay: nat)

  function Next(r: Run, e: Event): Run {
    match e
    case Failed(now) =>
      var (s, d) := AfterError(r.state, now);
      Run(s, r.errors + 1, if d.report then r.reports + [now] else r.reports, r.suppressed + d.suppressed,
          r.recoveries, r.reportedErrors, d.delay)
    case Received =>
      var (s, ended) := AfterSuccess(r.state);
      r.(state := s, recoveries := r.recoveries + if ended > 0 then 1 else 0, reportedErrors := r.reportedErrors + ended)
  }

  function RunOf(events: seq<Event>): Run {
    if events == [] then Run(QUIET, 0, [], 0, 0, 0, 0)
    else Next(RunOf(events[..|events| - 1]), events[|events| - 1])
  }

  /** Errors at the end of the run with no success after them. */
  function Consecutive(events: seq<Event>): nat {
    if events == [] || events[|events| - 1].Received? then 0 else 1 + Consecutive(events[..|events| - 1])
  }

  function Pow2(n: nat): nat {
    if n == 0 then 1 else 2 * Pow2(n - 1)
  }

  /** The delay a streak of k errors asks for. */
  function DelayOf(k: nat): nat {
    if k == 0 then 0 else if FIRST_DELAY * Pow2(k - 1) < MAX_DELAY then FIRST_DELAY * Pow2(k - 1) else MAX_DELAY
  }

  lemma {:induction false} DelayGrows(k: nat)
    requires k >= 1
    ensures DelayOf(k + 1) == if DelayOf(k) * 2 < MAX_DELAY then DelayOf(k) * 2 else MAX_DELAY
  {
    assert Pow2(k) == 2 * Pow2(k - 1);
  }

  /** Any two of the times are at least a report interval apart, in order. */
  ghost predicate Spaced(times: seq<int>) {
    forall i, j | 0 <= i < j < |times| :: times[j] - times[i] >= 60000
  }

  lemma {:induction false} NoneSpaced()
    ensures Spaced([])
  {}

  lemma {:induction false} SpacedMore(times: seq<int>, now: int)
    requires Spaced(times) && (times != [] ==> now - times[|times| - 1] >= 60000)
    ensures Spaced(times + [now])
  {}

  /**
   Every run, successes or not between the errors: reports are a full interval apart, every error is
   the first report, in a summary or still to be summarised, and no recovery is announced that was
   not reported.
   */
  lemma {:induction false} BackoffRuns(events: seq<Event>)
    ensures
      var r := RunOf(events);
      && Spaced(r.reports)
      && r.state.lastReport == (if r.reports == [] then None else Some(r.reports[|r.reports| - 1]))
      && r.errors == (if r.reports == [] then 0 else 1) + r.suppressed + r.state.unreported
      && (r.reports == [] ==> r.errors == 0)
      && r.recoveries + (if r.state.streakReported then 1 else 0) <= |r.reports|
      && r.reportedErrors + r.state.streak <= r.errors
  {
    if events != [] {
      var before, e := RunOf(events[..|events| - 1]), events[|events| - 1];
      BackoffRuns(events[..|events| - 1]);
      RunStep(events);
      hide RunOf, Spaced;
      if e.Failed? && AfterError(before.state, e.now).1.report {
        SpacedMore(before.reports, e.now);
      }
    }
  }

  /**
   An error is reported, at once, if and only if there has been no report yet or the last one is at
   least a minute old, and a report leaves nothing unreported: each error so far is the first report or
   in some summary.
   */
  lemma {:induction false} ReportedWhenDue(events: seq<Event>, now: int)
    ensures
      var before, r := RunOf(events), RunOf(events + [Failed(now)]);
      var due := before.reports == [] || now - before.reports[|before.reports| - 1] >= 60000;
      && r.reports == (if due then before.reports + [now] else before.reports)
      && (due ==> r.errors == 1 + r.suppressed)
      && r.errors == before.errors + 1
  {
    BackoffRuns(events);
    BackoffRuns(events + [Failed(now)]);
    RunMore(events, Failed(now));
    hide RunOf, Spaced;
  }

  lemma {:induction false} RunMore(events: seq<Event>, e: Event)
    ensures RunOf(events + [e]) == Next(RunOf(events), e)
    ensures Consecutive(events + [e]) == if e.Received? then 0 else 1 + Consecutive(events)
  {
    assert (events + [e])[..|events|] == events;
  }

  /** The run up to the streak it ends in. */
  function BeforeStreak(events: seq<Event>): seq<Event> {
    if events == [] || events[|events| - 1].Received? then events else BeforeStreak(events[..|events| - 1])
  }

  lemma {:induction false} StreakReported(events: seq<Event>)
    ensures RunOf(events).state.streakReported <==> |RunOf(events).reports| > |RunOf(BeforeStreak(events)).reports|
    ensures |RunOf(events).reports| >= |RunOf(BeforeStreak(events)).reports|
  {
    if events != [] {
      RunStep(events);
      StreakReported(events[..|events| - 1]);
      hide RunOf;
    }
  }

  /**
   A datagram ends the streak, and the end is announced, with the streak's length, if and only if an
   error of that streak was reported; the next error starts again from the shortest delay.
   */
  lemma {:induction false} RecoveryAnnounced(events: seq<Event>, now: int)
    ensures
      var before, r, k := RunOf(events), RunOf(events + [Received]), Consecutive(events);
      var announced := |before.reports| > |RunOf(BeforeStreak(events)).reports|;
      && r.recoveries == before.recoveries + (if announced then 1 else 0)
      && r.reportedErrors == before.reportedErrors + (if announced then k else 0)
      && r.reports == before.reports
      && RunOf(events + [Received] + [Failed(now)]).lastDelay == 50
  {
    StreakReported(events);
    BackoffDelays(events);
    StreakPositive(events);
    RunMore(events, Received);
    RunMore(events + [Received], Failed(now));
    hide RunOf;
  }

  lemma {:induction false} StreakPositive(events: seq<Event>)
    ensures Consecutive(events) == 0 ==> BeforeStreak(events) == events
  {}

  /** The k-th consecutive error asks for 50 ms doubled k - 1 times, at most a second. */
  lemma {:induction false} BackoffDelays(events: seq<Event>)
    ensures
      var r := RunOf(events);
      && r.state.streak == Consecutive(events)
      && r.state.delay == DelayOf(Consecutive(events))
      && (events != [] && events[|events| - 1].Failed? ==>
            var doubled := 50 * Pow2(Consecutive(events) - 1);
            r.lastDelay == DelayOf(Consecutive(events)) == if doubled < 1000 then doubled else 1000)
  {
    if events != [] {
      BackoffDelays(events[..|events| - 1]);
      RunStep(events);
      DelayBase();
      var k := Consecutive(events[..|events| - 1]);
      if k >= 1 {
        DelayGrows(k);
      }
      hide RunOf, DelayOf;
    }
  }

  lemma {:induction false} RunStep(events: seq<Event>)
    requires events != []
    ensures RunOf(events) == Next(RunOf(events[..|events| - 1]), events[|events| - 1])
  {}

  lemma {:induction false} DelayBase()
    ensures DelayOf(0) == 0 && DelayOf(1) == FIRST_DELAY
  {}

  // ---- A closed sink ----------------------------------------------------------------------

  datatype Recovery = Recovery(failures: nat, unreported: nat, closedSince: int, lastReport: int)

  datatype Verdict = Verdict(report: bool, firstFailure: bool, suppressed: nat, closedFor: int)

  datatype Outage = Outage(closedFor: int, failures: nat)

  /** Whole seconds, as a duration_cast truncates them. */
  function Seconds(ms: int): int {
    if ms >= 0 then ms / 1000 else -(-ms / 1000)
  }

  function AfterFailure(s: Recovery, now: int): (r: (Recovery, Verdict))
    ensures r.0.failures == s.failures + 1
  {
    if s.failures == 0 then
      (Recovery(1, s.unreported, now, now), Verdict(true, true, 0, 0))
    else if now - s.lastReport >= REPORT_INTERVAL then
      (Recovery(s.failures + 1, 0, s.closedSince, now),
       Verdict(true, false, s.unreported + 1, Seconds(now - s.closedSince)))
    else
      (s.(failures := s.failures + 1, unreported := s.unreported + 1), Verdict(false, false, 0, 0))
  }

  function AfterRecovery(s: Recovery, now: int): (r: (Recovery, Outage))
    ensures r.0.failures == 0
  {
    if s.failures == 0 then (s, Outage(0, 0))
    else (s.(failures := 0, unreported := 0), Outage(Seconds(now - s.closedSince), s.failures))
  }

  class SinkRecovery {
    var failures: nat
    var unreported: nat
    var closedSince: int
    var lastReport: int

    function State(): Recovery
      reads this
    {
      Recovery(failures, unreported, closedSince, lastReport)
    }

    constructor ()
      ensures State().failures == 0 && State().unreported == 0
    {
      failures, unreported := 0, 0;
    }

    method OnFailure(now: int) returns (decision: Verdict)
      modifies this
      ensures (State(), decision) == AfterFailure(old(State()), now)
    {
      decision := Verdict(false, false, 0, 0);
      if failures == 0 {
        closedSince := now;
        lastReport := now;
        failures := 1;
        decision := decision.(report := true, firstFailure := true);
        return;
      }
      failures := failures + 1;
      unreported := unreported + 1;
      if now - lastReport >= REPORT_INTERVAL {
        decision := Verdict(true, false, unreported, Seconds(now - closedSince));
        unreported := 0;
        lastReport := now;
      }
    }

    method OnRecovered(now: int) returns (outage: Outage)
      modifies this
      ensures (State(), outage) == AfterRecovery(old(State()), now)
    {
      if failures == 0 {
        return Outage(0, 0);
      }
      outage := Outage(Seconds(now - closedSince), failures);
      failures := 0;
      unreported := 0;
    }
  }

  /** What happens to a sink. */
  datatype SinkEvent = SinkFailed(now: int) | SinkReopened(now: int)

  /** A run of a sink: what was reported of the outage now going on, and of every recovery. */
  datatype SinkRun = SinkRun(
    state: Recovery, reports: seq<int>, suppressed: nat, failuresInOutage: nat, lastVerdict: Verdict, lastOutage: Outage)

  function NextOfSink(r: SinkRun, e: SinkEvent): SinkRun {
    match e
    case SinkFailed(now) =>
      var (s, d) := AfterFailure(r.state, now);
      SinkRun(s, if d.report then r.reports + [now] else r.reports, r.suppressed + d.suppressed,
              r.failuresInOutage + 1, d, r.lastOutage)
    case SinkReopened(now) =>
      var (s, o) := AfterRecovery(r.state, now);
      SinkRun(s, [], 0, 0, r.lastVerdict, o)
  }

  function SinkRunOf(events: seq<SinkEvent>): SinkRun {
    if events == [] then SinkRun(Recovery(0, 0, 0, 0), [], 0, 0, Verdict(false, false, 0, 0), Outage(0, 0))
    else NextOfSink(SinkRunOf(events[..|events| - 1]), events[|events| - 1])
  }

  /** Failures since the sink last reopened. */
  function FailuresAtEnd(events: seq<SinkEvent>): nat {
    if events == [] || events[|events| - 1].SinkReopened? then 0 else 1 + FailuresAtEnd(events[..|events| - 1])
  }

  /** The time of the failure that opened the outage now going on. */
  function OutageStart(events: seq<SinkEvent>): int
    requires FailuresAtEnd(events) > 0
  {
    var n := |events| - 1;
    if FailuresAtEnd(events[..n]) == 0 then events[n].now else OutageStart(events[..n])
  }

  /**
   Every run of a sink: within one outage the first failure is reported at once and reports are a
   full interval apart, each failure is the first, in a summary or still to be summarised, and a
   recovery tells how many failures the outage took and how long it lasted.
   */
  lemma {:induction false} SinkRuns(events: seq<SinkEvent>)
    ensures
      var r := SinkRunOf(events);
      && Spaced(r.reports)
      && r.state.failures == r.failuresInOutage == FailuresAtEnd(events)
      && (r.reports == [] <==> r.state.failures == 0)
      && (r.reports != [] ==>
            && r.reports[0] == r.state.closedSince == OutageStart(events)
            && r.state.lastReport == r.reports[|r.reports| - 1])
      && r.state.failures == (if r.reports == [] then 0 else 1) + r.suppressed + r.state.unreported
      && (events != [] && events[|events| - 1].SinkReopened? ==>
            var before := events[..|events| - 1];
            r.lastOutage == if FailuresAtEnd(before) == 0 then Outage(0, 0)
                            else Outage(Seconds(events[|events| - 1].now - OutageStart(before)), FailuresAtEnd(before)))
  {
    if events != [] {
      var n := |events| - 1;
      var before, e := SinkRunOf(events[..n]), events[n];
      SinkRuns(events[..n]);
      NoneSpaced();
      hide SinkRunOf, Spaced;
      SinkRunStep(events);
      if e.SinkFailed? && AfterFailure(before.state, e.now).1.report {
        SpacedMore(before.reports, e.now);
      }
    }
  }

  lemma {:induction false} SinkRunStep(events: seq<SinkEvent>)
    requires events != []
    ensures SinkRunOf(events) == NextOfSink(SinkRunOf(events[..|events| - 1]), events[|events| - 1])
  {}

  lemma {:induction false} SinkRunMore(events: seq<SinkEvent>, e: SinkEvent)
    ensures SinkRunOf(events + [e]) == NextOfSink(SinkRunOf(events), e)
    ensures FailuresAtEnd(events + [e]) == if e.SinkReopened? then 0 else 1 + FailuresAtEnd(events)
    ensures e.SinkFailed? ==>
              OutageStart(events + [e]) == if FailuresAtEnd(events) == 0 then e.now else OutageStart(events)
  {
    assert (events + [e])[..|events|] == events;
  }

  /** Truncated to whole seconds. */
  lemma {:induction false} SecondsTruncate(ms: int)
    ensures ms >= 0 ==> 1000 * Seconds(ms) <= ms < 1000 * Seconds(ms) + 1000
    ensures Seconds(-ms) == -Seconds(ms)
  {}

  /**
   A failure is reported, at once, if and only if it opens the outage or the last report of the outage
   is at least a minute old. A later report sums up every failure not yet reported and tells how long
   the sink has been closed.
   */
  lemma {:induction false} SinkReportedWhenDue(events: seq<SinkEvent>, now: int)
    ensures
      var before, r := SinkRunOf(events), SinkRunOf(events + [SinkFailed(now)]);
      var first := FailuresAtEnd(events) == 0;
      var due := first || (before.reports != [] && now - before.reports[|before.reports| - 1] >= 60000);
      && r.reports == (if due then before.reports + [now] else before.reports)
      && (due ==> FailuresAtEnd(events) + 1 == 1 + r.suppressed)
      && r.lastVerdict.report == due && r.lastVerdict.firstFailure == first
      && r.lastVerdict.suppressed == r.suppressed - before.suppressed
      && r.lastVerdict.closedFor == if due && !first then Seconds(now - OutageStart(events)) else 0
  {
    SinkRuns(events);
    SinkRuns(events + [SinkFailed(now)]);
    SinkRunMore(events, SinkFailed(now));
    hide SinkRunOf, Spaced, Seconds;
  }
}
