/** The watchdog: sessions whose output stays the same for too long are reported. */
module Watchdogs {
  import opened Wrappers
  import opened Events

  datatype SessionState = SessionState(lastOutput: Option<string>, lastActivity: real)

  datatype Timeout = Timeout(agent: string, silentMs: int)

  /** Python's conversion of a float to an integer. */
  function Truncated(x: real): (n: int)
    ensures x >= 0.0 ==> n as real <= x < n as real + 1.0
    ensures x <= 0.0 ==> n as real - 1.0 < x <= n as real
  {
    if x >= 0.0 then x.Floor else -((-x).Floor)
  }

  /** What a check leaves of a session; a failed capture leaves it alone. */
  function Observed(timeout: real, s: SessionState, now: real, output: Option<string>): SessionState {
    if output.None? then s
    else if s.lastOutput.None? || output != s.lastOutput then SessionState(output, now)
    else if now - s.lastActivity >= timeout then s.(lastActivity := now)
    else s
  }

  predicate Reports(timeout: real, s: SessionState, now: real, output: Option<string>) {
    output.Some? && s.lastOutput == output && now - s.lastActivity >= timeout
  }

  function SilentMs(from: real, to: real): int {
    Truncated((to - from) * 1000.0)
  }

  /** The reports about one agent, in order. */
  function About(ts: seq<Timeout>, agent: string): seq<int> {
    if ts == [] then []
    else About(ts[..|ts| - 1], agent) + if ts[|ts| - 1].agent == agent then [ts[|ts| - 1].silentMs] else []
  }

  lemma AboutAppend(ts: seq<Timeout>, t: Timeout, agent: string)
    ensures About(ts + [t], agent) == About(ts, agent) + if t.agent == agent then [t.silentMs] else []
  {
    assert (ts + [t])[..|ts|] == ts;
  }

  /** The reports a check makes of one session. */
  function Made(timeout: real, s: SessionState, now: real, output: Option<string>): seq<int> {
    if Reports(timeout, s, now, output) then [SilentMs(s.lastActivity, now)] else []
  }

  function Stamped(agent: string, ms: seq<int>): seq<Timeout> {
    if ms == [] then [] else [Timeout(agent, ms[0])] + Stamped(agent, ms[1..])
  }

  /** The reports about `agent` once the sessions outside `rest` are checked. */
  function MadeOf(timeout: real, before: map<string, SessionState>, rest: set<string>, now: real,
                  capture: string -> Option<string>, agent: string): seq<int> {
    if agent in before && agent !in rest then Made(timeout, before[agent], now, capture(agent)) else []
  }

  ghost predicate AllMade(timeout: real, before: map<string, SessionState>, rest: set<string>, now: real,
                          capture: string -> Option<string>, made: seq<Timeout>) {
    forall a :: About(made, a) == MadeOf(timeout, before, rest, now, capture, a)
  }

  /** Every session outside `rest` is as its check left it. */
  ghost predicate AllObserved(timeout: real, before: map<string, SessionState>, rest: set<string>, now: real,
                              capture: string -> Option<string>, sessions: map<string, SessionState>) {
    && sessions.Keys == before.Keys
    && forall a :: a in before ==>
         sessions[a] == if a in rest then before[a] else Observed(timeout, before[a], now, capture(a))
  }

  lemma OneMoreMade(timeout: real, before: map<string, SessionState>, rest: set<string>, now: real,
                    capture: string -> Option<string>, made: seq<Timeout>, a: string, more: seq<Timeout>)
    requires a in rest && rest <= before.Keys && AllMade(timeout, before, rest, now, capture, made)
    requires more == Stamped(a, Made(timeout, before[a], now, capture(a)))
    ensures AllMade(timeout, before, rest - {a}, now, capture, made + more)
  {
    if more == [] {
      assert made + more == made;
    } else {
      var t := Timeout(a, SilentMs(before[a].lastActivity, now));
      assert more == [t];
      forall b ensures About(made + more, b) == MadeOf(timeout, before, rest - {a}, now, capture, b) {
        AboutAppend(made, t, b);
        assert About(made, b) == MadeOf(timeout, before, rest, now, capture, b);
      }
    }
  }

  class Watchdog {
    const timeoutSeconds: real
    var sessions: map<string, SessionState>
    var events: seq<Timeout>

    constructor (timeoutSeconds: real := 60.0)
      ensures this.timeoutSeconds == timeoutSeconds && sessions == map[] && events == []
    {
      this.timeoutSeconds := timeoutSeconds;
      sessions := map[];
      events := [];
    }

    /** Starts monitoring, afresh if the agent was monitored already. */
    method RegisterSession(agent: string, now: real)
      modifies this`sessions
      ensures sessions == old(sessions)[agent := SessionState(None, now)]
    {
      sessions := sessions[agent := SessionState(None, now)];
    }

    method UnregisterSession(agent: string)
      modifies this`sessions
      ensures sessions == old(sessions) - {agent}
    {
      sessions := sessions - {agent};
    }

    /** The report and the update for one session. */
    method CheckSession(agent: string, now: real, output: Option<string>)
      requires agent in sessions
      modifies this
      ensures sessions == old(sessions)[agent := Observed(timeoutSeconds, old(sessions)[agent], now, output)]
      ensures events == old(events) + Stamped(agent, Made(timeoutSeconds, old(sessions)[agent], now, output))
    {
      var state := sessions[agent];
      if output.None? { return; }
      if state.lastOutput.None? || output != state.lastOutput {
        state := SessionState(output, now);
      } else {
        var silentSeconds := now - state.lastActivity;
        if silentSeconds >= timeoutSeconds {
          events := events + [Timeout(agent, Truncated(silentSeconds * 1000.0))];
          state := state.(lastActivity := now);
        }
      }
      sessions := sessions[agent := state];
    }

    /** One check cycle; `capture` is what each pane shows, or nothing if it cannot be captured. */
    method CheckSessions(now: real, capture: string -> Option<string>)
      modifies this
      ensures AllObserved(timeoutSeconds, old(sessions), {}, now, capture, sessions)
      ensures old(events) <= events
      ensures AllMade(timeoutSeconds, old(sessions), {}, now, capture, events[|old(events)|..])
    {
      var rest := sessions.Keys;
      ghost var before := sessions;
      ghost var made: seq<Timeout> := [];
      while rest != {}
        invariant rest <= before.Keys
        invariant AllObserved(timeoutSeconds, before, rest, now, capture, sessions)
        invariant AllMade(timeoutSeconds, before, rest, now, capture, made)
        invariant events == old(events) + made
      {
        var a :| a in rest;
        ghost var more := Stamped(a, Made(timeoutSeconds, before[a], now, capture(a)));
        OneMoreMade(timeoutSeconds, before, rest, now, capture, made, a, more);
        CheckSession(a, now, capture(a));
        made := made + more;
        rest := rest - {a};
      }
      assert events[|old(events)|..] == made;
    }
  }

  // ---- One registration over all its checks ----

  datatype Check = Check(now: real, output: Option<string>)

  /** A report by the checks it lies between. */
  datatype Report = Report(first: nat, last: nat, silentMs: int)

  /** A session with a history: the check that last reset its timer, and the reports made. */
  datatype Trace = Trace(state: SessionState, since: nat, reports: seq<Report>)

  function Watch(timeout: real, start: real, checks: seq<Check>): Trace {
    if checks == [] then Trace(SessionState(None, start), 0, [])
    else
      var n := |checks| - 1;
      var t, c := Watch(timeout, start, checks[..n]), checks[n];
      var s := Observed(timeout, t.state, c.now, c.output);
      if Reports(timeout, t.state, c.now, c.output) then
        Trace(s, n, t.reports + [Report(t.since, n, SilentMs(t.state.lastActivity, c.now))])
      else if c.output.Some? && c.output != t.state.lastOutput then Trace(s, n, t.reports)
      else t
  }

  /** The clock never runs backwards from registration on. */
  predicate ClockRuns(start: real, checks: seq<Check>) {
    checks != [] ==>
      var n := |checks| - 1;
      ClockRuns(start, checks[..n]) && (if n == 0 then start else checks[n - 1].now) <= checks[n].now
  }

  function LastNow(start: real, checks: seq<Check>): real {
    if checks == [] then start else checks[|checks| - 1].now
  }

  function TotalMs(rs: seq<Report>): int {
    if rs == [] then 0 else TotalMs(rs[..|rs| - 1]) + rs[|rs| - 1].silentMs
  }

  /** From `first` to `last` every captured output is the same, and there is one at either end. */
  predicate Unchanged(checks: seq<Check>, first: nat, last: nat) {
    && first < last < |checks| && checks[first].output.Some? && checks[last].output == checks[first].output
    && forall j :: first <= j <= last ==> checks[j].output.None? || checks[j].output == checks[first].output
  }

  predicate ReportOk(timeout: real, checks: seq<Check>, r: Report) {
    && Unchanged(checks, r.first, r.last)
    && checks[r.last].now - checks[r.first].now >= timeout
    && r.silentMs == SilentMs(checks[r.first].now, checks[r.last].now)
  }

  /** Every report begins no earlier than the one before it ended. */
  predicate Apart(rs: seq<Report>) {
    forall i, j :: 0 <= i < j < |rs| ==> rs[i].last <= rs[j].first
  }

  predicate ReportsOk(timeout: real, checks: seq<Check>, t: Trace) {
    && (forall i :: 0 <= i < |t.reports| ==> ReportOk(timeout, checks, t.reports[i]) && t.reports[i].last <= t.since)
    && Apart(t.reports)
  }

  predicate StateOk(start: real, checks: seq<Check>, t: Trace) {
    if t.state.lastOutput.None? then
      && t.reports == [] && t.state.lastActivity == start && forall j :: 0 <= j < |checks| ==> checks[j].output.None?
    else
      && t.since < |checks| && t.state.lastActivity == checks[t.since].now
      && checks[t.since].output == t.state.lastOutput
      && forall j :: t.since <= j < |checks| ==> checks[j].output.None? || checks[j].output == t.state.lastOutput
  }

  /**
   * Silence is never counted twice: the reports of a registration do not overlap, each is at
   * least the timeout long, and no change of output was seen within any.
   */
  lemma {:induction false} SilenceIsReportedOnce(timeout: real, start: real, checks: seq<Check>)
    ensures StateOk(start, checks, Watch(timeout, start, checks))
    ensures ReportsOk(timeout, checks, Watch(timeout, start, checks))
  {
    if checks != [] {
      var n := |checks| - 1;
      SilenceIsReportedOnce(timeout, start, checks[..n]);
      var t, t' := Watch(timeout, start, checks[..n]), Watch(timeout, start, checks);
      forall i | 0 <= i < |t.reports| ensures ReportOk(timeout, checks, t.reports[i]) {
        assert ReportOk(timeout, checks[..n], t.reports[i]);
      }
    }
  }

  lemma SilentMsBound(from: real, to: real)
    requires from <= to
    ensures 0 <= SilentMs(from, to)
    ensures SilentMs(from, to) as real <= (to - from) * 1000.0 < SilentMs(from, to) as real + 1.0
  {
  }

  /** And so the reported milliseconds sum to no more than the time since registration. */
  lemma {:induction false} TotalSilence(timeout: real, start: real, checks: seq<Check>)
    requires ClockRuns(start, checks)
    ensures var t := Watch(timeout, start, checks);
      && start <= t.state.lastActivity <= LastNow(start, checks)
      && TotalMs(t.reports) as real <= (t.state.lastActivity - start) * 1000.0
  {
    if checks != [] {
      var n := |checks| - 1;
      TotalSilence(timeout, start, checks[..n]);
      var t, t' := Watch(timeout, start, checks[..n]), Watch(timeout, start, checks);
      if Reports(timeout, t.state, checks[n].now, checks[n].output) {
        SilentMsBound(t.state.lastActivity, checks[n].now);
        assert t'.reports[..|t.reports|] == t.reports;
      }
    }
  }

  /** A report says how long the output had been seen unchanged, to the millisecond, and no less than the timeout. */
  lemma ReportIsExact(timeout: real, start: real, checks: seq<Check>, i: nat)
    requires ClockRuns(start, checks) && i < |Watch(timeout, start, checks).reports|
    ensures var r := Watch(timeout, start, checks).reports[i];
      && r.first < r.last < |checks|
      && r.silentMs as real <= (checks[r.last].now - checks[r.first].now) * 1000.0 < r.silentMs as real + 1.0
      && r.silentMs as real > timeout * 1000.0 - 1.0
  {
    SilenceIsReportedOnce(timeout, start, checks);
    var r := Watch(timeout, start, checks).reports[i];
    assert ReportOk(timeout, checks, r);
    ClockBetween(start, checks, r.first, r.last);
    SilentMsBound(checks[r.first].now, checks[r.last].now);
  }

  lemma {:induction false} ClockBetween(start: real, checks: seq<Check>, i: nat, j: nat)
    requires ClockRuns(start, checks) && i <= j < |checks|
    ensures checks[i].now <= checks[j].now
  {
    var n := |checks| - 1;
    if i < j {
      if j < n {
        ClockBetween(start, checks[..n], i, j);
      } else {
        ClockBetween(start, checks[..n], i, j - 1);
      }
    } else if j < n {
      ClockBetween(start, checks[..n], i, j);
    }
  }

  lemma SilenceWithinRegistration(timeout: real, start: real, checks: seq<Check>)
    requires ClockRuns(start, checks)
    ensures TotalMs(Watch(timeout, start, checks).reports) as real <= (LastNow(start, checks) - start) * 1000.0
  {
    TotalSilence(timeout, start, checks);
  }

  // ---- No silence goes unreported ----

  /** The last output captured. */
  function LastOutput(checks: seq<Check>): Option<string> {
    if checks == [] then None
    else
      var n := |checks| - 1;
      if checks[n].output.Some? then checks[n].output else LastOutput(checks[..n])
  }

  /** The check that first captured the last output. */
  function LastChange(checks: seq<Check>): nat {
    if checks == [] then 0
    else
      var n := |checks| - 1;
      if checks[n].output.Some? && checks[n].output != LastOutput(checks[..n]) then n else LastChange(checks[..n])
  }

  /** The last reports follow on one another without a gap from check `c` to check `k`. */
  predicate Covered(rs: seq<Report>, c: nat, k: nat)
    decreases |rs|
  {
    k == c || (rs != [] && rs[|rs| - 1].last == k && rs[|rs| - 1].first < k
               && Covered(rs[..|rs| - 1], c, rs[|rs| - 1].first))
  }

  lemma CoveredBy(rs: seq<Report>, r: Report, c: nat)
    requires Covered(rs, c, r.first) && r.first < r.last
    ensures Covered(rs + [r], c, r.last)
  {
    assert (rs + [r])[..|rs|] == rs;
  }

  /**
   * The reports cover all of the time from the check that first captured the present output to
   * the one that last reset the timer, with no gap and no overlap.
   */
  lemma {:induction false} SilenceIsCovered(timeout: real, start: real, checks: seq<Check>)
    ensures var t := Watch(timeout, start, checks);
      && t.state.lastOutput == LastOutput(checks)
      && (t.state.lastOutput.Some? ==> t.since < |checks| && Covered(t.reports, LastChange(checks), t.since))
  {
    if checks != [] {
      var n := |checks| - 1;
      var t, c := Watch(timeout, start, checks[..n]), checks[n];
      SilenceIsCovered(timeout, start, checks[..n]);
      if Reports(timeout, t.state, c.now, c.output) {
        CoveredBy(t.reports, Report(t.since, n, SilentMs(t.state.lastActivity, c.now)), LastChange(checks[..n]));
      }
    }
  }

  /** Nor is any silence missed: after a captured check less than the timeout is unreported. */
  lemma SilenceIsReportedInTime(timeout: real, start: real, checks: seq<Check>)
    requires timeout > 0.0 && checks != [] && checks[|checks| - 1].output.Some?
    ensures LastNow(start, checks) - Watch(timeout, start, checks).state.lastActivity < timeout
  {
  }
}
