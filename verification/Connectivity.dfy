/** Connection state and adaptive batch size of the polling client. */
module Connectivity {
  import opened Wrappers

  datatype ConnectionState = Connected | Reconnecting | Disconnected

  /** `notified` is the sequence of states the listeners have been told. */
  datatype Monitor = Monitor(
    state: ConnectionState,
    consecutiveFailures: nat,
    wasRecentlyReconnected: bool,
    notified: seq<ConnectionState>)

  const FRESH_MONITOR := Monitor(Disconnected, 0, false, [])

  function Transition(m: Monitor, s: ConnectionState): Monitor {
    if m.state == s then m else m.(state := s, notified := m.notified + [s])
  }

  function AfterSuccess(m: Monitor): Monitor {
    var reconnected :=
      if m.state != Connected then m.state != Disconnected || m.consecutiveFailures > 0
      else m.wasRecentlyReconnected;
    Transition(m.(wasRecentlyReconnected := reconnected, consecutiveFailures := 0), Connected)
  }

  function AfterFailure(m: Monitor): Monitor {
    Transition(m.(consecutiveFailures := m.consecutiveFailures + 1), Disconnected)
  }

  function AfterAttempt(m: Monitor): Monitor {
    Transition(m, Reconnecting)
  }

  /** What the monitor is told; `Consume` is the user interface taking note of a reconnection. */
  datatype Signal = Success | Failure | Attempt | Consume

  /** A fresh monitor after any signals. */
  function AfterAll(signals: seq<Signal>): Monitor {
    if signals == [] then FRESH_MONITOR
    else
      var m := AfterAll(signals[..|signals| - 1]);
      match signals[|signals| - 1]
      case Success => AfterSuccess(m)
      case Failure => AfterFailure(m)
      case Attempt => AfterAttempt(m)
      case Consume => m.(wasRecentlyReconnected := false)
  }

  /** The failures since the last success. */
  function FailuresSince(signals: seq<Signal>): nat {
    if signals == [] then 0
    else
      var init, last := signals[..|signals| - 1], signals[|signals| - 1];
      if last.Success? then 0 else FailuresSince(init) + if last.Failure? then 1 else 0
  }

  /** The last signal about the connection. */
  function LastSignal(signals: seq<Signal>): (r: Option<Signal>)
    ensures r.Some? ==> !r.value.Consume?
  {
    if signals == [] then None
    else if signals[|signals| - 1].Consume? then LastSignal(signals[..|signals| - 1])
    else Some(signals[|signals| - 1])
  }

  function StateOf(last: Option<Signal>): ConnectionState {
    if last.None? then Disconnected
    else if last.value.Success? then Connected
    else if last.value.Attempt? then Reconnecting
    else Disconnected
  }

  /** Listeners never hear the same state twice in a row, nor first the state a monitor starts in. */
  predicate Alternates(notified: seq<ConnectionState>) {
    && (notified != [] ==> notified[0] != FRESH_MONITOR.state)
    && forall i :: 0 < i < |notified| ==> notified[i] != notified[i - 1]
  }

  /**
   * After any signals the state is that of the last one, the count is of the failures since the
   * last success, and the listeners have heard every change of state once.
   */
  lemma {:induction false} MonitorTracksCalls(signals: seq<Signal>)
    ensures var m := AfterAll(signals);
      && m.state == StateOf(LastSignal(signals))
      && m.consecutiveFailures == FailuresSince(signals)
      && m.state == (if m.notified == [] then FRESH_MONITOR.state else m.notified[|m.notified| - 1])
      && Alternates(m.notified)
  {
    if signals != [] { MonitorTracksCalls(signals[..|signals| - 1]); }
  }

  /** Signal `i` is a success after something other than a success, and no one has taken note since. */
  ghost predicate ReconnectedAt(signals: seq<Signal>, i: int) {
    && 0 <= i < |signals| && signals[i].Success?
    && LastSignal(signals[..i]).Some? && !LastSignal(signals[..i]).value.Success?
    && forall j :: i < j < |signals| ==> !signals[j].Consume?
  }

  lemma ReconnectedBefore(signals: seq<Signal>, i: int)
    requires signals != [] && i < |signals| - 1
    ensures ReconnectedAt(signals, i)
       <==> ReconnectedAt(signals[..|signals| - 1], i) && !signals[|signals| - 1].Consume?
  {
    if 0 <= i { assert signals[..|signals| - 1][..i] == signals[..i]; }
  }

  lemma {:induction false} FailuresAreSignals(signals: seq<Signal>)
    ensures FailuresSince(signals) > 0 ==> LastSignal(signals).Some? && !LastSignal(signals).value.Success?
    ensures LastSignal(signals) == Some(Failure) ==> FailuresSince(signals) > 0
  {
    if signals != [] { FailuresAreSignals(signals[..|signals| - 1]); }
  }

  lemma {:induction false} SomeSignal(signals: seq<Signal>, i: nat)
    requires i < |signals| && !signals[i].Consume?
    ensures LastSignal(signals).Some?
  {
    if i < |signals| - 1 { SomeSignal(signals[..|signals| - 1], i); }
  }

  /** The reconnection flag is up exactly after a reconnection that no one has taken note of. */
  lemma {:induction false} FlagIff(signals: seq<Signal>)
    ensures AfterAll(signals).wasRecentlyReconnected <==> exists i :: ReconnectedAt(signals, i)
  {
    if signals != [] {
      var init, n := signals[..|signals| - 1], |signals| - 1;
      FlagIff(init);
      MonitorTracksCalls(init);
      FailuresAreSignals(init);
      if i :| ReconnectedAt(init, i) {
        ReconnectedBefore(signals, i);
        SomeSignal(init, i);
      }
      if i :| ReconnectedAt(signals, i) {
        if i < n { ReconnectedBefore(signals, i); } else { assert signals[..i] == init; }
      }
      if AfterAll(signals).wasRecentlyReconnected && !AfterAll(init).wasRecentlyReconnected {
        assert ReconnectedAt(signals, n);
      }
    }
  }

  class ConnectionMonitor {
    var state: ConnectionState
    var consecutiveFailures: nat
    var wasRecentlyReconnected: bool
    var notified: seq<ConnectionState>

    ghost function Contents(): Monitor
      reads this
    {
      Monitor(state, consecutiveFailures, wasRecentlyReconnected, notified)
    }

    constructor ()
      ensures Contents() == FRESH_MONITOR
    {
      state := Disconnected;
      consecutiveFailures := 0;
      wasRecentlyReconnected := false;
      notified := [];
    }

    method OnRpcSuccess()
      modifies this
      ensures Contents() == AfterSuccess(old(Contents()))
    {
      if state == Reconnecting || state == Disconnected {
        wasRecentlyReconnected := state != Disconnected || consecutiveFailures > 0;
      }
      consecutiveFailures := 0;
      DoTransition(Connected);
    }

    method OnRpcFailure()
      modifies this
      ensures Contents() == AfterFailure(old(Contents()))
    {
      consecutiveFailures := consecutiveFailures + 1;
      DoTransition(Disconnected);
    }

    method OnReconnectAttempt()
      modifies this
      ensures Contents() == AfterAttempt(old(Contents()))
    {
      DoTransition(Reconnecting);
    }

    method ClearRecentReconnection()
      modifies this
      ensures Contents() == old(Contents()).(wasRecentlyReconnected := false)
    {
      wasRecentlyReconnected := false;
    }

    method DoTransition(newState: ConnectionState)
      modifies this
      ensures Contents() == Transition(old(Contents()), newState)
    {
      if state == newState { return; }
      state := newState;
      notified := notified + [newState];
    }
  }

  datatype Limits = Limits(stable: int, conservative: int, upper: int)

  const DEFAULT_LIMITS := Limits(50, 5, 200)

  datatype Batch = Batch(maxCount: int, successes: nat)

  function Conservative(l: Limits): Batch {
    Batch(l.conservative, 0)
  }

  function Grown(l: Limits, b: Batch): Batch {
    var next := if b.maxCount < l.stable then Min(b.maxCount * 2, l.stable) else b.maxCount;
    Batch(Min(next, l.upper), b.successes + 1)
  }

  class AdaptiveBatchConfig {
    const limits: Limits
    var maxCount: int
    var successCountSinceReset: nat

    ghost function Contents(): Batch
      reads this
    {
      Batch(maxCount, successCountSinceReset)
    }

    constructor (limits: Limits)
      ensures this.limits == limits && Contents() == Batch(limits.stable, 0)
    {
      this.limits := limits;
      maxCount := limits.stable;
      successCountSinceReset := 0;
    }

    method OnReconnected()
      modifies this
      ensures Contents() == Conservative(limits)
    {
      maxCount := limits.conservative;
      successCountSinceReset := 0;
    }

    method OnSuccessfulPoll()
      modifies this
      ensures Contents() == Grown(limits, old(Contents()))
    {
      successCountSinceReset := successCountSinceReset + 1;
      if maxCount < limits.stable {
        maxCount := Min(maxCount * 2, limits.stable);
      }
      maxCount := Min(maxCount, limits.upper);
    }

    method OnPollFailure()
      modifies this
      ensures Contents() == Conservative(limits)
    {
      maxCount := limits.conservative;
      successCountSinceReset := 0;
    }
  }
}
