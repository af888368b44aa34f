/**
 * When a GetBitmap call replies: its deadline in terms of the time it was made, the replies that
 * come once the deadline has passed or the client has gone, and what is recorded as sent.
 */
module GetBitmapReplies {
  import opened Wrappers
  import opened Events
  import opened GetBitmapWake

  // ---- A call keeps what it was made with ----

  /** Call `id` is made in step `c`. */
  predicate MadeAt(steps: seq<Action>, id: nat, c: nat) {
    c < |steps| && steps[c].Call? && steps[c].caller == id && id !in Run(steps[..c]).waiters
  }

  /** The time is up of a call made at `at` that waits `waitMs` thousandths of a second. */
  predicate Expired(at: real, waitMs: int, now: real) {
    waitMs <= 0 || at + waitMs as real / 1000.0 <= now
  }

  predicate Gone(steps: seq<Action>, id: nat, c: nat) {
    exists j :: c < j < |steps| && steps[j] == Disconnect(id)
  }

  lemma GoneGrows(steps: seq<Action>, id: nat, c: nat)
    requires c + 1 < |steps|
    ensures Gone(steps, id, c) <==> Gone(steps[..|steps| - 1], id, c) || steps[|steps| - 1] == Disconnect(id)
  {
    var init := steps[..|steps| - 1];
    if j :| c < j < |init| && init[j] == Disconnect(id) { assert steps[j] == Disconnect(id); }
    if j :| c < j < |steps| && steps[j] == Disconnect(id) {
      if j < |init| { assert init[j] == Disconnect(id); }
    }
  }

  /** The call is as it was made, and its client is connected until it is gone. */
  ghost predicate AsMade(steps: seq<Action>, id: nat, c: nat, s: System)
    requires c < |steps| && steps[c].Call?
  {
    && id in s.waiters
    && var w := s.waiters[id];
      && w.client == steps[c].client && w.key == steps[c].key && w.waitMs == steps[c].waitMs
      && w.deadline == (if w.waitMs > 0 then Run(steps[..c]).now + w.waitMs as real / 1000.0 else 0.0)
      && (w.active <==> !Gone(steps, id, c))
  }

  lemma {:induction false} ClockStarts(steps: seq<Action>)
    ensures 0.0 <= Run(steps).now
  {
    if steps != [] { ClockStarts(steps[..|steps| - 1]); }
  }

  lemma StepKeepsCall(s: System, a: Action, id: nat)
    requires id in s.waiters
    ensures id in Next(s, a).waiters
    ensures var w, w' := s.waiters[id], Next(s, a).waiters[id];
      && w'.client == w.client && w'.key == w.key && w'.waitMs == w.waitMs && w'.deadline == w.deadline
      && (w'.active <==> w.active && a != Disconnect(id))
  {
  }

  lemma {:induction false} CallIsKept(steps: seq<Action>, id: nat, c: nat)
    requires MadeAt(steps, id, c)
    ensures AsMade(steps, id, c, Run(steps))
  {
    var init := steps[..|steps| - 1];
    assert steps[..|steps|] == steps;
    if c == |steps| - 1 {
      assert !Gone(steps, id, c);
    } else {
      assert init[..c] == steps[..c] && init[c] == steps[c];
      CallIsKept(init, id, c);
      StepKeepsCall(Run(init), steps[|steps| - 1], id);
      GoneGrows(steps, id, c);
    }
  }

  lemma CallAt(steps: seq<Action>, id: nat, c: nat, n: nat, s: System)
    requires c < n <= |steps| && MadeAt(steps, id, c) && s == Run(steps[..n])
    ensures id in s.waiters && s.waiters[id].key == steps[c].key
    ensures Expired(Run(steps[..c]).now, steps[c].waitMs, s.now) ==> s.waiters[id].deadline <= s.now
    ensures Gone(steps[..n], id, c) ==> !s.waiters[id].active
  {
    assert steps[..n][..c] == steps[..c] && steps[..n][c] == steps[c];
    CallIsKept(steps[..n], id, c);
    ClockStarts(steps[..n]);
  }

  /** How much time has passed: the sum of what the clock was moved forward. */
  function Elapsed(steps: seq<Action>): real {
    if steps == [] then 0.0
    else
      var a := steps[|steps| - 1];
      Elapsed(steps[..|steps| - 1]) + if a.Tick? && a.elapsed > 0.0 then a.elapsed else 0.0
  }

  lemma {:induction false} ClockIsElapsed(steps: seq<Action>)
    ensures Run(steps).now == Elapsed(steps)
  {
    if steps != [] { ClockIsElapsed(steps[..|steps| - 1]); }
  }

  /** A blocked call leaves its wait exactly when a submitter sets the event, or at its own time-out once it is due. */
  lemma BlockedLeavesIff(s: System, a: Action, id: nat)
    requires At(s, id, Blocked)
    ensures At(Next(s, a), id, Blocked)
       <==> !(a == SetEvent && s.pending > 0) && !(a == TimeOut(id) && s.waiters[id].deadline <= s.now)
    ensures At(Next(s, a), id, Blocked) || At(Next(s, a), id, Clear)
  {
  }

  // ---- Once its time is up, a call replies ----

  /** The steps of its own after which a late call has replied. */
  function Left(pc: Pc): nat {
    match pc
    case EnterWait => 5
    case Blocked => 4
    case CheckActive => 4
    case Remaining => 3
    case Clear => 3
    case Lookup => 2
    case Missed => 1
    case Mark(data) => 1
    case Replied(answer) => 0
  }

  /** A step of the call's own; a blocked call's is the end of its wait. */
  predicate Turn(s: System, a: Action, id: nat) {
    id in s.waiters && a == if s.waiters[id].pc == Blocked then TimeOut(id) else Go(id)
  }

  predicate TurnAt(steps: seq<Action>, id: nat, j: nat) {
    j < |steps| && Turn(Run(steps[..j]), steps[j], id)
  }

  /** How many steps from `n` on and before `m` are the call's own. */
  function Turns(steps: seq<Action>, id: nat, n: nat, m: nat): nat
    decreases m
  {
    if m <= n then 0 else Turns(steps, id, n, m - 1) + if TurnAt(steps, id, m - 1) then 1 else 0
  }

  /** Step `j` does not raise the count-down, and lowers it if it is the call's own. */
  predicate StepsDown(steps: seq<Action>, id: nat, left: nat -> nat, j: nat) {
    left(j + 1) <= left(j) && (TurnAt(steps, id, j) && 0 < left(j) ==> left(j + 1) < left(j))
  }

  lemma {:induction false} CountDown(steps: seq<Action>, id: nat, n: nat, m: nat, left: nat -> nat)
    requires n <= m && forall j: nat :: n <= j < m ==> StepsDown(steps, id, left, j)
    ensures left(m) == 0 || left(m) + Turns(steps, id, n, m) <= left(n)
    decreases m
  {
    if n < m {
      assert StepsDown(steps, id, left, m - 1);
      CountDown(steps, id, n, m - 1, left);
    }
  }

  predicate LateAt(s: System, id: nat) {
    id in s.waiters && s.waiters[id].deadline <= s.now
  }

  lemma LateStep(s: System, a: Action, id: nat)
    requires LateAt(s, id)
    ensures LateAt(Next(s, a), id) && Left(Next(s, a).waiters[id].pc) <= Left(s.waiters[id].pc)
    ensures Turn(s, a, id) && 0 < Left(s.waiters[id].pc) ==>
      Left(Next(s, a).waiters[id].pc) < Left(s.waiters[id].pc)
  {
  }

  function LeftAt(steps: seq<Action>, id: nat, j: nat): nat {
    if j <= |steps| && id in Run(steps[..j]).waiters then Left(Run(steps[..j]).waiters[id].pc) else 0
  }

  lemma LateTurn(steps: seq<Action>, id: nat, j: nat)
    requires j < |steps| && LateAt(Run(steps[..j]), id)
    ensures LateAt(Run(steps[..j + 1]), id) && LeftAt(steps, id, j + 1) <= LeftAt(steps, id, j)
    ensures TurnAt(steps, id, j) && 0 < LeftAt(steps, id, j) ==> LeftAt(steps, id, j + 1) < LeftAt(steps, id, j)
  {
    RunSlice(steps, j);
    LateStep(Run(steps[..j]), steps[j], id);
  }

  function LeftFrom(steps: seq<Action>, id: nat): nat -> nat {
    (j: nat) => LeftAt(steps, id, j)
  }

  lemma LeftFromAt(steps: seq<Action>, id: nat, j: nat)
    ensures LeftFrom(steps, id)(j) == LeftAt(steps, id, j)
  {
  }

  lemma LateStepsDown(steps: seq<Action>, id: nat, j: nat)
    requires j < |steps| && LateAt(Run(steps[..j]), id)
    ensures StepsDown(steps, id, LeftFrom(steps, id), j)
  {
    LateTurn(steps, id, j);
    LeftFromAt(steps, id, j);
    LeftFromAt(steps, id, j + 1);
  }

  lemma {:induction false} LateStays(steps: seq<Action>, id: nat, n: nat, j: nat)
    requires n <= j <= |steps| && LateAt(Run(steps[..n]), id)
    ensures LateAt(Run(steps[..j]), id)
    decreases j
  {
    if n < j {
      LateStays(steps, id, n, j - 1);
      LateTurn(steps, id, j - 1);
    }
  }

  lemma LateTurns(steps: seq<Action>, id: nat, n: nat, m: nat)
    requires n <= m <= |steps| && LateAt(Run(steps[..n]), id)
    ensures LeftAt(steps, id, m) == 0 || LeftAt(steps, id, m) + Turns(steps, id, n, m) <= LeftAt(steps, id, n)
  {
    forall j: nat | n <= j < m ensures StepsDown(steps, id, LeftFrom(steps, id), j) {
      LateStays(steps, id, n, j);
      LateStepsDown(steps, id, j);
    }
    CountDown(steps, id, n, m, LeftFrom(steps, id));
    LeftFromAt(steps, id, n);
    LeftFromAt(steps, id, m);
  }

  predicate FoundIsStored(s: System, w: Waiter) {
    (w.pc.Mark? || (w.pc.Replied? && w.pc.answer.Some?)) ==> w.key in s.bitmaps
  }

  lemma FoundInStep(s: System, a: Action, id: nat)
    requires id in s.waiters && FoundIsStored(s, s.waiters[id])
    ensures id in Next(s, a).waiters && FoundIsStored(Next(s, a), Next(s, a).waiters[id])
  {
  }

  /** A call that found its key found it in the store, where it stays. */
  lemma {:induction false} FoundStaysStored(steps: seq<Action>, id: nat)
    requires id in Run(steps).waiters
    ensures FoundIsStored(Run(steps), Run(steps).waiters[id])
  {
    if steps != [] {
      var init, a := steps[..|steps| - 1], steps[|steps| - 1];
      if id in Run(init).waiters {
        FoundStaysStored(init, id);
        FoundInStep(Run(init), a, id);
      }
    }
  }

  lemma NoneLeft(steps: seq<Action>, id: nat, m: nat)
    requires m <= |steps| && id in Run(steps[..m]).waiters && LeftAt(steps, id, m) == 0
    ensures Run(steps[..m]).waiters[id].pc.Replied?
    ensures Run(steps[..m]).waiters[id].key !in Run(steps[..m]).bitmaps ==> At(Run(steps[..m]), id, Replied(None))
  {
    FoundStaysStored(steps[..m], id);
  }

  /**
   * In every run, a call whose time is up at step `n` has replied by step `m` if it took as many
   * steps of its own in between as its place in the loop has left; that is at most five.
   */
  lemma ExpiredCallReplies(steps: seq<Action>, id: nat, c: nat, n: nat, m: nat)
    requires c < n <= m <= |steps| && MadeAt(steps, id, c)
    requires Expired(Run(steps[..c]).now, steps[c].waitMs, Run(steps[..n]).now)
    requires Turns(steps, id, n, m) >= LeftAt(steps, id, n)
    ensures id in Run(steps[..m]).waiters && Run(steps[..m]).waiters[id].pc.Replied?
    ensures steps[c].key !in Run(steps[..m]).bitmaps ==> At(Run(steps[..m]), id, Replied(None))
  {
    CallAt(steps, id, c, n, Run(steps[..n]));
    CallAt(steps, id, c, m, Run(steps[..m]));
    LateTurns(steps, id, n, m);
    NoneLeft(steps, id, m);
  }

  lemma AtMostFiveLeft(steps: seq<Action>, id: nat, n: nat)
    ensures LeftAt(steps, id, n) <= 5
  {
  }

  /** Wherever it is in its loop, a call whose time is up and whose key is absent replies with nothing in five. */
  lemma FiveTurnsSuffice(steps: seq<Action>, id: nat, c: nat, n: nat, m: nat)
    requires c < n <= m <= |steps| && MadeAt(steps, id, c) && Turns(steps, id, n, m) >= 5
    requires Expired(Run(steps[..c]).now, steps[c].waitMs, Run(steps[..n]).now)
    requires steps[c].key !in Run(steps[..m]).bitmaps
    ensures At(Run(steps[..m]), id, Replied(None))
  {
    AtMostFiveLeft(steps, id, n);
    ExpiredCallReplies(steps, id, c, n, m);
  }

  /** And an empty reply is never early: the time was up or the client had gone. */
  lemma EmptyReplyIsDue(steps: seq<Action>, id: nat, c: nat)
    requires MadeAt(steps, id, c) && At(Run(steps), id, Replied(None))
    ensures Expired(Run(steps[..c]).now, steps[c].waitMs, Run(steps).now) || Gone(steps, id, c)
  {
    CallIsKept(steps, id, c);
    RepliesAreJustified(steps, id);
  }

  // ---- Once its client has gone, a call does not wait again ----

  /** The steps of its own after which a call whose client has gone, and which is not waiting, has replied. */
  function LeftWhenGone(pc: Pc): nat {
    match pc
    case Clear => 4
    case Lookup => 3
    case Missed => 2
    case CheckActive => 1
    case Mark(data) => 1
    case Replied(answer) => 0
    case Remaining => 5
    case EnterWait => 5
    case Blocked => 5
  }

  predicate GoneAt(s: System, id: nat) {
    id in s.waiters && !s.waiters[id].active && LeftWhenGone(s.waiters[id].pc) <= 4
  }

  lemma GoneStep(s: System, a: Action, id: nat)
    requires GoneAt(s, id)
    ensures GoneAt(Next(s, a), id) && LeftWhenGone(Next(s, a).waiters[id].pc) <= LeftWhenGone(s.waiters[id].pc)
    ensures Turn(s, a, id) && 0 < LeftWhenGone(s.waiters[id].pc) ==>
      LeftWhenGone(Next(s, a).waiters[id].pc) < LeftWhenGone(s.waiters[id].pc)
  {
  }

  function GoneLeftAt(steps: seq<Action>, id: nat, j: nat): nat {
    if j <= |steps| && id in Run(steps[..j]).waiters then LeftWhenGone(Run(steps[..j]).waiters[id].pc) else 0
  }

  lemma GoneTurn(steps: seq<Action>, id: nat, j: nat)
    requires j < |steps| && GoneAt(Run(steps[..j]), id)
    ensures GoneAt(Run(steps[..j + 1]), id) && GoneLeftAt(steps, id, j + 1) <= GoneLeftAt(steps, id, j)
    ensures TurnAt(steps, id, j) && 0 < GoneLeftAt(steps, id, j) ==>
      GoneLeftAt(steps, id, j + 1) < GoneLeftAt(steps, id, j)
  {
    RunSlice(steps, j);
    GoneStep(Run(steps[..j]), steps[j], id);
  }

  function GoneFrom(steps: seq<Action>, id: nat): nat -> nat {
    (j: nat) => GoneLeftAt(steps, id, j)
  }

  lemma GoneFromAt(steps: seq<Action>, id: nat, j: nat)
    ensures GoneFrom(steps, id)(j) == GoneLeftAt(steps, id, j)
  {
  }

  lemma GoneStepsDown(steps: seq<Action>, id: nat, j: nat)
    requires j < |steps| && GoneAt(Run(steps[..j]), id)
    ensures StepsDown(steps, id, GoneFrom(steps, id), j)
  {
    GoneTurn(steps, id, j);
    GoneFromAt(steps, id, j);
    GoneFromAt(steps, id, j + 1);
  }

  lemma {:induction false} GoneStays(steps: seq<Action>, id: nat, n: nat, j: nat)
    requires n <= j <= |steps| && GoneAt(Run(steps[..n]), id)
    ensures GoneAt(Run(steps[..j]), id)
    decreases j
  {
    if n < j {
      GoneStays(steps, id, n, j - 1);
      GoneTurn(steps, id, j - 1);
    }
  }

  lemma GoneTurns(steps: seq<Action>, id: nat, n: nat, m: nat)
    requires n <= m <= |steps| && GoneAt(Run(steps[..n]), id)
    ensures GoneLeftAt(steps, id, m) == 0
         || GoneLeftAt(steps, id, m) + Turns(steps, id, n, m) <= GoneLeftAt(steps, id, n)
  {
    forall j: nat | n <= j < m ensures StepsDown(steps, id, GoneFrom(steps, id), j) {
      GoneStays(steps, id, n, j);
      GoneStepsDown(steps, id, j);
    }
    CountDown(steps, id, n, m, GoneFrom(steps, id));
    GoneFromAt(steps, id, n);
    GoneFromAt(steps, id, m);
  }

  /** Past its wait and before it may wait again. */
  predicate NotWaiting(pc: Pc) {
    pc == Clear || pc == Lookup || pc == Missed || pc == CheckActive
  }

  lemma GoneLeft(steps: seq<Action>, id: nat, n: nat)
    requires n <= |steps| && id in Run(steps[..n]).waiters
    ensures NotWaiting(Run(steps[..n]).waiters[id].pc) ==> GoneLeftAt(steps, id, n) <= 4
    ensures GoneLeftAt(steps, id, n) == 0 ==> Run(steps[..n]).waiters[id].pc.Replied?
  {
  }

  /** A call whose client has gone and whose wait has ended replies within four steps of its own. */
  lemma GoneCallReplies(steps: seq<Action>, id: nat, c: nat, n: nat, m: nat)
    requires c < n <= m <= |steps| && MadeAt(steps, id, c) && Gone(steps[..n], id, c)
    requires id in Run(steps[..n]).waiters && NotWaiting(Run(steps[..n]).waiters[id].pc)
    requires Turns(steps, id, n, m) >= 4
    ensures id in Run(steps[..m]).waiters && Run(steps[..m]).waiters[id].pc.Replied?
  {
    CallAt(steps, id, c, n, Run(steps[..n]));
    CallAt(steps, id, c, m, Run(steps[..m]));
    GoneLeft(steps, id, n);
    GoneLeft(steps, id, m);
    GoneTurns(steps, id, n, m);
  }

  // ---- A reply comes right after its lookup, and a lookup after a wait right after clearing the event ----

  /** The steps of its own that a call has taken since its last lookup, that one included. */
  function Depth(pc: Pc): nat {
    if pc.Missed? || pc.Mark? then 1 else if pc.CheckActive? then 2 else if pc.Remaining? then 3 else 0
  }

  predicate PendingAt(s: System, id: nat) {
    DecidedAt(s, id) && !s.waiters[id].pc.Replied?
  }

  lemma PendingStep(s: System, a: Action, id: nat)
    requires PendingAt(Next(s, a), id)
    ensures (a == Go(id) && At(s, id, Lookup) && Depth(Next(s, a).waiters[id].pc) == 1)
         || (PendingAt(s, id) && Found(s.waiters[id].pc) == Found(Next(s, a).waiters[id].pc)
             && Depth(Next(s, a).waiters[id].pc) == Depth(s.waiters[id].pc) + if Turn(s, a, id) then 1 else 0)
  {
  }

  lemma TurnsSnoc(steps: seq<Action>, id: nat, n: nat, init: seq<Action>, a: Action)
    requires n <= |init| && steps == init + [a]
    ensures Turns(steps, id, n, |steps|) == Turns(init, id, n, |init|) + if Turn(Run(init), a, id) then 1 else 0
  {
    assert steps[..|init|] == init;
    TurnsOfPrefix(steps, id, n, |init|, |init|);
    LastTurn(steps, id, init, a);
  }

  lemma LastTurn(steps: seq<Action>, id: nat, init: seq<Action>, a: Action)
    requires steps == init + [a]
    ensures TurnAt(steps, id, |init|) <==> Turn(Run(init), a, id)
  {
    assert steps[..|init|] == init;
  }

  lemma {:induction false} TurnsOfPrefix(steps: seq<Action>, id: nat, n: nat, m: nat, k: nat)
    requires m <= k <= |steps|
    ensures Turns(steps, id, n, m) == Turns(steps[..k], id, n, m)
    decreases m
  {
    if n < m {
      TurnsOfPrefix(steps, id, n, m - 1, k);
      assert steps[..k][..m - 1] == steps[..m - 1];
    }
  }

  lemma NoTurns(steps: seq<Action>, id: nat, n: nat)
    ensures Turns(steps, id, n, n) == 0
  {
  }

  /** A call that has looked up and not yet replied did so as many of its own steps ago as its place tells. */
  lemma {:induction false} SinceLookup(steps: seq<Action>, id: nat) returns (n: nat)
    requires PendingAt(Run(steps), id)
    ensures LookedUp(steps, id, n, Found(Run(steps).waiters[id].pc))
    ensures Turns(steps, id, n, |steps|) == Depth(Run(steps).waiters[id].pc)
  {
    var init, a := steps[..|steps| - 1], steps[|steps| - 1];
    PendingStep(Run(init), a, id);
    if a == Go(id) && At(Run(init), id, Lookup) {
      n := |steps| - 1;
      LookedUpNow(steps, id);
      TurnsSnoc(steps, id, n, init, a);
      NoTurns(init, id, n);
    } else {
      n := SinceLookup(init, id);
      LookedUpExtends(steps, id, n, Found(Run(steps).waiters[id].pc));
      TurnsSnoc(steps, id, n, init, a);
    }
  }

  /** The step takes the call from a place at most two steps after its lookup to a reply with what it found. */
  ghost predicate RepliesIn(s: System, a: Action, id: nat, t: System) {
    && PendingAt(s, id) && Depth(s.waiters[id].pc) <= 2
    && id in t.waiters && t.waiters[id].pc == Replied(Found(s.waiters[id].pc))
  }

  lemma ReplyStep(s: System, a: Action, id: nat, t: System)
    requires t == Next(s, a) && id in s.waiters && !s.waiters[id].pc.Replied? && t.waiters[id].pc.Replied?
    ensures RepliesIn(s, a, id, t)
  {
  }

  /** What a call replies is what it found at a lookup at most two of its own steps before. */
  lemma RepliesFromFreshLookup(init: seq<Action>, a: Action, id: nat, t: System) returns (n: nat)
    requires t == Run(init + [a]) && id in Run(init).waiters && id in t.waiters
    requires !Run(init).waiters[id].pc.Replied? && t.waiters[id].pc.Replied?
    ensures LookedUp(init, id, n, t.waiters[id].pc.answer) && Turns(init, id, n, |init|) <= 2
  {
    assert (init + [a])[..|init|] == init;
    ReplyStep(Run(init), a, id, t);
    n := SinceLookup(init, id);
  }

  /** In its wait, up to and including the clearing of the event. */
  predicate InWait(pc: Pc) {
    pc == EnterWait || pc == Blocked || pc == Clear
  }

  predicate InWaitAt(s: System, id: nat) {
    id in s.waiters && InWait(s.waiters[id].pc)
  }

  /** Step `m` is the call's own and leaves the event cleared. */
  ghost predicate ClearsAt(steps: seq<Action>, id: nat, m: nat) {
    m < |steps| && steps[m] == Go(id) && At(Run(steps[..m]), id, Clear) && !Run(steps[..m + 1]).flag
  }

  lemma WaitStep(s: System, a: Action, id: nat)
    requires InWaitAt(s, id)
    ensures InWaitAt(Next(s, a), id) || (a == Go(id) && At(s, id, Clear) && !Next(s, a).flag)
  {
  }

  lemma WaitSlice(steps: seq<Action>, id: nat, k: nat)
    requires k < |steps| && InWaitAt(Run(steps[..k]), id) && !InWaitAt(Run(steps[..k + 1]), id)
    ensures ClearsAt(steps, id, k)
  {
    RunSlice(steps, k);
    WaitStep(Run(steps[..k]), steps[k], id);
  }

  predicate WaitsAt(steps: seq<Action>, id: nat, k: nat) {
    k <= |steps| && InWaitAt(Run(steps[..k]), id)
  }

  lemma WaitSliceEnds(steps: seq<Action>, id: nat, k: nat)
    requires k < |steps| && WaitsAt(steps, id, k) && !WaitsAt(steps, id, k + 1)
    ensures ClearsAt(steps, id, k)
  {
    WaitSlice(steps, id, k);
  }

  /** A call that waits looks up again only after clearing the event itself. */
  lemma {:induction false} WaitEndsInClear(steps: seq<Action>, id: nat, n: nat, k: nat) returns (m: nat)
    requires n < k <= |steps| && WaitsAt(steps, id, n) && !WaitsAt(steps, id, k)
    ensures n <= m < k && ClearsAt(steps, id, m)
    decreases k
  {
    m := k - 1;
    if WaitsAt(steps, id, m) {
      WaitSliceEnds(steps, id, m);
    } else {
      m := WaitEndsInClear(steps, id, n, m);
    }
  }

  // ---- What is recorded as sent ----

  predicate DeliveredBy(s: System, id: nat, client: string, key: string) {
    && id in s.waiters && s.waiters[id].client == client && s.waiters[id].key == key
    && s.waiters[id].pc.Replied? && s.waiters[id].pc.answer.Some?
  }

  /** Some call of this client for this key has replied with a bitmap. */
  ghost predicate Delivered(s: System, client: string, key: string) {
    exists id :: DeliveredBy(s, id, client, key)
  }

  lemma DeliveredInStep(s: System, a: Action, id: nat, client: string, key: string)
    ensures DeliveredBy(s, id, client, key) ==> DeliveredBy(Next(s, a), id, client, key)
    ensures DeliveredBy(Next(s, a), id, client, key) && !DeliveredBy(s, id, client, key) ==>
      (client, key) in Next(s, a).sent
  {
  }

  lemma NewlySent(s: System, a: Action, client: string, key: string)
    ensures (client, key) in s.sent ==> (client, key) in Next(s, a).sent
    ensures (client, key) in Next(s, a).sent && (client, key) !in s.sent ==>
      a.Go? && DeliveredBy(Next(s, a), a.id, client, key)
  {
  }

  lemma SentInStep(s: System, a: Action, client: string, key: string)
    requires (client, key) in s.sent <==> Delivered(s, client, key)
    ensures (client, key) in Next(s, a).sent <==> Delivered(Next(s, a), client, key)
  {
    NewlySent(s, a, client, key);
    if id :| DeliveredBy(s, id, client, key) { DeliveredInStep(s, a, id, client, key); }
    if id :| DeliveredBy(Next(s, a), id, client, key) { DeliveredInStep(s, a, id, client, key); }
  }

  /** In every run, exactly the keys that calls replied with are recorded as sent to their clients. */
  lemma {:induction false} SentIffDelivered(steps: seq<Action>, client: string, key: string)
    ensures (client, key) in Run(steps).sent <==> Delivered(Run(steps), client, key)
  {
    if steps != [] {
      var init, a := steps[..|steps| - 1], steps[|steps| - 1];
      SentIffDelivered(init, client, key);
      SentInStep(Run(init), a, client, key);
    }
  }
}
