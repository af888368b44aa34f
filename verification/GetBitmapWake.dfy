/**
 * The blocking GetBitmap call: any number of waiters and submitters sharing the bitmap store
 * and one event flag, as a state machine over the steps each of them takes alone.
 */
module GetBitmapWake {
  import opened Wrappers
  import opened Events

  /** Where a GetBitmap call is.  `Replied` holds its answer. */
  datatype Pc =
    | Lookup
    | Mark(data: Bytes)
    | Missed
    | CheckActive
    | Remaining
    | EnterWait
    | Blocked
    | Clear
    | Replied(answer: Option<Bytes>)

  datatype Waiter = Waiter(client: string, key: string, waitMs: int, deadline: real, active: bool, pc: Pc)

  /** `pending` counts the submitters that have stored their bitmap and not yet set the event. */
  datatype System = System(
    now: real,
    bitmaps: map<string, Bytes>,
    sent: set<(string, string)>,
    flag: bool,
    pending: nat,
    waiters: map<nat, Waiter>)

  const START := System(0.0, map[], {}, false, 0, map[])

  datatype Action =
    | Tick(elapsed: real)
    | Call(caller: nat, client: string, key: string, waitMs: int)
    | Disconnect(lost: nat)
    | Store(storedKey: string, data: Bytes)
    | SetEvent
    | TimeOut(late: nat)
    | Go(id: nat)

  function Get(s: System, key: string): Option<Bytes> {
    if key in s.bitmaps then Some(s.bitmaps[key]) else None
  }

  /** The next step of a call that takes one. */
  function Stepped(s: System, w: Waiter): Pc {
    match w.pc
    case Lookup => if Get(s, w.key).Some? then Mark(Get(s, w.key).value) else Missed
    case Mark(data) => Replied(Some(data))
    case Missed => if w.waitMs <= 0 || s.now >= w.deadline then Replied(None) else CheckActive
    case CheckActive => if w.active then Remaining else Replied(None)
    case Remaining => if w.deadline - s.now > 0.0 then EnterWait else Lookup
    case EnterWait => if s.flag then Clear else Blocked
    case Blocked => Blocked
    case Clear => Lookup
    case Replied(answer) => w.pc
  }

  /** What an action does to the call `i`: setting the event wakes every blocked call. */
  function Advance(s: System, a: Action, i: nat, w: Waiter): Waiter {
    if a == Go(i) then w.(pc := Stepped(s, w))
    else if a == SetEvent && s.pending > 0 && w.pc == Blocked then w.(pc := Clear)
    else if a == TimeOut(i) && w.pc == Blocked && s.now >= w.deadline then w.(pc := Clear)
    else if a == Disconnect(i) then w.(active := false)
    else w
  }

  predicate At(s: System, i: nat, pc: Pc) {
    i in s.waiters && s.waiters[i].pc == pc
  }

  function Waiters(s: System, a: Action): map<nat, Waiter> {
    var ws := map i | i in s.waiters :: Advance(s, a, i, s.waiters[i]);
    if a.Call? && a.caller !in s.waiters then
      var deadline := if a.waitMs > 0 then s.now + a.waitMs as real / 1000.0 else 0.0;
      ws[a.caller := Waiter(a.client, a.key, a.waitMs, deadline, true, Lookup)]
    else ws
  }

  /** An action that is not possible changes nothing. */
  function Next(s: System, a: Action): System {
    System(
      if a.Tick? && a.elapsed >= 0.0 then s.now + a.elapsed else s.now,
      if a.Store? then s.bitmaps[a.storedKey := a.data] else s.bitmaps,
      if a.Go? && a.id in s.waiters && s.waiters[a.id].pc.Mark?
      then s.sent + {(s.waiters[a.id].client, s.waiters[a.id].key)} else s.sent,
      if a == SetEvent && s.pending > 0 then true else if a.Go? && At(s, a.id, Clear) then false else s.flag,
      if a.Store? then s.pending + 1 else if a == SetEvent && s.pending > 0 then s.pending - 1 else s.pending,
      Waiters(s, a))
  }

  function Run(steps: seq<Action>): System {
    if steps == [] then START else Next(Run(steps[..|steps| - 1]), steps[|steps| - 1])
  }

  // ---- An answer is what a lookup found ----

  /** After its lookup and before any wait. */
  predicate Decided(pc: Pc) {
    pc.Mark? || pc.Missed? || pc.CheckActive? || pc.Remaining? || pc.Replied?
  }

  function Found(pc: Pc): Option<Bytes>
    requires Decided(pc)
  {
    if pc.Mark? then Some(pc.data) else if pc.Replied? then pc.answer else None
  }

  predicate DecidedAt(s: System, id: nat) {
    id in s.waiters && Decided(s.waiters[id].pc)
  }

  /** At step `n` the call looked its key up and found `found`, and it has not waited since. */
  ghost predicate LookedUp(steps: seq<Action>, id: nat, n: nat, found: Option<Bytes>) {
    && n < |steps| && steps[n] == Go(id)
    && At(Run(steps[..n]), id, Lookup)
    && Get(Run(steps[..n]), Run(steps[..n]).waiters[id].key) == found
    && forall j {:trigger Run(steps[..j])} :: n < j <= |steps| ==> DecidedAt(Run(steps[..j]), id)
  }

  lemma LookedUpExtends(steps: seq<Action>, id: nat, n: nat, found: Option<Bytes>)
    requires steps != [] && LookedUp(steps[..|steps| - 1], id, n, found) && DecidedAt(Run(steps), id)
    ensures LookedUp(steps, id, n, found)
  {
    var init := steps[..|steps| - 1];
    assert init[..n] == steps[..n];
    forall j | n < j <= |steps| ensures DecidedAt(Run(steps[..j]), id) {
      if j < |steps| { assert init[..j] == steps[..j]; } else { assert steps[..j] == steps; }
    }
  }

  lemma LookedUpNow(steps: seq<Action>, id: nat)
    requires steps != [] && steps[|steps| - 1] == Go(id) && At(Run(steps[..|steps| - 1]), id, Lookup)
    ensures DecidedAt(Run(steps), id) && LookedUp(steps, id, |steps| - 1, Found(Run(steps).waiters[id].pc))
  {
    assert steps[..|steps|] == steps;
  }

  /** A decided call was decided before the step, with the same finding, or has just looked up. */
  lemma DecidedBefore(s: System, a: Action, id: nat)
    requires DecidedAt(Next(s, a), id)
    ensures (a == Go(id) && At(s, id, Lookup))
         || (DecidedAt(s, id) && Found(s.waiters[id].pc) == Found(Next(s, a).waiters[id].pc))
  {
  }

  /**
   * In every interleaving, what a call has found, and so what it replies, is what its key held
   * at a lookup made after its last wait.
   */
  lemma {:induction false} AnswerIsALookup(steps: seq<Action>, id: nat) returns (n: nat)
    requires DecidedAt(Run(steps), id)
    ensures LookedUp(steps, id, n, Found(Run(steps).waiters[id].pc))
  {
    var init, a := steps[..|steps| - 1], steps[|steps| - 1];
    DecidedBefore(Run(init), a, id);
    if a == Go(id) && At(Run(init), id, Lookup) {
      n := |steps| - 1;
      LookedUpNow(steps, id);
    } else {
      n := AnswerIsALookup(init, id);
      LookedUpExtends(steps, id, n, Found(Run(steps).waiters[id].pc));
    }
  }

  /** Why a call may reply with nothing, and what it has recorded when it replies with something. */
  predicate ReplyJustified(s: System, w: Waiter) {
    && (w.pc == Replied(None) ==> w.waitMs <= 0 || w.deadline <= s.now || !w.active)
    && (w.pc.Replied? && w.pc.answer.Some? ==> (w.client, w.key) in s.sent)
  }

  lemma StepJustifies(s: System, a: Action, id: nat)
    requires id in s.waiters && ReplyJustified(s, s.waiters[id])
    ensures id in Next(s, a).waiters && ReplyJustified(Next(s, a), Next(s, a).waiters[id])
  {
  }

  /** An empty reply comes without waiting, after the deadline, or to a client that is gone; a full one is recorded. */
  lemma {:induction false} RepliesAreJustified(steps: seq<Action>, id: nat)
    requires id in Run(steps).waiters
    ensures ReplyJustified(Run(steps), Run(steps).waiters[id])
  {
    if steps != [] {
      var init, a := steps[..|steps| - 1], steps[|steps| - 1];
      if id in Run(init).waiters {
        RepliesAreJustified(init, id);
        StepJustifies(Run(init), a, id);
      }
    }
  }

  lemma RunSlice(steps: seq<Action>, n: nat)
    requires n < |steps|
    ensures Run(steps[..n + 1]) == Next(Run(steps[..n]), steps[n])
  {
    assert steps[..n + 1][..n] == steps[..n];
  }

  predicate HasKey(s: System, id: nat, key: string) {
    id in s.waiters && s.waiters[id].key == key
  }

  lemma StepKeepsKey(s: System, a: Action, id: nat, key: string)
    ensures HasKey(s, id, key) ==> HasKey(Next(s, a), id, key)
    ensures key in s.bitmaps ==> key in Next(s, a).bitmaps
  {
  }

  lemma SliceKeepsKey(steps: seq<Action>, n: nat, id: nat, key: string)
    requires n < |steps|
    ensures HasKey(Run(steps[..n]), id, key) ==> HasKey(Run(steps[..n + 1]), id, key)
    ensures key in Run(steps[..n]).bitmaps ==> key in Run(steps[..n + 1]).bitmaps
  {
    RunSlice(steps, n);
    StepKeepsKey(Run(steps[..n]), steps[n], id, key);
  }

  /** Calls keep their keys, and bitmaps once stored stay. */
  lemma {:induction false} KeysStay(steps: seq<Action>, k: nat, n: nat, id: nat, key: string)
    requires k <= n <= |steps|
    ensures HasKey(Run(steps[..k]), id, key) ==> HasKey(Run(steps[..n]), id, key)
    ensures key in Run(steps[..k]).bitmaps ==> key in Run(steps[..n]).bitmaps
  {
    if k < n {
      KeysStay(steps, k, n - 1, id, key);
      SliceKeepsKey(steps, n - 1, id, key);
    }
  }

  /** A bitmap stored before the last lookup is never answered with nothing, whatever became of the event. */
  lemma EmptyReplyPrecedesStore(steps: seq<Action>, id: nat, k: nat) returns (n: nat)
    requires At(Run(steps), id, Replied(None)) && k <= |steps|
    requires Run(steps).waiters[id].key in Run(steps[..k]).bitmaps
    ensures n < k && LookedUp(steps, id, n, None)
  {
    n := AnswerIsALookup(steps, id);
    var key, asked := Run(steps).waiters[id].key, Run(steps[..n]).waiters[id].key;
    assert steps[..|steps|] == steps;
    KeysStay(steps, n, |steps|, id, asked);
    if k <= n { KeysStay(steps, k, n, id, key); }
  }

  // ---- Wake-ups ----

  /** After a lookup that missed and before the next one is due. */
  predicate AfterMiss(pc: Pc) {
    pc == Missed || pc == CheckActive || pc == Remaining || pc == EnterWait || pc == Blocked
  }

  predicate AfterMissAt(s: System, id: nat) {
    id in s.waiters && AfterMiss(s.waiters[id].pc)
  }

  /** The call has missed its key, the key is there now, and no wake-up is on its way. */
  predicate WakeLost(s: System, id: nat) {
    AfterMissAt(s, id) && s.waiters[id].key in s.bitmaps && !s.flag && s.pending == 0
  }

  /** A wake-up is lost in a step only by another call clearing the event. */
  lemma LostInStep(s: System, a: Action, id: nat)
    requires WakeLost(Next(s, a), id)
    ensures AfterMissAt(s, id)
    ensures WakeLost(s, id) || (a.Go? && a.id != id && At(s, a.id, Clear))
  {
  }

  /** At step `m` another call cleared the event, and from then on `id` has been past its miss. */
  ghost predicate StolenAt(steps: seq<Action>, id: nat, m: nat) {
    && m < |steps| && steps[m].Go? && steps[m].id != id && At(Run(steps[..m]), steps[m].id, Clear)
    && forall j {:trigger Run(steps[..j])} :: m <= j <= |steps| ==> AfterMissAt(Run(steps[..j]), id)
  }

  lemma StolenExtends(steps: seq<Action>, id: nat, m: nat)
    requires steps != [] && StolenAt(steps[..|steps| - 1], id, m) && AfterMissAt(Run(steps), id)
    ensures StolenAt(steps, id, m)
  {
    var init := steps[..|steps| - 1];
    assert init[..m] == steps[..m];
    forall j | m <= j <= |steps| ensures AfterMissAt(Run(steps[..j]), id) {
      if j < |steps| { assert init[..j] == steps[..j]; } else { assert steps[..j] == steps; }
    }
  }

  lemma StolenNow(steps: seq<Action>, id: nat)
    requires steps != [] && AfterMissAt(Run(steps), id) && AfterMissAt(Run(steps[..|steps| - 1]), id)
    requires var a := steps[|steps| - 1]; a.Go? && a.id != id && At(Run(steps[..|steps| - 1]), a.id, Clear)
    ensures StolenAt(steps, id, |steps| - 1)
  {
    var m := |steps| - 1;
    assert steps[..|steps|] == steps;
    forall j | m <= j <= |steps| ensures AfterMissAt(Run(steps[..j]), id) {
      assert j == m || j == |steps|;
    }
  }

  /** Exactly what makes a step lose a wake-up that was not lost before it. */
  lemma LossInStepIff(s: System, a: Action, id: nat)
    requires AfterMissAt(s, id) && s.waiters[id].key in s.bitmaps && !WakeLost(s, id)
    ensures WakeLost(Next(s, a), id) <==> a.Go? && a.id != id && At(s, a.id, Clear) && s.pending == 0
  {
  }

  lemma LossOfUnlost(s: System, a: Action, id: nat)
    requires AfterMissAt(s, id) && !WakeLost(s, id) && WakeLost(Next(s, a), id)
    ensures a.Go? && a.id != id && At(s, a.id, Clear) && s.pending == 0 && s.waiters[id].key in s.bitmaps
    ensures HasKey(s, id, s.waiters[id].key)
  {
  }

  /** A lost wake-up stays lost until the call moves on or something is stored. */
  lemma LostStays(s: System, a: Action, id: nat)
    requires WakeLost(s, id) && !a.Store? && AfterMissAt(Next(s, a), id)
    ensures WakeLost(Next(s, a), id)
  {
  }

  lemma StoreEndsLoss(s: System, a: Action, id: nat)
    requires a.Store?
    ensures !WakeLost(Next(s, a), id)
  {
  }

  lemma TheftLoses(s: System, a: Action, id: nat)
    requires AfterMissAt(s, id) && s.waiters[id].key in s.bitmaps
    requires a.Go? && a.id != id && At(s, a.id, Clear) && s.pending == 0
    ensures WakeLost(Next(s, a), id)
  {
  }

  predicate NoStoreAfter(steps: seq<Action>, m: nat) {
    forall j :: m < j < |steps| ==> !steps[j].Store?
  }

  /** The key of `id` is stored and no submitter is on its way to set the event. */
  predicate NothingComing(s: System, id: nat) {
    id in s.waiters && s.waiters[id].key in s.bitmaps && s.pending == 0
  }

  /**
   * At step `m` another call cleared the event with no submitter on its way, when the key of
   * `id` was already stored; from then on `id` has been past its miss and nothing was stored.
   */
  ghost predicate TakenAt(steps: seq<Action>, id: nat, m: nat) {
    StolenAt(steps, id, m) && NothingComing(Run(steps[..m]), id) && NoStoreAfter(steps, m)
  }

  lemma NoStoreExtends(steps: seq<Action>, m: nat)
    requires steps != [] && NoStoreAfter(steps[..|steps| - 1], m) && !steps[|steps| - 1].Store?
    ensures NoStoreAfter(steps, m)
  {
    forall j | m < j < |steps| ensures !steps[j].Store? {
      if j < |steps| - 1 { assert steps[j] == steps[..|steps| - 1][j]; }
    }
  }

  lemma TakenExtends(steps: seq<Action>, id: nat, m: nat)
    requires steps != [] && TakenAt(steps[..|steps| - 1], id, m) && AfterMissAt(Run(steps), id)
    requires !steps[|steps| - 1].Store?
    ensures TakenAt(steps, id, m)
  {
    StolenExtends(steps, id, m);
    NoStoreExtends(steps, m);
    assert steps[..|steps| - 1][..m] == steps[..m];
  }

  lemma {:induction false} LostWasTaken(steps: seq<Action>, id: nat) returns (m: nat)
    requires WakeLost(Run(steps), id)
    ensures TakenAt(steps, id, m)
  {
    var init, a := steps[..|steps| - 1], steps[|steps| - 1];
    LostInStep(Run(init), a, id);
    if a.Store? { StoreEndsLoss(Run(init), a, id); }
    if WakeLost(Run(init), id) {
      m := LostWasTaken(init, id);
      TakenExtends(steps, id, m);
    } else {
      m := |steps| - 1;
      LossOfUnlost(Run(init), a, id);
      StolenNow(steps, id);
    }
  }

  lemma SliceTaken(steps: seq<Action>, id: nat, m: nat)
    requires TakenAt(steps, id, m)
    ensures WakeLost(Run(steps[..m + 1]), id)
  {
    RunSlice(steps, m);
    assert AfterMissAt(Run(steps[..m]), id);
    TheftLoses(Run(steps[..m]), steps[m], id);
  }

  lemma TakenStays(steps: seq<Action>, id: nat, m: nat, n: nat)
    requires TakenAt(steps, id, m) && m < n < |steps| && WakeLost(Run(steps[..n]), id)
    ensures WakeLost(Run(steps[..n + 1]), id)
  {
    RunSlice(steps, n);
    assert AfterMissAt(Run(steps[..n + 1]), id);
    LostStays(Run(steps[..n]), steps[n], id);
  }

  lemma {:induction false} TakenIsLost(steps: seq<Action>, id: nat, m: nat, n: nat)
    requires TakenAt(steps, id, m) && m < n <= |steps|
    ensures WakeLost(Run(steps[..n]), id)
  {
    if n == m + 1 {
      SliceTaken(steps, id, m);
    } else {
      TakenIsLost(steps, id, m, n - 1);
      TakenStays(steps, id, m, n - 1);
    }
  }

  /**
   * In every interleaving, a call has lost its wake-up if and only if, since its miss and after
   * its key was stored, another call cleared the event while no submitter was about to set
   * it, and nothing has been stored from then on.
   */
  lemma WakeLostIff(steps: seq<Action>, id: nat)
    ensures WakeLost(Run(steps), id) <==> exists m: nat :: TakenAt(steps, id, m)
  {
    if WakeLost(Run(steps), id) {
      var m := LostWasTaken(steps, id);
    }
    if m: nat :| TakenAt(steps, id, m) {
      TakenIsLost(steps, id, m, |steps|);
      assert steps[..|steps|] == steps;
    }
  }

  /** In every interleaving, a call loses a wake-up only if another call cleared the event since its miss. */
  lemma LostOnlyToOthers(steps: seq<Action>, id: nat) returns (m: nat)
    requires WakeLost(Run(steps), id)
    ensures StolenAt(steps, id, m)
  {
    m := LostWasTaken(steps, id);
  }

  /** Every other call has replied. */
  predicate AloneAt(s: System, id: nat) {
    id in s.waiters ==> forall i :: i in s.waiters && i != id ==> s.waiters[i].pc.Replied?
  }

  /** Whenever call `id` is there, every other call has replied. */
  ghost predicate Alone(steps: seq<Action>, id: nat) {
    forall j {:trigger Run(steps[..j])} :: 0 <= j <= |steps| ==> AloneAt(Run(steps[..j]), id)
  }

  lemma StolenNotAlone(steps: seq<Action>, id: nat, m: nat)
    requires StolenAt(steps, id, m)
    ensures !Alone(steps, id)
  {
    assert AfterMissAt(Run(steps[..m]), id);
    assert !AloneAt(Run(steps[..m]), id);
  }

  /**
   * While no other call is in progress no wake-up is lost: after a missed lookup, if the key is
   * stored then the event is set or a submitter is between its store and its set.
   */
  lemma SingleWaiterIsWoken(steps: seq<Action>, id: nat)
    requires Alone(steps, id) && AfterMissAt(Run(steps), id)
    ensures Run(steps).waiters[id].key in Run(steps).bitmaps ==> Run(steps).flag || Run(steps).pending > 0
  {
    if WakeLost(Run(steps), id) {
      var m := LostOnlyToOthers(steps, id);
      StolenNotAlone(steps, id, m);
    }
  }

  /** A blocked call sees a cleared event: every set wakes it. */
  lemma {:induction false} BlockedMeansCleared(steps: seq<Action>, id: nat)
    requires At(Run(steps), id, Blocked)
    ensures !Run(steps).flag
  {
    var init := steps[..|steps| - 1];
    if At(Run(init), id, Blocked) { BlockedMeansCleared(init, id); }
  }

  /** A set wakes the blocked call, and if its key is stored the next lookup answers with it. */
  lemma SetDelivers(s: System, id: nat)
    requires At(s, id, Blocked) && s.pending > 0 && s.waiters[id].key in s.bitmaps
    ensures var key := s.waiters[id].key;
      var s' := Next(Next(Next(Next(s, SetEvent), Go(id)), Go(id)), Go(id));
      At(s', id, Replied(Some(s.bitmaps[key])))
  {
    var s1 := Next(s, SetEvent);
    assert At(s1, id, Clear);
    var s2 := Next(s1, Go(id));
    assert At(s2, id, Lookup) && s2.bitmaps == s.bitmaps;
    var s3 := Next(s2, Go(id));
    assert At(s3, id, Mark(s.bitmaps[s.waiters[id].key]));
  }

  // ---- With two calls a wake-up can be lost ----

  lemma RunAppend(steps: seq<Action>, a: Action)
    ensures Run(steps + [a]) == Next(Run(steps), a)
  {
    assert (steps + [a])[..|steps|] == steps;
  }

  predicate HasTime(s: System, w: Waiter) {
    w.active && w.waitMs > 0 && s.now < w.deadline
  }

  /** Call `id` for `key` is at `pc` with time left. */
  predicate Waiting(s: System, id: nat, key: string, pc: Pc) {
    At(s, id, pc) && s.waiters[id].key == key && HasTime(s, s.waiters[id])
  }

  predicate Quiet(s: System) {
    !s.flag && s.pending == 0
  }

  /** The path of a call that misses, up to its block. */
  function OnMiss(pc: Pc): Pc {
    if pc == Lookup then Missed
    else if pc == Missed then CheckActive
    else if pc == CheckActive then Remaining
    else if pc == Remaining then EnterWait
    else Blocked
  }

  lemma MissStep(s: System, id: nat, key: string, pc: Pc)
    requires Waiting(s, id, key, pc) && Quiet(s) && (pc == Lookup ==> key !in s.bitmaps)
    requires pc == Lookup || AfterMiss(pc)
    ensures var s' := Next(s, Go(id));
      && Waiting(s', id, key, OnMiss(pc)) && Quiet(s') && s'.bitmaps == s.bitmaps && s'.waiters.Keys == s.waiters.Keys
  {
  }

  lemma OthersKeepWaiting(s: System, id: nat, other: nat, key: string, pc: Pc)
    requires id != other && Waiting(s, other, key, pc)
    ensures Waiting(Next(s, Go(id)), other, key, pc)
  {
  }

  lemma MissGo(steps: seq<Action>, id: nat, key: string, pc: Pc) returns (more: seq<Action>)
    requires Waiting(Run(steps), id, key, pc) && Quiet(Run(steps)) && (pc == Lookup ==> key !in Run(steps).bitmaps)
    requires pc == Lookup || AfterMiss(pc)
    ensures Waiting(Run(more), id, key, OnMiss(pc)) && Quiet(Run(more)) && Run(more).bitmaps == Run(steps).bitmaps
    ensures Run(more).waiters.Keys == Run(steps).waiters.Keys
  {
    RunAppend(steps, Go(id));
    MissStep(Run(steps), id, key, pc);
    more := steps + [Go(id)];
  }

  lemma MissedDecides(steps: seq<Action>, id: nat, key: string) returns (more: seq<Action>)
    requires Waiting(Run(steps), id, key, Missed) && Quiet(Run(steps))
    ensures Waiting(Run(more), id, key, Remaining) && Quiet(Run(more)) && Run(more).bitmaps == Run(steps).bitmaps
    ensures Run(more).waiters.Keys == Run(steps).waiters.Keys
  {
    var once := MissGo(steps, id, key, Missed);
    more := MissGo(once, id, key, CheckActive);
  }

  lemma DecidedBlocks(steps: seq<Action>, id: nat, key: string) returns (more: seq<Action>)
    requires Waiting(Run(steps), id, key, Remaining) && Quiet(Run(steps))
    ensures Waiting(Run(more), id, key, Blocked) && Quiet(Run(more)) && Run(more).bitmaps == Run(steps).bitmaps
    ensures Run(more).waiters.Keys == Run(steps).waiters.Keys
  {
    var once := MissGo(steps, id, key, Remaining);
    more := MissGo(once, id, key, EnterWait);
  }

  /** A call that has missed goes on to block. */
  lemma MissedBlocks(steps: seq<Action>, id: nat, key: string) returns (more: seq<Action>)
    requires Waiting(Run(steps), id, key, Missed) && Quiet(Run(steps))
    ensures Waiting(Run(more), id, key, Blocked) && Quiet(Run(more)) && Run(more).bitmaps == Run(steps).bitmaps
    ensures Run(more).waiters.Keys == Run(steps).waiters.Keys
  {
    var decided := MissedDecides(steps, id, key);
    more := DecidedBlocks(decided, id, key);
  }

  lemma CallStep(s: System, id: nat, client: string, key: string)
    requires id !in s.waiters
    ensures var s' := Next(s, Call(id, client, key, 1000));
      && Waiting(s', id, key, Lookup) && s'.flag == s.flag && s'.pending == s.pending && s'.bitmaps == s.bitmaps
      && s'.waiters.Keys == s.waiters.Keys + {id}
      && forall i :: i in s.waiters ==> s'.waiters[i] == s.waiters[i]
  {
  }

  /** Call 1 looks for `other`, finds nothing, and blocks. */
  lemma FirstBlocks(client: string, other: string) returns (steps: seq<Action>)
    ensures Waiting(Run(steps), 1, other, Blocked) && Quiet(Run(steps))
    ensures Run(steps).bitmaps == map[] && Run(steps).waiters.Keys == {1}
  {
    CallStep(START, 1, client, other);
    RunAppend([], Call(1, client, other, 1000));
    steps := [] + [Call(1, client, other, 1000)];
    steps := MissGo(steps, 1, other, Lookup);
    steps := MissedBlocks(steps, 1, other);
  }

  /** Then call 0 looks for `key` and finds nothing either. */
  lemma SecondMisses(client: string, key: string, other: string) returns (steps: seq<Action>)
    ensures Waiting(Run(steps), 1, other, Blocked) && Waiting(Run(steps), 0, key, Missed) && Quiet(Run(steps))
  {
    var first := FirstBlocks(client, other);
    var a := Call(0, client, key, 1000);
    CallStep(Run(first), 0, client, key);
    RunAppend(first, a);
    var second := first + [a];
    RunAppend(second, Go(0));
    MissStep(Run(second), 0, key, Lookup);
    OthersKeepWaiting(Run(second), 0, 1, other, Blocked);
    steps := second + [Go(0)];
  }

  /** The bitmap for `key` is stored and the event set, but the other call takes the wake-up. */
  lemma OtherTakesWake(s: System, key: string, other: string, data: Bytes)
    requires Waiting(s, 1, other, Blocked) && Waiting(s, 0, key, Missed) && Quiet(s)
    ensures var s' := Next(Next(Next(s, Store(key, data)), SetEvent), Go(1));
      Waiting(s', 0, key, Missed) && Quiet(s') && key in s'.bitmaps
  {
    var s1 := Next(s, Store(key, data));
    assert Waiting(s1, 1, other, Blocked) && Waiting(s1, 0, key, Missed) && s1.pending == 1;
    var s2 := Next(s1, SetEvent);
    assert At(s2, 1, Clear) && Waiting(s2, 0, key, Missed) && s2.pending == 0;
  }

  /**
   * With two calls a wake-up can be lost: there are runs after which a call is blocked although
   * its key is stored, the event is cleared, and no submitter is about to set it.
   */
  lemma TwoWaitersCanLoseOne(client: string, key: string, other: string, data: Bytes) returns (steps: seq<Action>)
    ensures At(Run(steps), 0, Blocked) && WakeLost(Run(steps), 0)
  {
    var missed := SecondMisses(client, key, other);
    OtherTakesWake(Run(missed), key, other, data);
    RunAppend(missed, Store(key, data));
    RunAppend(missed + [Store(key, data)], SetEvent);
    RunAppend(missed + [Store(key, data)] + [SetEvent], Go(1));
    steps := missed + [Store(key, data)] + [SetEvent] + [Go(1)];
    steps := MissedBlocks(steps, 0, key);
  }
}
