/** GetBitmap requests, as threads, against the tracker that records what each client was sent. */
module BitmapFetches {
  import opened Wrappers
  import opened Events
  import opened BitmapTracker

  /** A GetBitmap call looks its key up and, if it was found, marks it later, when it answers. */
  datatype Step =
    | Change(op: TrackerOp)
    | Lookup(call: nat, client: string, key: string)
    | Answer(call: nat)

  datatype Wanted = Wanted(client: string, key: string)

  /** The tracker, and the calls that have found their key and not yet answered. */
  datatype Service = Service(tracker: Tracker, found: map<nat, Wanted>)

  function Next(s: Service, step: Step): Service {
    match step
    case Change(op) => s.(tracker := Apply(s.tracker, op))
    case Lookup(call, client, key) =>
      if key in s.tracker.bitmaps then s.(found := s.found[call := Wanted(client, key)])
      else s.(found := s.found - {call})
    case Answer(call) =>
      if call !in s.found then s
      else Service(Apply(s.tracker, TrackerOp.MarkSent(s.found[call].client, s.found[call].key)), s.found - {call})
  }

  function From(s: Service, steps: seq<Step>): Service
    decreases |steps|
  {
    if steps == [] then s else From(Next(s, steps[0]), steps[1..])
  }

  predicate OfCall(step: Step, call: nat) {
    (step.Lookup? || step.Answer?) && step.call == call
  }

  ghost predicate NoReset(steps: seq<Step>, client: string) {
    forall i :: 0 <= i < |steps| && steps[i].Change? ==> !Resets(steps[i].op, client)
  }

  ghost predicate AnsweredAt(steps: seq<Step>, call: nat, j: int) {
    0 <= j < |steps| && steps[j] == Answer(call) && forall k :: 0 <= k < j ==> !OfCall(steps[k], call)
  }

  /** The call that looks `key` up in step `i` answers in step `j`. */
  ghost predicate FetchedAt(steps: seq<Step>, client: string, key: string, i: int, j: int) {
    && 0 <= i < j < |steps| && steps[i].Lookup? && steps[i] == Lookup(steps[i].call, client, key)
    && AnsweredAt(steps[i + 1..], steps[i].call, j - i - 1)
  }

  ghost predicate Fetched(steps: seq<Step>, client: string, key: string) {
    exists i, j :: FetchedAt(steps, client, key, i, j)
  }

  lemma NoResetLater(steps: seq<Step>, client: string)
    requires steps != [] && NoReset(steps, client)
    ensures NoReset(steps[1..], client)
  {
    forall i | 0 <= i < |steps[1..]| && steps[1..][i].Change? ensures !Resets(steps[1..][i].op, client) {
      assert steps[1..][i] == steps[i + 1];
    }
  }

  lemma {:induction false} SentStays(s: Service, steps: seq<Step>, client: string, key: string)
    requires key in SentTo(s.tracker, client) && NoReset(steps, client)
    ensures key in SentTo(From(s, steps).tracker, client)
    decreases |steps|
  {
    if steps != [] {
      NoResetLater(steps, client);
      SentStays(Next(s, steps[0]), steps[1..], client, key);
    }
  }

  lemma {:induction false} AnswerMarks(s: Service, steps: seq<Step>, call: nat, client: string, key: string, j: nat)
    requires call in s.found && s.found[call] == Wanted(client, key)
    requires AnsweredAt(steps, call, j) && NoReset(steps, client)
    ensures key in SentTo(From(s, steps).tracker, client)
    decreases |steps|
  {
    NoResetLater(steps, client);
    if j == 0 {
      SentStays(Next(s, steps[0]), steps[1..], client, key);
    } else {
      AnswerMarks(Next(s, steps[0]), steps[1..], call, client, key, j - 1);
    }
  }

  lemma FromFirst(s: Service, steps: seq<Step>, i: nat)
    requires 0 < i <= |steps|
    ensures From(s, steps[..i]) == From(Next(s, steps[0]), steps[1..][..i - 1])
  {
    assert steps[..i][1..] == steps[1..][..i - 1];
  }

  /** The fetch from step `i` to step `j` is of a key that is stored when it is looked up. */
  ghost predicate FoundAt(s: Service, steps: seq<Step>, client: string, key: string, i: int, j: int) {
    FetchedAt(steps, client, key, i, j) && key in From(s, steps[..i]).tracker.bitmaps
  }

  /** A fetch of a key that is stored finds it, however it interleaves, and leaves it marked. */
  lemma {:induction false} FetchMarks(s: Service, steps: seq<Step>, client: string, key: string, i: int, j: int)
    requires FoundAt(s, steps, client, key, i, j) && NoReset(steps, client)
    ensures key in SentTo(From(s, steps).tracker, client)
    decreases |steps|
  {
    NoResetLater(steps, client);
    if i == 0 {
      AnswerMarks(Next(s, steps[0]), steps[1..], steps[0].call, client, key, j - 1);
    } else {
      assert steps[i + 1..] == steps[1..][i..];
      FromFirst(s, steps, i);
      FetchMarks(Next(s, steps[0]), steps[1..], client, key, i - 1, j - 1);
    }
  }

  lemma {:induction false} StoredStays(s: Service, steps: seq<Step>, key: string)
    requires key in s.tracker.bitmaps
    ensures key in From(s, steps).tracker.bitmaps
    decreases |steps|
  {
    if steps != [] { StoredStays(Next(s, steps[0]), steps[1..], key); }
  }

  // ---- Nothing else is marked ----

  /** Marks come from answers alone. */
  ghost predicate NoMark(steps: seq<Step>) {
    forall i :: 0 <= i < |steps| && steps[i].Change? ==> !steps[i].op.MarkSent?
  }

  /** A call that had found the key for the client before answers in step `j`. */
  ghost predicate PendingAt(s: Service, steps: seq<Step>, client: string, key: string, call: nat, j: int) {
    call in s.found && s.found[call] == Wanted(client, key) && AnsweredAt(steps, call, j)
  }

  /** Why a key is in a client's sent set after the steps. */
  ghost predicate Explained(s: Service, steps: seq<Step>, client: string, key: string) {
    || key in SentTo(s.tracker, client)
    || (exists call, j :: PendingAt(s, steps, client, key, call, j))
    || (exists i, j :: FoundAt(s, steps, client, key, i, j))
  }

  lemma FoundLater(s: Service, steps: seq<Step>, client: string, key: string, i: int, j: int)
    requires steps != [] && FoundAt(Next(s, steps[0]), steps[1..], client, key, i, j)
    ensures FoundAt(s, steps, client, key, i + 1, j + 1)
  {
    assert steps[1..][i + 1..] == steps[i + 2..];
    FromFirst(s, steps, i + 1);
  }

  lemma PendingLater(s: Service, steps: seq<Step>, client: string, key: string, call: nat, j: int)
    requires steps != [] && PendingAt(Next(s, steps[0]), steps[1..], client, key, call, j)
    ensures PendingAt(s, steps, client, key, call, j + 1) || FoundAt(s, steps, client, key, 0, j + 1)
  {
    if steps[0].Lookup? && steps[0].call == call {
      assert steps[..0] == [] && From(s, []) == s;
      assert FoundAt(s, steps, client, key, 0, j + 1);
    } else {
      assert AnsweredAt(steps, call, j + 1);
    }
  }

  lemma ExplainedLater(s: Service, steps: seq<Step>, client: string, key: string)
    requires steps != [] && NoReset(steps, client) && NoMark(steps)
    requires Explained(Next(s, steps[0]), steps[1..], client, key)
    ensures Explained(s, steps, client, key)
  {
    var t := Next(s, steps[0]);
    if key in SentTo(t.tracker, client) {
      if key !in SentTo(s.tracker, client) {
        assert PendingAt(s, steps, client, key, steps[0].call, 0);
      }
    } else if call, j :| PendingAt(t, steps[1..], client, key, call, j) {
      PendingLater(s, steps, client, key, call, j);
    } else {
      var i, j :| FoundAt(t, steps[1..], client, key, i, j);
      FoundLater(s, steps, client, key, i, j);
    }
  }

  lemma {:induction false} SentIsExplained(s: Service, steps: seq<Step>, client: string, key: string)
    requires NoReset(steps, client) && NoMark(steps) && key in SentTo(From(s, steps).tracker, client)
    ensures Explained(s, steps, client, key)
    decreases |steps|
  {
    if steps != [] {
      NoResetLater(steps, client);
      SentIsExplained(Next(s, steps[0]), steps[1..], client, key);
      ExplainedLater(s, steps, client, key);
    }
  }

  /**
   * While a client is neither cleared nor reconciled, its sent set gains exactly the keys that
   * its calls looked up when they were stored and answered, calls that had found theirs
   * before included.
   */
  lemma SentAfterIff(s: Service, steps: seq<Step>, client: string, key: string)
    requires NoReset(steps, client) && NoMark(steps)
    ensures key in SentTo(From(s, steps).tracker, client) <==> Explained(s, steps, client, key)
  {
    if key in SentTo(From(s, steps).tracker, client) {
      SentIsExplained(s, steps, client, key);
    } else if key in SentTo(s.tracker, client) {
      SentStays(s, steps, client, key);
    } else if call, j :| PendingAt(s, steps, client, key, call, j) {
      AnswerMarks(s, steps, call, client, key, j);
    } else if i, j :| FoundAt(s, steps, client, key, i, j) {
      FetchMarks(s, steps, client, key, i, j);
    }
  }

  /**
   * A client that fetches every key the reconcile reported missing ends up recorded as holding
   * everything that was stored when it reconciled, whatever else happens meanwhile.
   */
  lemma ReconcileThenFetch(s: Service, client: string, present: set<string>, after: seq<Step>, key: string)
    requires NoReset(after, client)
    requires forall k :: k in s.tracker.bitmaps.Keys - present ==> Fetched(after, client, k)
    requires key in s.tracker.bitmaps
    ensures key in SentTo(From(s, [Change(TrackerOp.Reconcile(client, present))] + after).tracker, client)
  {
    var reconcile := Change(TrackerOp.Reconcile(client, present));
    var t := Next(s, reconcile);
    assert ([reconcile] + after)[1..] == after;
    if key in present {
      SentStays(t, after, client, key);
    } else {
      assert key in s.tracker.bitmaps.Keys - present;
      var i, j :| FetchedAt(after, client, key, i, j);
      StoredStays(t, after[..i], key);
      FetchMarks(t, after, client, key, i, j);
    }
  }
}
