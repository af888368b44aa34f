/**
 * How many polls it takes to deliver everything once the log stops growing, exactly when that
 * happens at all, and what redelivery does to the texts.
 */
module SyncCatchUp {
  import opened Wrappers
  import opened Events
  import opened EventLog
  import opened EventProcessing
  import opened Connectivity
  import opened Conversations
  import opened SyncCore

  function Polls(c: Core, n: nat): Core
    decreases n
  {
    if n == 0 then c else Polls(Polled(c), n - 1)
  }

  lemma PollsStep(c: Core, n: nat)
    requires n > 0
    ensures Polls(c, n) == Polls(Polled(c), n - 1)
  {
  }

  /** Whatever every poll keeps, any number of polls keeps. */
  lemma {:induction false} PollsKeep(p: Core -> bool, c: Core, n: nat)
    requires p(c) && forall x {:trigger Polled(x)} :: p(x) ==> p(Polled(x))
    ensures p(Polls(c, n))
    decreases n
  {
    if n > 0 {
      PollsKeep(p, Polled(c), n - 1);
      PollsStep(c, n);
    }
  }

  /** A measure that every poll lowers until it reaches zero reaches zero in that many polls. */
  lemma {:induction false} PollsExhaust(p: Core -> bool, measure: Core -> int, c: Core, n: nat)
    requires p(c) && measure(c) <= n
    requires forall x {:trigger Polled(x)} :: p(x) ==> p(Polled(x))
    requires forall x {:trigger Polled(x)} ::
      p(x) ==> measure(Polled(x)) <= if measure(x) > 0 then measure(x) - 1 else 0
    ensures measure(Polls(c, n)) <= 0
    decreases n
  {
    if n > 0 {
      PollsExhaust(p, measure, Polled(c), n - 1);
      PollsStep(c, n);
    }
  }

  function Copies(n: nat, k: int): int {
    if n == 0 then 0 else Copies(n - 1, k) + k
  }

  lemma {:induction false} CopiesMultiply(n: nat, k: int)
    ensures Copies(n, k) == n * k
  {
    if n > 0 {
      CopiesMultiply(n - 1, k);
      assert (n - 1) * k + k == n * k;
    }
  }

  /** A quantity that every poll raises by `k` grows linearly. */
  lemma {:induction false} PollsRaise(p: Core -> bool, quantity: Core -> int, k: int, c: Core, n: nat)
    requires p(c) && forall x {:trigger p(Polled(x))} :: p(x) ==> p(Polled(x))
    requires forall x {:trigger quantity(Polled(x))} :: p(x) ==> quantity(Polled(x)) == quantity(x) + k
    ensures quantity(Polls(c, n)) == quantity(c) + Copies(n, k)
    decreases n
  {
    if n > 0 {
      assert quantity(Polled(c)) == quantity(c) + k;
      PollsRaise(p, quantity, k, Polled(c), n - 1);
      PollsStep(c, n);
    }
  }

  function Undelivered(c: Core): int {
    |c.sorted| - c.delivered
  }

  /** Successful polls left until the client asks for full pages of fifty. */
  function RampLeft(c: Core): nat {
    if !c.connected then 5
    else if c.maxCount == 5 then 4
    else if c.maxCount == 10 then 3
    else if c.maxCount == 20 then 2
    else if c.maxCount == 40 then 1
    else 0
  }

  /** A bound on the successful polls still needed. */
  function PollsNeeded(c: Core): int {
    if Undelivered(c) == 0 then 0 else RampLeft(c) + Undelivered(c)
  }

  /** The fifty events from `i` on carry one single timestamp, and something lies beyond them. */
  predicate SameStampPage(s: seq<Event>, i: nat) {
    i + 50 < |s| && s[i].ts == s[i + 49].ts
  }

  /** No such page lies at or after the cursor. */
  ghost predicate Drainable(c: Core) {
    forall i: nat :: Start(c) <= i ==> !SameStampPage(c.sorted, i)
  }

  lemma FullPageDelivers(c: Core)
    requires Inv(c) && Drainable(c) && c.maxCount == 50 && Undelivered(c) > 0
    ensures c.delivered < End(c)
  {
    if Start(c) + 50 < |c.sorted| {
      assert !SameStampPage(c.sorted, Start(c));
    }
  }

  lemma PollReducesWork(c: Core)
    requires Inv(c) && Drainable(c)
    ensures Inv(Polled(c)) && Drainable(Polled(c)) && Polled(c).sorted == c.sorted
    ensures PollsNeeded(c) > 0 ==> PollsNeeded(Polled(c)) < PollsNeeded(c)
    ensures PollsNeeded(c) == 0 ==> PollsNeeded(Polled(c)) == 0
  {
    PollAdvances(c);
    PolledIs(c);
    if Undelivered(c) > 0 && RampLeft(c) == 0 {
      FullPageDelivers(c);
    }
  }

  lemma PollsDeliver(c: Core, n: nat)
    requires Inv(c) && Drainable(c) && PollsNeeded(c) <= n
    ensures Undelivered(Polls(c, n)) == 0
  {
    var p := (x: Core) => Inv(x) && Drainable(x);
    forall x {:trigger Polled(x)} | p(x)
      ensures p(Polled(x))
      ensures PollsNeeded(Polled(x)) <= if PollsNeeded(x) > 0 then PollsNeeded(x) - 1 else 0
    {
      PollReducesWork(x);
    }
    PollsExhaust(p, (x: Core) => PollsNeeded(x), c, n);
    PollsKeep(p, c, n);
  }

  ghost predicate PinnedAt(c: Core, i: nat) {
    SameStampPage(c.sorted, i) && c.since <= c.sorted[i].ts && c.delivered <= i + 50
  }

  lemma PollStaysPinned(c: Core, i: nat)
    requires Inv(c) && PinnedAt(c, i)
    ensures Inv(Polled(c)) && PinnedAt(Polled(c), i) && Polled(c).sorted == c.sorted
  {
    PollAdvances(c);
    PolledIs(c);
    StartNotAfter(c.sorted, c.since, i);
    if Start(c) < End(c) {
      assert c.sorted[End(c) - 1].ts <= c.sorted[i + 49].ts;
    }
  }

  lemma StartNotAfter(s: seq<Event>, since: int, i: nat)
    requires Sorted(s) && i < |s| && since <= s[i].ts
    ensures LowerBound(s, since) <= i
  {
  }

  lemma PinnedForever(c: Core, i: nat, n: nat)
    requires Inv(c) && PinnedAt(c, i)
    ensures Undelivered(Polls(c, n)) > 0
  {
    var p := (x: Core) => Inv(x) && PinnedAt(x, i);
    forall x {:trigger Polled(x)} | p(x) ensures p(Polled(x)) {
      PollStaysPinned(x, i);
    }
    PollsKeep(p, c, n);
  }

  lemma NotDrainableIsPinned(c: Core) returns (i: nat)
    requires Inv(c) && !Drainable(c)
    ensures PinnedAt(c, i)
  {
    i :| Start(c) <= i && SameStampPage(c.sorted, i);
  }

  /**
   * Bounded catch-up, exactly.  Once appends stop, five plus the number of undelivered events
   * successful polls deliver everything if the log is drainable from the cursor; if it is
   * not, no number of polls ever does.
   */
  lemma CatchUpIff(c: Core, n: nat)
    requires Inv(c) && 5 + Undelivered(c) <= n
    ensures Undelivered(Polls(c, n)) == 0 <==> Drainable(c)
    ensures !Drainable(c) ==> forall m: nat :: Undelivered(Polls(c, m)) > 0
  {
    if Drainable(c) {
      PollsDeliver(c, n);
    } else {
      var i := NotDrainableIsPinned(c);
      forall m: nat ensures Undelivered(Polls(c, m)) > 0 {
        PinnedForever(c, i, m);
      }
    }
  }

  lemma {:induction false} AllStamped(s: seq<Event>, t: int)
    requires forall i :: 0 <= i < |s| ==> s[i].ts == t
    ensures Stamped(s, t) == s
  {
    if s != [] {
      AllStamped(s[..|s| - 1], t);
      assert s == s[..|s| - 1] + [s[|s| - 1]];
    }
  }

  lemma ClassHolds(s: seq<Event>, i: nat, n: nat, t: int)
    requires i + n <= |s| && forall j :: i <= j < i + n ==> s[j].ts == t
    ensures |Stamped(s, t)| >= n
  {
    StampedSplit(s, i + n, t);
    StampedSplit(s[..i + n], i, t);
    assert s[..i + n][i..] == s[i..i + n];
    AllStamped(s[i..i + n], t);
  }

  /** Fewer than fifty events on every timestamp is enough. */
  lemma FewPerTimestampDrains(c: Core)
    requires Inv(c) && forall t :: |Stamped(c.sorted, t)| < 50
    ensures Drainable(c)
  {
    var s := c.sorted;
    forall i: nat | Start(c) <= i ensures !SameStampPage(s, i) {
      if SameStampPage(s, i) {
        assert forall j :: i <= j < i + 50 ==> s[i].ts <= s[j].ts <= s[i + 49].ts;
        ClassHolds(s, i, 50, s[i].ts);
      }
    }
  }

  /** No timestamp is shared by more than five events. */
  ghost predicate FiveAStamp(s: seq<Event>) {
    forall t :: |Stamped(s, t)| <= 5
  }

  lemma SortKeepsFive(log: seq<Event>)
    requires FiveAStamp(log)
    ensures FiveAStamp(StableSort(log))
  {
    forall t ensures |Stamped(StableSort(log), t)| <= 5 {
      StableSortIsStable(log, t);
    }
  }

  /** Then every page ends at or after what was delivered. */
  lemma FiveAStampReachesFrontier(c: Core)
    requires Inv(c) && FiveAStamp(c.sorted)
    ensures c.delivered <= End(c)
  {
    if End(c) < c.delivered {
      forall j | Start(c) <= j < Start(c) + 6 ensures c.sorted[j].ts == c.since {
        RepeatsCarryTheCursor(c, j);
      }
      ClassHolds(c.sorted, Start(c), 6, c.since);
    }
  }

  lemma FiveAStampKeepsRegister(c: Core, r: Register, k: nat)
    requires Inv(c) && FiveAStamp(c.sorted) && RegisterWithin(c, r, k)
    ensures k <= Reflected(c, r, k) && !SetsBack(c, r, k)
  {
    FiveAStampReachesFrontier(c);
  }

  // ---- Redelivery ----

  lemma {:induction false} TextsOfConcat(a: seq<Event>, b: seq<Event>)
    ensures TextsOf(a + b) == TextsOf(a) + TextsOf(b)
  {
    if b == [] {
      assert a + b == a;
    } else {
      assert (a + b)[..|a + b| - 1] == a + b[..|b| - 1];
      TextsOfConcat(a, b[..|b| - 1]);
    }
  }

  /** Where the undelivered part of the next page starts. */
  function NewFrom(c: Core): int {
    Min(c.delivered, End(c))
  }

  lemma {:induction false} NoTextsIff(es: seq<Event>)
    ensures TextsOf(es) == [] <==> forall i :: 0 <= i < |es| ==> !es[i].payload.TextMessage?
  {
    if es != [] {
      var n := |es| - 1;
      NoTextsIff(es[..n]);
      assert forall i :: 0 <= i < n ==> es[..n][i] == es[i];
    }
  }

  lemma NoTextsInSlice(s: seq<Event>, lo: nat, hi: nat)
    requires lo <= hi <= |s|
    ensures TextsOf(s[lo..hi]) == [] <==> forall i :: lo <= i < hi ==> !s[i].payload.TextMessage?
  {
    NoTextsIff(s[lo..hi]);
    assert forall i :: lo <= i < hi ==> s[lo..hi][i - lo] == s[i];
  }

  lemma AddedInTheMiddle(a: seq<Message>, b: seq<Message>, c: seq<Message>)
    ensures a + b + c == a + c <==> b == []
  {
    if b == [] { assert a + b == a; } else { assert |a + b + c| != |a + c|; }
  }

  /** None of the delivered events the next page repeats, all of which carry the cursor, is a text. */
  predicate RepeatsNoText(c: Core)
    requires NewFrom(c) <= |c.sorted|
  {
    forall i :: Start(c) <= i < NewFrom(c) ==> !c.sorted[i].payload.TextMessage?
  }

  lemma TextsOfPoll(c: Core)
    requires Inv(c)
    ensures Start(c) <= NewFrom(c) <= End(c) <= |c.sorted|
    ensures TextsOf(Polled(c).processed)
         == TextsOf(c.processed) + TextsOf(c.sorted[Start(c)..NewFrom(c)]) + TextsOf(c.sorted[NewFrom(c)..End(c)])
  {
    PageIsSlice(c);
    PolledIs(c);
    TextsOfConcat(c.processed, c.sorted[Start(c)..End(c)]);
    TextsOfHalves(c.sorted, Start(c), NewFrom(c), End(c));
  }

  /**
   * One poll adds the undelivered texts of its page, in order, after repeating the delivered
   * ones; it adds the undelivered ones alone if and only if none of the repeated events is a text.
   */
  lemma PollRepeatsTexts(c: Core)
    requires Inv(c)
    ensures Start(c) <= NewFrom(c) <= End(c) <= |c.sorted|
    ensures var again, fresh_ := TextsOf(c.sorted[Start(c)..NewFrom(c)]), TextsOf(c.sorted[NewFrom(c)..End(c)]);
      && TextsOf(Polled(c).processed) == TextsOf(c.processed) + again + fresh_
      && (TextsOf(Polled(c).processed) == TextsOf(c.processed) + fresh_ <==> RepeatsNoText(c))
    ensures forall i :: Start(c) <= i < NewFrom(c) ==> c.sorted[i].ts == c.since
  {
    TextsOfPoll(c);
    NoTextsInSlice(c.sorted, Start(c), NewFrom(c));
    AddedInTheMiddle(TextsOf(c.processed),
                     TextsOf(c.sorted[Start(c)..NewFrom(c)]), TextsOf(c.sorted[NewFrom(c)..End(c)]));
    RepeatsAtCursor(c);
  }

  lemma RepeatsAtCursor(c: Core)
    requires Inv(c) && NewFrom(c) <= |c.sorted|
    ensures forall i :: Start(c) <= i < NewFrom(c) ==> c.sorted[i].ts == c.since
  {
    forall i | Start(c) <= i < NewFrom(c) ensures c.sorted[i].ts == c.since {
      RepeatsCarryTheCursor(c, i);
    }
  }

  lemma TextsOfHalves(s: seq<Event>, lo: nat, mid: nat, hi: nat)
    requires lo <= mid <= hi <= |s|
    ensures TextsOf(s[lo..hi]) == TextsOf(s[lo..mid]) + TextsOf(s[mid..hi])
  {
    assert s[lo..hi] == s[lo..mid] + s[mid..hi];
    TextsOfConcat(s[lo..mid], s[mid..hi]);
  }

  /** Everything is delivered, and the events carrying the cursor fit in a page. */
  ghost predicate Idle(c: Core) {
    Inv(c) && c.connected && Undelivered(c) == 0 && |c.sorted| - Start(c) < c.maxCount
  }

  lemma IdlePoll(c: Core)
    requires Idle(c)
    ensures Idle(Polled(c)) && Start(Polled(c)) == Start(c) && Polled(c).sorted == c.sorted
    ensures Polled(c).processed == c.processed + c.sorted[Start(c)..]
  {
    PolledIs(c);
    PollAdvances(c);
    assert c.sorted[Start(c)..End(c)] == c.sorted[Start(c)..];
  }

  /** `again` is what every poll of the idle log hands over. */
  ghost predicate IdleOn(c: Core, again: seq<Event>) {
    Idle(c) && c.sorted[Start(c)..] == again
  }

  lemma IdlePollAdds(c: Core, again: seq<Event>)
    requires IdleOn(c, again)
    ensures IdleOn(Polled(c), again)
    ensures |TextsOf(Polled(c).processed)| == |TextsOf(c.processed)| + |TextsOf(again)|
  {
    IdlePoll(c);
    TextsOfConcat(c.processed, again);
  }

  /**
   * Polling an idle log is not idempotent: every poll processes the cursor's events again, so
   * the message list grows by the texts among them each time.
   */
  lemma IdlePollsRepeatTexts(c: Core, n: nat)
    requires Idle(c)
    ensures |TextsOf(Polls(c, n).processed)| == |TextsOf(c.processed)| + n * |TextsOf(c.sorted[Start(c)..])|
  {
    var again := c.sorted[Start(c)..];
    var p, count := (x: Core) => IdleOn(x, again), (x: Core) => |TextsOf(x.processed)|;
    forall x | p(x) ensures p(Polled(x)) && count(Polled(x)) == count(x) + |TextsOf(again)| {
      IdlePollAdds(x, again);
    }
    PollsRaise(p, count, |TextsOf(again)|, c, n);
    CopiesMultiply(n, |TextsOf(again)|);
  }
}
