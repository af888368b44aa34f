/**
 * The supervisor's in-memory event log.
 *
 * `get_events` filters by timestamp, sorts stably and truncates.  The stable sort is
 * specified by insertion and shown to be the only sorted sequence that keeps, for every
 * timestamp, the arrival order of the events carrying it.
 */
module EventLog {
  import opened Wrappers
  import opened Events

  // ---- Sorted logs and positions in them ----

  ghost predicate Sorted(s: seq<Event>) {
    forall i, j :: 0 <= i < j < |s| ==> s[i].ts <= s[j].ts
  }

  /** How many of the first `n` events come before the first one later than `t`, scanning down. */
  function UpperBoundIn(s: seq<Event>, t: int, n: nat): (p: nat)
    requires n <= |s|
    ensures p <= n
    ensures forall i :: p <= i < n ==> t < s[i].ts
    ensures 0 < p ==> s[p - 1].ts <= t
  {
    if n == 0 || s[n - 1].ts <= t then n else UpperBoundIn(s, t, n - 1)
  }

  function LowerBoundIn(s: seq<Event>, t: int, n: nat): (p: nat)
    requires n <= |s|
    ensures p <= n
    ensures forall i :: p <= i < n ==> t <= s[i].ts
    ensures 0 < p ==> s[p - 1].ts < t
  {
    if n == 0 || s[n - 1].ts < t then n else LowerBoundIn(s, t, n - 1)
  }

  /** Where a stable insertion of timestamp `t` goes: after every event not later than `t`. */
  function UpperBound(s: seq<Event>, t: int): (p: nat)
    ensures p <= |s|
    ensures forall i :: p <= i < |s| ==> t < s[i].ts
    ensures 0 < p ==> s[p - 1].ts <= t
  {
    UpperBoundIn(s, t, |s|)
  }

  /** The first position whose timestamp reaches the inclusive cursor `t`. */
  function LowerBound(s: seq<Event>, t: int): (p: nat)
    ensures p <= |s|
    ensures forall i :: p <= i < |s| ==> t <= s[i].ts
    ensures 0 < p ==> s[p - 1].ts < t
  {
    LowerBoundIn(s, t, |s|)
  }

  lemma LowerBoundIs(s: seq<Event>, t: int, p: nat)
    requires Sorted(s) && p <= |s|
    requires forall i :: p <= i < |s| ==> t <= s[i].ts
    requires 0 < p ==> s[p - 1].ts < t
    ensures LowerBound(s, t) == p
  {
  }

  lemma UpperBoundIs(s: seq<Event>, t: int, p: nat)
    requires Sorted(s) && p <= |s|
    requires forall i :: p <= i < |s| ==> t < s[i].ts
    requires 0 < p ==> s[p - 1].ts <= t
    ensures UpperBound(s, t) == p
  {
  }

  // ---- The stable sort ----

  function Insert(s: seq<Event>, e: Event): (r: seq<Event>)
    ensures |r| == |s| + 1
  {
    var p := UpperBound(s, e.ts);
    s[..p] + [e] + s[p..]
  }

  lemma InsertKeepsSorted(s: seq<Event>, e: Event)
    requires Sorted(s)
    ensures Sorted(Insert(s, e))
  {
    var p := UpperBound(s, e.ts);
    forall i, j | 0 <= i < j < |s| + 1
      ensures Insert(s, e)[i].ts <= Insert(s, e)[j].ts
    {
      if i < p { assert s[i].ts <= s[p - 1].ts; }
    }
  }

  function StableSort(log: seq<Event>): (r: seq<Event>)
    ensures |r| == |log|
  {
    if log == [] then [] else Insert(StableSort(log[..|log| - 1]), log[|log| - 1])
  }

  lemma {:induction false} StableSortSorts(log: seq<Event>)
    ensures Sorted(StableSort(log))
  {
    if log != [] {
      StableSortSorts(log[..|log| - 1]);
      InsertKeepsSorted(StableSort(log[..|log| - 1]), log[|log| - 1]);
    }
  }

  lemma InsertPermutes(s: seq<Event>, e: Event)
    ensures multiset(Insert(s, e)) == multiset(s) + multiset{e}
  {
    var p := UpperBound(s, e.ts);
    assert s == s[..p] + s[p..];
  }

  lemma {:induction false} StableSortPermutes(log: seq<Event>)
    ensures multiset(StableSort(log)) == multiset(log)
  {
    if log != [] {
      var n := |log| - 1;
      StableSortPermutes(log[..n]);
      InsertPermutes(StableSort(log[..n]), log[n]);
      assert log == log[..n] + [log[n]];
    }
  }

  /** The events stamped `t`, in order. */
  function Stamped(s: seq<Event>, t: int): (r: seq<Event>) {
    if s == [] then []
    else Stamped(s[..|s| - 1], t) + (if s[|s| - 1].ts == t then [s[|s| - 1]] else [])
  }

  lemma {:induction false} StampedConcat(a: seq<Event>, b: seq<Event>, t: int)
    ensures Stamped(a + b, t) == Stamped(a, t) + Stamped(b, t)
  {
    if b == [] {
      assert a + b == a;
    } else {
      assert (a + b)[..|a + b| - 1] == a + b[..|b| - 1];
      StampedConcat(a, b[..|b| - 1], t);
    }
  }

  lemma {:induction false} StampedEmpty(s: seq<Event>, t: int)
    requires forall i :: 0 <= i < |s| ==> s[i].ts != t
    ensures Stamped(s, t) == []
  {
    if s != [] { StampedEmpty(s[..|s| - 1], t); }
  }

  lemma StampedPieces(x: seq<Event>, e: Event, y: seq<Event>, t: int)
    ensures Stamped(x + [e] + y, t) == Stamped(x, t) + (if e.ts == t then [e] else []) + Stamped(y, t)
  {
    StampedConcat(x + [e], y, t);
    assert (x + [e])[..|x|] == x;
  }

  lemma StampedSplit(s: seq<Event>, k: nat, t: int)
    requires k <= |s|
    ensures Stamped(s, t) == Stamped(s[..k], t) + Stamped(s[k..], t)
  {
    assert s == s[..k] + s[k..];
    StampedConcat(s[..k], s[k..], t);
  }

  lemma InsertStamped(s: seq<Event>, e: Event, t: int)
    ensures Stamped(Insert(s, e), t) == Stamped(s, t) + (if e.ts == t then [e] else [])
  {
    var p := UpperBound(s, e.ts);
    StampedPieces(s[..p], e, s[p..], t);
    if e.ts == t { StampedEmpty(s[p..], t); }
    StampedSplit(s, p, t);
  }

  /** Sorting keeps the arrival order of equal timestamps. */
  lemma {:induction false} StableSortIsStable(log: seq<Event>, t: int)
    ensures Stamped(StableSort(log), t) == Stamped(log, t)
  {
    if log != [] {
      var n := |log| - 1;
      StableSortIsStable(log[..n], t);
      InsertStamped(StableSort(log[..n]), log[n], t);
    }
  }

  lemma {:induction false} ClassNotAfterLast(s: seq<Event>, t: int)
    requires s != [] && Sorted(s) && Stamped(s, t) != []
    ensures t <= s[|s| - 1].ts
  {
    if s[|s| - 1].ts != t { ClassNotAfterLast(s[..|s| - 1], t); }
  }

  lemma SameLastEvent(a: seq<Event>, b: seq<Event>, x: Event, y: Event)
    requires a != [] && b != [] && x == a[|a| - 1] && y == b[|b| - 1]
    requires Sorted(a) && Sorted(b)
    requires Stamped(a, x.ts) == Stamped(b, x.ts) && Stamped(a, y.ts) == Stamped(b, y.ts)
    ensures x == y
  {
    ClassNotAfterLast(b, x.ts);
    ClassNotAfterLast(a, y.ts);
    var c := Stamped(a, x.ts);
    assert c[|c| - 1] == x;
  }

  lemma DropLastOfClass(a: seq<Event>, b: seq<Event>, t: int)
    requires a != [] && b != [] && a[|a| - 1] == b[|b| - 1]
    requires Stamped(a, t) == Stamped(b, t)
    ensures Stamped(a[..|a| - 1], t) == Stamped(b[..|b| - 1], t)
  {
    var x := a[|a| - 1];
    var p, q := Stamped(a[..|a| - 1], t), Stamped(b[..|b| - 1], t);
    if x.ts == t {
      assert p == (p + [x])[..|p|];
      assert q == (q + [x])[..|q|];
    } else {
      assert Stamped(a, t) == p + [] == p;
      assert Stamped(b, t) == q + [] == q;
    }
  }

  ghost predicate SameClasses(a: seq<Event>, b: seq<Event>) {
    forall t :: Stamped(a, t) == Stamped(b, t)
  }

  lemma SameClassesSameLast(a: seq<Event>, b: seq<Event>)
    requires SameClasses(a, b) && Sorted(a) && Sorted(b) && a != []
    ensures b != [] && a[|a| - 1] == b[|b| - 1]
  {
    var x := a[|a| - 1];
    assert Stamped(b, x.ts) == Stamped(a, x.ts) != [];
    SameLastEvent(a, b, x, b[|b| - 1]);
  }

  lemma SameClassesBeforeLast(a: seq<Event>, b: seq<Event>)
    requires a != [] && b != [] && a[|a| - 1] == b[|b| - 1] && SameClasses(a, b)
    ensures SameClasses(a[..|a| - 1], b[..|b| - 1])
  {
    var a', b' := a[..|a| - 1], b[..|b| - 1];
    forall t ensures Stamped(a', t) == Stamped(b', t) {
      DropLastOfClass(a, b, t);
    }
  }

  /** Two sorted logs that agree on every timestamp class are equal. */
  lemma {:induction false} SortedClassesDetermine(a: seq<Event>, b: seq<Event>)
    requires SameClasses(a, b) && Sorted(a) && Sorted(b)
    ensures a == b
  {
    if a != [] {
      SameClassesSameLast(a, b);
      SameClassesBeforeLast(a, b);
      SortedClassesDetermine(a[..|a| - 1], b[..|b| - 1]);
      assert a == a[..|a| - 1] + [a[|a| - 1]] && b == b[..|b| - 1] + [b[|b| - 1]];
    } else if b != [] {
      SameClassesSameLast(b, a);
    }
  }

  /** `StableSort` is the only sorted rearrangement that is stable. */
  lemma StableSortUnique(log: seq<Event>, r: seq<Event>)
    requires Sorted(r) && SameClasses(r, log)
    ensures r == StableSort(log)
  {
    forall t ensures Stamped(r, t) == Stamped(StableSort(log), t) {
      StableSortIsStable(log, t);
    }
    StableSortSorts(log);
    SortedClassesDetermine(r, StableSort(log));
  }

  lemma {:induction false} SortedLogIsFixed(log: seq<Event>)
    requires Sorted(log)
    ensures StableSort(log) == log
  {
    if log != [] {
      var n := |log| - 1;
      SortedLogIsFixed(log[..n]);
      assert UpperBound(log[..n], log[n].ts) == n;
      assert log == log[..n] + [log[n]];
    }
  }

  // ---- Queries ----

  function Since(log: seq<Event>, t: int): (r: seq<Event>)
    ensures forall e :: e in r <==> e in log && t <= e.ts
  {
    if log == [] then []
    else
      var n := |log| - 1;
      assert log == log[..n] + [log[n]];
      Since(log[..n], t) + (if t <= log[n].ts then [log[n]] else [])
  }

  /** Python's `s[:n]`, where a negative bound counts from the end. */
  function Head<T>(s: seq<T>, n: int): (r: seq<T>)
    ensures r <= s
    ensures 0 <= n ==> |r| == if n < |s| then n else |s|
    ensures n < 0 ==> |r| == if -n < |s| then |s| + n else 0
  {
    if 0 <= n then (if n < |s| then s[..n] else s)
    else if 0 <= |s| + n then s[..|s| + n] else []
  }

  /** A page of the sorted log: start at the first event at or after `t`, at most `n` events. */
  function Page(sorted: seq<Event>, t: int, n: int): (r: seq<Event>) {
    Head(sorted[LowerBound(sorted, t)..], n)
  }

  lemma CursorBeforeInsertion(s: seq<Event>, e: Event, t: int)
    requires Sorted(s) && t <= e.ts
    ensures LowerBound(Insert(s, e), t) == LowerBound(s, t) <= UpperBound(s, e.ts)
  {
    InsertKeepsSorted(s, e);
    LowerBoundIs(Insert(s, e), t, LowerBound(s, t));
  }

  lemma InsertIntoSuffix(s: seq<Event>, e: Event, k: nat)
    requires Sorted(s) && k <= UpperBound(s, e.ts)
    ensures Insert(s, e)[k..] == Insert(s[k..], e)
  {
    var p := UpperBound(s, e.ts);
    UpperBoundIs(s[k..], e.ts, p - k);
    var x, y, z := s[..k], s[k..p], s[p..];
    assert s[..p] == x + y;
    assert (x + y + [e] + z)[k..] == y + [e] + z;
  }

  /** An insertion at or after the cursor happens inside the part the cursor selects. */
  lemma InsertAfterCursor(s: seq<Event>, e: Event, t: int)
    requires Sorted(s) && t <= e.ts
    ensures LowerBound(Insert(s, e), t) == LowerBound(s, t)
    ensures Insert(s, e)[LowerBound(s, t)..] == Insert(s[LowerBound(s, t)..], e)
  {
    CursorBeforeInsertion(s, e, t);
    InsertIntoSuffix(s, e, LowerBound(s, t));
  }

  lemma CursorAfterInsertion(s: seq<Event>, e: Event, t: int)
    requires Sorted(s) && e.ts < t
    ensures LowerBound(Insert(s, e), t) == LowerBound(s, t) + 1
    ensures UpperBound(s, e.ts) <= LowerBound(s, t)
  {
    InsertKeepsSorted(s, e);
    LowerBoundIs(Insert(s, e), t, LowerBound(s, t) + 1);
  }

  lemma SuffixAfterInsertion(s: seq<Event>, e: Event, k: nat)
    requires UpperBound(s, e.ts) <= k <= |s|
    ensures Insert(s, e)[k + 1..] == s[k..]
  {
  }

  /** An insertion before the cursor leaves the part the cursor selects alone. */
  lemma InsertBeforeCursor(s: seq<Event>, e: Event, t: int)
    requires Sorted(s) && e.ts < t
    ensures LowerBound(Insert(s, e), t) == LowerBound(s, t) + 1
    ensures Insert(s, e)[LowerBound(s, t) + 1..] == s[LowerBound(s, t)..]
  {
    CursorAfterInsertion(s, e, t);
    SuffixAfterInsertion(s, e, LowerBound(s, t));
  }

  lemma SortOfSinceStep(log: seq<Event>, e: Event, t: int)
    ensures StableSort(Since(log + [e], t))
         == if t <= e.ts then Insert(StableSort(Since(log, t)), e) else StableSort(Since(log, t))
  {
    var f := Since(log, t);
    assert (log + [e])[..|log|] == log;
    if t <= e.ts {
      assert (f + [e])[..|f|] == f;
    } else {
      assert f + [] == f;
    }
  }

  /** Filtering and then sorting is the same as cutting the sorted log at the cursor. */
  lemma {:induction false} SortOfSinceIsSuffix(log: seq<Event>, t: int)
    ensures StableSort(Since(log, t)) == StableSort(log)[LowerBound(StableSort(log), t)..]
  {
    if log != [] {
      var init, e := log[..|log| - 1], log[|log| - 1];
      var s := StableSort(init);
      assert log == init + [e];
      SortOfSinceIsSuffix(init, t);
      SortOfSinceStep(init, e, t);
      StableSortSorts(init);
      if t <= e.ts { InsertAfterCursor(s, e, t); } else { InsertBeforeCursor(s, e, t); }
    }
  }

  const SEED: seq<Event> := [
    Event(1000, TextMessage("lead", "VanPilot supervisor online. Awaiting instructions.")),
    Event(2000, TextMessage("lead", "Agent team initialized with 1 member.")),
    Event(3000, WatchdogTimeout("researcher", 30000))
  ]

  class EventStore {
    var events: seq<Event>

    constructor ()
      ensures events == SEED && |events| == 3
      ensures events[0].ts == 1000 && events[1].ts == 2000 && events[2].ts == 3000
      ensures events[2].payload == WatchdogTimeout("researcher", 30000)
    {
      events := SEED;
    }

    method AddEvent(event: Event)
      modifies this
      ensures events == old(events) + [event]
    {
      events := events + [event];
    }

    /** Filter, then sort, then truncate; what comes back is a page of the whole sorted log. */
    method GetEvents(sinceTimestampMs: int, maxCount: int) returns (r: seq<Event>)
      ensures r == Page(StableSort(events), sinceTimestampMs, maxCount)
    {
      var filtered := [];
      for i := 0 to |events|
        invariant filtered == Since(events[..i], sinceTimestampMs)
      {
        assert events[..i + 1][..i] == events[..i];
        if events[i].ts >= sinceTimestampMs {
          filtered := filtered + [events[i]];
        }
      }
      assert events[..|events|] == events;
      SortOfSinceIsSuffix(events, sinceTimestampMs);
      r := Head(StableSort(filtered), maxCount);
    }
  }
}
