/**
 * The cursor protocol by itself: a sorted log that grows, and a client that reads it in pages
 * from an inclusive timestamp cursor.
 *
 * A page starts at the first event carrying the cursor's timestamp, so delivery is
 * at-least-once; after a failure the page shrinks to five events and may even end before
 * events that were already delivered.
 */
module SyncCore {
  import opened Wrappers
  import opened Events
  import opened EventLog
  import opened EventProcessing
  import opened Connectivity

  /**
   * `delivered` is how far into the sorted log the client has ever been, and `processed` is
   * every event it was ever handed, repeats included; neither influences a step.
   */
  datatype Core = Core(
    sorted: seq<Event>,
    since: int,
    maxCount: int,
    connected: bool,
    delivered: nat,
    processed: seq<Event>)

  /** Where the next page starts. */
  function Start(c: Core): nat {
    LowerBound(c.sorted, c.since)
  }

  /** Where the next page ends. */
  function End(c: Core): int {
    Min(Start(c) + c.maxCount, |c.sorted|)
  }

  function PageOf(c: Core): seq<Event> {
    Page(c.sorted, c.since, c.maxCount)
  }

  function Appended(c: Core, e: Event): Core {
    c.(sorted := Insert(c.sorted, e))
  }

  function Failed(c: Core): Core {
    c.(connected := false, maxCount := Conservative(DEFAULT_LIMITS).maxCount)
  }

  function Polled(c: Core): Core {
    var page := PageOf(c);
    Core(c.sorted,
         if page == [] then c.since else page[|page| - 1].ts,
         if c.connected then Grown(DEFAULT_LIMITS, Batch(c.maxCount, 0)).maxCount
         else Conservative(DEFAULT_LIMITS).maxCount,
         true,
         Max(c.delivered, Start(c) + |page|),
         c.processed + page)
  }

  // ---- The cursor ----

  predicate OnRamp(maxCount: int) {
    maxCount == 5 || maxCount == 10 || maxCount == 20 || maxCount == 40 || maxCount == 50
  }

  /** The cursor is the timestamp of the furthest delivered event, less than a page behind it. */
  ghost predicate CursorAt(s: seq<Event>, since: int, delivered: nat) {
    && delivered <= |s|
    && since == (if delivered == 0 then 0 else s[delivered - 1].ts)
    && LowerBound(s, since) <= delivered <= LowerBound(s, since) + 50
  }

  ghost predicate Inv(c: Core) {
    Sorted(c.sorted) && OnRamp(c.maxCount) && CursorAt(c.sorted, c.since, c.delivered)
  }

  lemma AppendKeepsDelivered(s: seq<Event>, e: Event, since: int, delivered: nat)
    requires Sorted(s) && CursorAt(s, since, delivered) && since <= e.ts
    ensures CursorAt(Insert(s, e), since, delivered)
    ensures Insert(s, e)[..delivered] == s[..delivered]
    ensures LowerBound(Insert(s, e), since) == LowerBound(s, since)
  {
    CursorBeforeInsertion(s, e, since);
    assert delivered <= UpperBound(s, e.ts);
    assert Insert(s, e)[..delivered] == s[..delivered];
    assert 0 < delivered ==> Insert(s, e)[delivered - 1] == s[delivered - 1];
  }

  /** A page is a slice of the sorted log that starts no later than the first undelivered event. */
  lemma PageIsSlice(c: Core)
    requires Inv(c)
    ensures Start(c) <= c.delivered && Start(c) <= End(c) <= |c.sorted|
    ensures PageOf(c) == c.sorted[Start(c)..End(c)]
  {
  }

  /** Only events carrying the cursor that was sent are ever repeated. */
  lemma RepeatsCarryTheCursor(c: Core, i: nat)
    requires Inv(c) && Start(c) <= i < c.delivered
    ensures c.sorted[i].ts == c.since
  {
    assert c.sorted[i].ts <= c.sorted[c.delivered - 1].ts;
  }

  lemma PageMovesCursor(s: seq<Event>, since: int, delivered: nat, hi: nat)
    requires Sorted(s) && CursorAt(s, since, delivered)
    requires LowerBound(s, since) < hi <= LowerBound(s, since) + 50 && hi <= |s|
    ensures CursorAt(s, s[hi - 1].ts, Max(delivered, hi))
    ensures since <= s[hi - 1].ts
    ensures LowerBound(s, since) <= LowerBound(s, s[hi - 1].ts) < hi
  {
    var t := s[hi - 1].ts;
    assert since <= t;
    assert LowerBound(s, t) < hi;
    if hi < delivered {
      assert t <= s[delivered - 1].ts;
      assert t == since;
    }
  }

  lemma AppendAdvances(c: Core, e: Event)
    requires Inv(c) && c.since <= e.ts
    ensures Inv(Appended(c, e))
    ensures Start(Appended(c, e)) == Start(c)
    ensures c.delivered <= |c.sorted| && Appended(c, e).sorted[..c.delivered] == c.sorted[..c.delivered]
  {
    AppendKeepsDelivered(c.sorted, e, c.since, c.delivered);
    InsertKeepsSorted(c.sorted, e);
  }

  lemma PolledIs(c: Core)
    requires Inv(c)
    ensures Polled(c).since == if Start(c) < End(c) then c.sorted[End(c) - 1].ts else c.since
    ensures Polled(c).delivered == Max(c.delivered, End(c))
    ensures Polled(c).processed == c.processed + c.sorted[Start(c)..End(c)]
  {
    PageIsSlice(c);
  }

  lemma PollAdvances(c: Core)
    requires Inv(c)
    ensures Inv(Polled(c)) && c.since <= Polled(c).since
    ensures Start(c) <= Start(Polled(c)) <= End(c)
  {
    PolledIs(c);
    if Start(c) < End(c) {
      PageMovesCursor(c.sorted, c.since, c.delivered, End(c));
    }
  }

  // ---- At least once ----

  ghost predicate DeliveredWasProcessed(c: Core) {
    c.delivered <= |c.sorted| && multiset(c.sorted[..c.delivered]) <= multiset(c.processed)
  }

  lemma SliceCovers(s: seq<Event>, lb: nat, delivered: nat, hi: nat, processed: seq<Event>)
    requires lb <= delivered <= |s| && lb <= hi <= |s|
    requires multiset(s[..delivered]) <= multiset(processed)
    ensures multiset(s[..Max(delivered, hi)]) <= multiset(processed + s[lb..hi])
  {
    if delivered < hi {
      assert s[lb..hi] == s[lb..delivered] + s[delivered..hi];
      assert s[..hi] == s[..delivered] + s[delivered..hi];
    }
  }

  lemma PollProcessesDelivered(c: Core)
    requires Inv(c) && DeliveredWasProcessed(c)
    ensures DeliveredWasProcessed(Polled(c))
  {
    PolledIs(c);
    PageIsSlice(c);
    SliceCovers(c.sorted, Start(c), c.delivered, End(c), c.processed);
  }

  /** Nothing is invented: every event processed is one of those delivered. */
  ghost predicate ProcessedWasDelivered(c: Core) {
    c.delivered <= |c.sorted| && AllFrom(c.processed, c.sorted[..c.delivered])
  }

  lemma AllFromLonger(es: seq<Event>, s: seq<Event>, n: nat, m: nat)
    requires n <= m <= |s| && AllFrom(es, s[..n])
    ensures AllFrom(es, s[..m])
  {
    assert s[..m] == s[..n] + s[n..m];
  }

  lemma SliceFrom(s: seq<Event>, lo: nat, hi: nat, m: nat)
    requires lo <= hi <= m <= |s|
    ensures AllFrom(s[lo..hi], s[..m])
  {
    assert s[..m] == s[..lo] + s[lo..hi] + s[hi..m];
  }

  lemma PollInventsNothing(c: Core)
    requires Inv(c) && ProcessedWasDelivered(c)
    ensures ProcessedWasDelivered(Polled(c))
  {
    PolledIs(c);
    PageIsSlice(c);
    var m := Max(c.delivered, End(c));
    AllFromLonger(c.processed, c.sorted, c.delivered, m);
    SliceFrom(c.sorted, Start(c), End(c), m);
  }

  // ---- The overwritten registers ----

  /** The register holds what the log up to some point between cursor and frontier says. */
  ghost predicate RegisterWithin(c: Core, r: Register, k: nat) {
    Start(c) <= k <= c.delivered <= |c.sorted| && LastWriter(c.processed, r) == LastWriter(c.sorted[..k], r)
  }

  /** How far the log is reflected in a register after one more page. */
  function Reflected(c: Core, r: Register, k: nat): int {
    if k <= End(c) || LastWriter(PageOf(c), r).Some? then End(c) else k
  }

  lemma WriterInPrefix(s: seq<Event>, lb: nat, hi: nat, r: Register)
    requires lb <= hi <= |s|
    ensures LastWriter(s[..hi], r)
         == if LastWriter(s[lb..hi], r).Some? then LastWriter(s[lb..hi], r) else LastWriter(s[..lb], r)
  {
    assert s[..hi] == s[..lb] + s[lb..hi];
    LastWriterConcat(s[..lb], s[lb..hi], r);
  }

  lemma NoWriterInSuffix(s: seq<Event>, lb: nat, k: nat, hi: nat, r: Register)
    requires lb <= k <= hi <= |s| && LastWriter(s[lb..hi], r).None?
    ensures LastWriter(s[k..hi], r).None?
  {
    assert s[lb..hi] == s[lb..k] + s[k..hi];
    LastWriterConcat(s[lb..k], s[k..hi], r);
  }

  lemma PollUpdatesRegister(c: Core, r: Register, k: nat)
    requires Inv(c) && RegisterWithin(c, r, k)
    ensures RegisterWithin(Polled(c), r, Reflected(c, r, k))
  {
    PolledIs(c);
    PageIsSlice(c);
    PollAdvances(c);
    var s, lb, hi := c.sorted, Start(c), End(c);
    LastWriterConcat(c.processed, s[lb..hi], r);
    if LastWriter(s[lb..hi], r).Some? {
      WriterInPrefix(s, lb, hi, r);
    } else if k <= hi {
      NoWriterInSuffix(s, lb, k, hi, r);
      WriterInPrefix(s, k, hi, r);
    }
  }

  /** A poll sets a register back to an older and different value. */
  predicate SetsBack(c: Core, r: Register, k: nat) {
    Reflected(c, r, k) < k && ValueIn(Polled(c).processed, r) != ValueIn(c.processed, r)
  }

  /** What a page that ends early overwrites: the writer it stops short of differs from its own last one. */
  lemma EarlyPageValue(c: Core, r: Register, k: nat)
    requires Inv(c) && RegisterWithin(c, r, k) && End(c) < k && LastWriter(PageOf(c), r).Some?
    ensures 0 <= End(c) <= k <= |c.sorted|
    ensures ValueIn(Polled(c).processed, r) == ValueIn(PageOf(c), r)
    ensures ValueIn(c.processed, r)
         == if LastWriter(c.sorted[End(c)..k], r).Some? then ValueIn(c.sorted[End(c)..k], r) else ValueIn(PageOf(c), r)
  {
    PageIsSlice(c);
    PolledIs(c);
    LastWriterConcat(c.processed, PageOf(c), r);
    WriterInPrefix(c.sorted, End(c), k, r);
    WriterInPrefix(c.sorted, Start(c), End(c), r);
  }

  /**
   * Exactly when a poll sets a register back: the page ends before what the register already
   * reflects, writes the register, and the last write it stops short of has another value.
   */
  lemma SetsBackIff(c: Core, r: Register, k: nat)
    requires Inv(c) && RegisterWithin(c, r, k)
    ensures SetsBack(c, r, k)
       <==> End(c) < k && LastWriter(PageOf(c), r).Some?
            && 0 <= End(c) && k <= |c.sorted| && LastWriter(c.sorted[End(c)..k], r).Some?
            && ValueIn(c.sorted[End(c)..k], r) != ValueIn(PageOf(c), r)
  {
    if End(c) < k && LastWriter(PageOf(c), r).Some? { EarlyPageValue(c, r, k); }
  }

  lemma AppendKeepsRegister(c: Core, e: Event, r: Register, k: nat)
    requires Inv(c) && c.since <= e.ts && RegisterWithin(c, r, k)
    ensures RegisterWithin(Appended(c, e), r, k)
  {
    AppendAdvances(c, e);
    PrefixOfPrefix(Appended(c, e).sorted, c.sorted, c.delivered, k);
  }

  lemma PrefixOfPrefix(a: seq<Event>, b: seq<Event>, n: nat, m: nat)
    requires m <= n <= |a| && n <= |b| && a[..n] == b[..n]
    ensures a[..m] == b[..m]
  {
    assert a[..m] == a[..n][..m] && b[..m] == b[..n][..m];
  }

  /** A poll that returns fewer events than it asked for reflects the whole log. */
  lemma ShortPageReflectsAll(c: Core, r: Register, k: nat)
    requires Inv(c) && RegisterWithin(c, r, k) && |PageOf(c)| < c.maxCount
    ensures Polled(c).delivered == |c.sorted|
    ensures LastWriter(Polled(c).processed, r) == LastWriter(c.sorted, r)
  {
    PageIsSlice(c);
    PolledIs(c);
    PollUpdatesRegister(c, r, k);
    assert End(c) == |c.sorted|;
    assert c.sorted[..|c.sorted|] == c.sorted;
  }
}
