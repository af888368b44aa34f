/**
 * Which budgets are safe: for which sizes and byte budgets a larger cache always holds what a
 * smaller one holds, and how much room is enough for nothing ever to be evicted.
 */
module BitmapBudgets {
  import opened Wrappers
  import opened Events
  import opened BitmapCaches

  /** Everything held in `a` is held in `b` with the same bytes. */
  ghost predicate Included(a: seq<Entry>, b: seq<Entry>) {
    forall k :: Find(a, k).Some? ==> Find(b, k) == Find(a, k)
  }

  // ---- Trimming by bytes ----

  lemma {:induction false} SizeConcat(p: seq<Entry>, q: seq<Entry>)
    ensures SizeOf(p + q) == SizeOf(p) + SizeOf(q)
  {
    if q == [] {
      assert p + q == p;
    } else {
      assert Init(p + q) == p + Init(q) && Last(p + q) == Last(q);
      SizeConcat(p, Init(q));
    }
  }

  /** What does not fit by itself leaves nothing before it. */
  lemma {:induction false} TrimDropsBefore(p: seq<Entry>, q: seq<Entry>, maxSize: nat, maxBytes: int)
    requires q != [] && SizeOf(q) > maxBytes
    ensures Trim(p + q, maxSize, maxBytes) == Trim(q, maxSize, maxBytes)
  {
    if p == [] {
      assert p + q == q;
    } else {
      SizeConcat(p, q);
      assert (p + q)[1..] == p[1..] + q;
      TrimDropsBefore(p[1..], q, maxSize, maxBytes);
    }
  }

  lemma OneEntry(e: Entry)
    ensures SizeOf([e]) == |e.data| && Find([e], e.key) == Some(e.data)
    ensures forall k :: k != e.key ==> Find([e], k).None?
  {
    assert Init([e]) == [];
  }

  /** An entry larger than the budget empties the cache. */
  lemma TooLargeEmpties(s: seq<Entry>, k: string, data: Bytes, maxSize: nat, maxBytes: int)
    requires |data| > maxBytes
    ensures Stored(s, k, data, maxSize, maxBytes) == []
  {
    var e := Entry(k, data);
    OneEntry(e);
    TrimDropsBefore(Without(s, k), [e], maxSize, maxBytes);
    assert [e][1..] == [];
  }

  /** An entry within the budget is held after it is stored. */
  lemma StoredIsHeld(s: seq<Entry>, k: string, data: Bytes, maxSize: nat, maxBytes: int)
    requires 1 <= maxSize && |data| <= maxBytes
    ensures Find(Stored(s, k, data, maxSize, maxBytes), k) == Some(data)
  {
    var t := Touch(s, k, data);
    var n := |t| - 1;
    assert t[n..] == [Entry(k, data)];
    OneEntry(Entry(k, data));
    TrimIsLongestFittingSuffix(t, maxSize, maxBytes, n);
    var r := Trim(t, maxSize, maxBytes);
    assert r != [] && Last(r) == Last(t);
  }

  // ---- Reading and removing keep inclusion ----

  lemma AccessKeepsValues(s: seq<Entry>, k: string, j: string)
    ensures Find(Access(s, k), j) == Find(s, j)
  {
    if Find(s, k).Some? { FindTouch(s, k, Find(s, k).value, j); }
  }

  lemma AccessIncluded(a: seq<Entry>, b: seq<Entry>, k: string)
    requires Included(a, b)
    ensures Included(Access(a, k), Access(b, k))
  {
    forall j | Find(Access(a, k), j).Some? ensures Find(Access(b, k), j) == Find(Access(a, k), j) {
      AccessKeepsValues(a, k, j);
      AccessKeepsValues(b, k, j);
    }
  }

  lemma WithoutIncluded(a: seq<Entry>, b: seq<Entry>, k: string)
    requires Included(a, b)
    ensures Included(Without(a, k), Without(b, k))
  {
    forall j | Find(Without(a, k), j).Some? ensures Find(Without(b, k), j) == Find(Without(a, k), j) {
      FindWithout(a, k, j);
      FindWithout(b, k, j);
    }
  }

  // ---- Sizes and budgets for which inclusion always holds ----

  /** Room for one: the cache holds the last entry stored, if it fits, and nothing else. */
  lemma StoredInOne(s: seq<Entry>, k: string, data: Bytes, maxBytes: int, j: string)
    ensures Find(Stored(s, k, data, 1, maxBytes), j).Some? ==> j == k && |data| <= maxBytes
  {
    if |data| > maxBytes {
      TooLargeEmpties(s, k, data, 1, maxBytes);
    } else {
      var t := Touch(s, k, data);
      var n := |t| - 1;
      assert t[n..] == [Entry(k, data)];
      OneEntry(Entry(k, data));
      assert Trim(t, 1, maxBytes) == [] || Trim(t, 1, maxBytes) == t[n..];
    }
  }

  lemma StoredIncludesOne(a: seq<Entry>, b: seq<Entry>, k: string, data: Bytes, large: nat, maxBytes: int)
    requires 1 <= large
    ensures Included(Stored(a, k, data, 1, maxBytes), Stored(b, k, data, large, maxBytes))
  {
    forall j | Find(Stored(a, k, data, 1, maxBytes), j).Some?
      ensures Find(Stored(b, k, data, large, maxBytes), j) == Find(Stored(a, k, data, 1, maxBytes), j)
    {
      StoredInOne(a, k, data, maxBytes, j);
      StoredIsHeld(a, k, data, 1, maxBytes);
      StoredIsHeld(b, k, data, large, maxBytes);
    }
  }

  lemma {:induction false} InclusionInOne(ops: seq<CacheOp>, large: nat, maxBytes: int)
    requires 1 <= large
    ensures Included(Replay(ops, 1, maxBytes), Replay(ops, large, maxBytes))
  {
    if ops != [] {
      var init := ops[..|ops| - 1];
      var a, b := Replay(init, 1, maxBytes), Replay(init, large, maxBytes);
      InclusionInOne(init, large, maxBytes);
      match ops[|ops| - 1]
      case Put(k, data) => StoredIncludesOne(a, b, k, data, large, maxBytes);
      case Get(k) => AccessIncluded(a, b, k);
      case Remove(k) => WithoutIncluded(a, b, k);
    }
  }

  /** Entries without bytes count alone; any other empties both caches. */
  lemma StoredInNoBytes(a: seq<Entry>, small: nat, b: seq<Entry>, large: nat, k: string, data: Bytes, maxBytes: int)
    requires small <= large && Nested(a, small, b, large) && DistinctKeys(a) && DistinctKeys(b)
    requires |a| <= small && |b| <= large && SizeOf(a) == 0 && SizeOf(b) == 0 && maxBytes <= 0
    ensures Nested(Stored(a, k, data, small, maxBytes), small, Stored(b, k, data, large, maxBytes), large)
  {
    if |data| > maxBytes {
      TooLargeEmpties(a, k, data, small, maxBytes);
      TooLargeEmpties(b, k, data, large, maxBytes);
    } else {
      NestedTouch(a, small, b, large, k, data);
      DistinctTouch(b, k, data);
      TouchAccounting(a, k, data);
      TouchAccounting(b, k, data);
      NestedTrim(Touch(a, k, data), small, Touch(b, k, data), large, maxBytes, maxBytes);
    }
  }

  lemma {:induction false} NoBytesHeld(ops: seq<CacheOp>, maxSize: nat, maxBytes: int)
    requires maxBytes <= 0
    ensures SizeOf(Replay(ops, maxSize, maxBytes)) == 0
  {
    if ops != [] {
      var init := ops[..|ops| - 1];
      NoBytesHeld(init, maxSize, maxBytes);
      ReplayFacts(init, maxSize, maxBytes);
      var s := Replay(init, maxSize, maxBytes);
      match ops[|ops| - 1]
      case Put(k, data) =>
      case Get(k) => if Find(s, k).Some? { TouchAccounting(s, k, Find(s, k).value); }
      case Remove(k) => WithoutAccounting(s, k);
    }
  }

  lemma {:induction false} NestedInNoBytes(ops: seq<CacheOp>, small: nat, large: nat, maxBytes: int)
    requires small <= large && maxBytes <= 0
    ensures Nested(Replay(ops, small, maxBytes), small, Replay(ops, large, maxBytes), large)
  {
    if ops != [] {
      var init := ops[..|ops| - 1];
      var a, b := Replay(init, small, maxBytes), Replay(init, large, maxBytes);
      NestedInNoBytes(init, small, large, maxBytes);
      ReplayFacts(init, small, maxBytes);
      ReplayFacts(init, large, maxBytes);
      NoBytesHeld(init, small, maxBytes);
      NoBytesHeld(init, large, maxBytes);
      match ops[|ops| - 1]
      case Put(k, data) => StoredInNoBytes(a, small, b, large, k, data, maxBytes);
      case Get(k) => NestedAccess(a, small, b, large, k);
      case Remove(k) => NestedWithout(a, small, b, large, k);
    }
  }

  lemma NestedIncluded(a: seq<Entry>, small: nat, b: seq<Entry>, large: nat)
    requires Nested(a, small, b, large) && DistinctKeys(b)
    ensures Included(a, b)
  {
    forall k | Find(a, k).Some? ensures Find(b, k) == Find(a, k) {
      SubsequenceValues(a, b, k);
    }
  }

  /** Room for at most one, equal sizes, or a budget that admits no bytes. */
  predicate SafeSizes(small: nat, large: nat, maxBytes: int) {
    small <= 1 || small == large || maxBytes <= 0
  }

  lemma InclusionHolds(ops: seq<CacheOp>, small: nat, large: nat, maxBytes: int)
    requires small <= large && SafeSizes(small, large, maxBytes)
    ensures Included(Replay(ops, small, maxBytes), Replay(ops, large, maxBytes))
  {
    if small == 0 {
      ReplayFacts(ops, small, maxBytes);
    } else if small == 1 {
      InclusionInOne(ops, large, maxBytes);
    } else if small < large {
      NestedInNoBytes(ops, small, large, maxBytes);
      ReplayFacts(ops, large, maxBytes);
      NestedIncluded(Replay(ops, small, maxBytes), small, Replay(ops, large, maxBytes), large);
    }
  }

  // ---- And for all others it fails for some operations ----

  function Name(i: nat): (k: string)
    ensures |k| == i
  {
    if i == 0 then [] else Name(i - 1) + ['k']
  }

  function Blank(n: nat): (b: Bytes)
    ensures |b| == n
  {
    seq(n, _ => 0)
  }

  /** One entry of `bytes` bytes and then `n` empty ones. */
  function Full(bytes: nat, n: nat): (s: seq<Entry>)
    ensures |s| == n + 1
    ensures s[0] == Entry(Name(0), Blank(bytes))
    ensures forall i :: 1 <= i <= n ==> s[i] == Entry(Name(i), [])
  {
    if n == 0 then [Entry(Name(0), Blank(bytes))] else Full(bytes, n - 1) + [Entry(Name(n), [])]
  }

  /** The operations that store them. */
  function Puts(bytes: nat, n: nat): seq<CacheOp> {
    if n == 0 then [Put(Name(0), Blank(bytes))] else Puts(bytes, n - 1) + [Put(Name(n), [])]
  }

  function Recent(s: seq<Entry>, m: nat): (r: seq<Entry>)
    ensures |r| <= m
  {
    if |s| <= m then s else s[|s| - m..]
  }

  lemma {:induction false} AbsentByLength(s: seq<Entry>, k: string)
    requires forall i :: 0 <= i < |s| ==> |s[i].key| != |k|
    ensures Find(s, k).None?
  {
    if s != [] { AbsentByLength(Init(s), k); }
  }

  lemma {:induction false} FullSize(bytes: nat, n: nat)
    ensures SizeOf(Full(bytes, n)) == bytes
  {
    if n == 0 {
      OneEntry(Entry(Name(0), Blank(bytes)));
    } else {
      FullSize(bytes, n - 1);
      SizeAppend(Full(bytes, n - 1), Entry(Name(n), []));
    }
  }

  lemma RecentSize(s: seq<Entry>, m: nat)
    ensures SizeOf(Recent(s, m)) <= SizeOf(s)
  {
    if |s| > m { SuffixIsSmaller(s, |s| - m); }
  }

  lemma RecentAppend(s: seq<Entry>, e: Entry, m: nat)
    requires 1 <= m
    ensures Recent(s + [e], m) == if |s| < m then Recent(s, m) + [e] else (Recent(s, m) + [e])[1..]
  {
  }

  /** While the bytes do not bind, storing a new entry slides the window of the most recent ones. */
  lemma StoreInRecent(s: seq<Entry>, e: Entry, m: nat, maxBytes: int)
    requires 1 <= m && Find(Recent(s, m), e.key).None? && SizeOf(s) + |e.data| <= maxBytes
    ensures Stored(Recent(s, m), e.key, e.data, m, maxBytes) == Recent(s + [e], m)
  {
    var p := Recent(s, m);
    WithoutAbsent(p, e.key);
    RecentSize(s, m);
    SizeAppend(p, e);
    TrimOneByCount(p + [e], m, maxBytes);
    RecentAppend(s, e, m);
  }

  lemma PutNext(s: seq<Entry>, bytes: nat, n: nat, e: Entry, m: nat, maxBytes: int)
    requires 1 <= m && bytes <= maxBytes && s == Full(bytes, n) && |e.key| == n + 1 && e.data == []
    ensures Stored(Recent(s, m), e.key, e.data, m, maxBytes) == Recent(s + [e], m)
  {
    AbsentByLength(Recent(s, m), e.key);
    FullSize(bytes, n);
    StoreInRecent(s, e, m, maxBytes);
  }

  lemma ReplaySnoc(ops: seq<CacheOp>, op: CacheOp, maxSize: nat, maxBytes: int)
    ensures Replay(ops + [op], maxSize, maxBytes) == Apply(Replay(ops, maxSize, maxBytes), op, maxSize, maxBytes)
  {
    assert (ops + [op])[..|ops|] == ops;
  }

  lemma FirstStored(s: seq<Entry>, e: Entry, m: nat, maxBytes: int)
    requires |s| == 0 && 1 <= m && |e.data| <= maxBytes
    ensures Stored(s, e.key, e.data, m, maxBytes) == [e]
  {
    OneEntry(e);
    assert Without(s, e.key) + [e] == [e];
  }

  lemma ReplayFirstPut(none: seq<CacheOp>, op: CacheOp, m: nat, maxBytes: int)
    requires |none| == 0 && op.Put? && 1 <= m && |op.data| <= maxBytes
    ensures Replay([op], m, maxBytes) == [Entry(op.key, op.data)]
  {
    FirstStored(Replay(none, m, maxBytes), Entry(op.key, op.data), m, maxBytes);
    ReplaySnoc(none, op, m, maxBytes);
    assert none + [op] == [op];
  }

  lemma ReplayNextPut(ops: seq<CacheOp>, s: seq<Entry>, bytes: nat, n: nat, e: Entry, m: nat, maxBytes: int)
    requires 1 <= m && bytes <= maxBytes && s == Full(bytes, n) && |e.key| == n + 1 && e.data == []
    requires Replay(ops, m, maxBytes) == Recent(s, m)
    ensures Replay(ops + [Put(e.key, e.data)], m, maxBytes) == Recent(s + [e], m)
  {
    PutNext(s, bytes, n, e, m, maxBytes);
    ReplaySnoc(ops, Put(e.key, e.data), m, maxBytes);
  }

  lemma {:induction false} ReplayPuts(ops: seq<CacheOp>, s: seq<Entry>, bytes: nat, n: nat, m: nat, maxBytes: int)
    requires 1 <= m && bytes <= maxBytes && ops == Puts(bytes, n) && s == Full(bytes, n)
    ensures Replay(ops, m, maxBytes) == Recent(s, m)
    decreases n
  {
    if n == 0 {
      ReplayFirstPut([], Put(Name(n), Blank(bytes)), m, maxBytes);
    } else {
      ReplayPuts(Puts(bytes, n - 1), Full(bytes, n - 1), bytes, n - 1, m, maxBytes);
      ReplayNextPut(Puts(bytes, n - 1), Full(bytes, n - 1), bytes, n - 1, Entry(Name(n), []), m, maxBytes);
    }
  }

  lemma {:induction false} WithoutFirst(x: Entry, t: seq<Entry>)
    requires Find(t, x.key).None?
    ensures Without([x] + t, x.key) == t
  {
    if t == [] {
      assert [x] + t == [x] && Init([x]) == [];
    } else {
      assert Init([x] + t) == [x] + Init(t) && Last([x] + t) == Last(t);
      WithoutFirst(x, Init(t));
      assert t == Init(t) + [Last(t)];
    }
  }

  /** Reading the eldest entry of the larger cache saves it, and the next put evicts what lies between. */
  lemma LargeDropsBetween(s: seq<Entry>, x: Entry, t: seq<Entry>, d: Entry, k: string, large: nat, maxBytes: int)
    requires s == [x] + t && Find(t, x.key).None? && Find(s, d.key).None? && x.key != d.key
    requires |x.data| + |d.data| > maxBytes && k != x.key && k != d.key
    ensures Find(Stored(Access(s, x.key), d.key, d.data, large, maxBytes), k).None?
  {
    assert Find(s, x.key) == Some(x.data) by {
      FindTail(s, x.key);
      assert s[1..] == t;
    }
    WithoutFirst(x, t);
    AccessKeepsValues(s, x.key, d.key);
    WithoutAbsent(t + [x], d.key);
    TwoEntries(x, d, k);
    assert (t + [x]) + [d] == t + [x, d];
    TrimDropsBefore(t, [x, d], large, maxBytes);
    if Find(Trim([x, d], large, maxBytes), k).Some? { TrimKeepsValues([x, d], large, maxBytes, k); }
  }

  lemma TwoEntries(x: Entry, d: Entry, k: string)
    requires k != x.key && k != d.key
    ensures SizeOf([x, d]) == |x.data| + |d.data| && Find([x, d], k).None?
  {
    assert Init([x, d]) == [x];
    OneEntry(x);
  }

  /** The smaller cache never had the eldest entry to read, so the same put evicts for count alone. */
  lemma SmallKeepsLast(p: seq<Entry>, xKey: string, d: Entry, small: nat, maxBytes: int)
    requires |p| == small && 2 <= small && Find(p, xKey).None? && Find(p, d.key).None?
    requires SizeOf(p) + |d.data| <= maxBytes && Last(p).key != d.key
    ensures Find(Stored(Access(p, xKey), d.key, d.data, small, maxBytes), Last(p).key).Some?
  {
    WithoutAbsent(p, d.key);
    SizeAppend(p, d);
    TrimOneByCount(p + [d], small, maxBytes);
    var r := (p + [d])[1..];
    assert Init(r) == p[1..] && Last(p[1..]) == Last(p);
  }

  lemma {:induction false} BlankTailSize(bytes: nat, n: nat, i: nat)
    requires 1 <= i <= n + 1
    ensures SizeOf(Full(bytes, n)[i..]) == 0
    decreases n + 1 - i
  {
    if i <= n {
      BlankTailSize(bytes, n, i + 1);
      SizeTail(Full(bytes, n)[i..]);
      assert Full(bytes, n)[i..][1..] == Full(bytes, n)[i + 1..];
    }
  }

  /** Fill the larger cache, read its eldest entry, and store one more byte than both fit. */
  function Breaking(large: nat, bytes: nat, first: string, d: Entry): seq<CacheOp>
    requires 1 <= large
  {
    Puts(bytes, large - 1) + [Get(first)] + [Put(d.key, d.data)]
  }

  lemma BreakingReplay(large: nat, bytes: nat, first: string, d: Entry, m: nat, maxBytes: int)
    requires 1 <= large && 1 <= m && bytes <= maxBytes
    ensures Replay(Breaking(large, bytes, first, d), m, maxBytes)
         == Stored(Access(Recent(Full(bytes, large - 1), m), first), d.key, d.data, m, maxBytes)
  {
    ReplayPuts(Puts(bytes, large - 1), Full(bytes, large - 1), bytes, large - 1, m, maxBytes);
    ReplaySnoc(Puts(bytes, large - 1), Get(first), m, maxBytes);
    ReplaySnoc(Puts(bytes, large - 1) + [Get(first)], Put(d.key, d.data), m, maxBytes);
  }

  /** `s` is the full list, `first` its first key, and `d` the entry that breaks inclusion. */
  predicate Setting(s: seq<Entry>, large: nat, bytes: nat, first: string, d: Entry) {
    && 3 <= large && 1 <= bytes && s == Full(bytes, large - 1)
    && first == s[0].key && |d.key| == large && |d.data| == 1
  }

  lemma SettingLengths(s: seq<Entry>, large: nat, bytes: nat, first: string, d: Entry)
    requires Setting(s, large, bytes, first, d)
    ensures |s| == large && forall i :: 0 <= i < large ==> |s[i].key| == i
    ensures |s[0].data| == bytes
  {
  }

  lemma LargeLoses(s: seq<Entry>, large: nat, bytes: nat, first: string, d: Entry)
    requires Setting(s, large, bytes, first, d)
    ensures |s| == large && Find(Stored(Access(s, first), d.key, d.data, large, bytes), s[large - 1].key).None?
  {
    SettingLengths(s, large, bytes, first, d);
    AbsentByLength(s[1..], first);
    AbsentByLength(s, d.key);
    assert s == [s[0]] + s[1..];
    LargeDropsBetween(s, s[0], s[1..], d, s[large - 1].key, large, bytes);
  }

  lemma RecentHolds(s: seq<Entry>, small: nat, large: nat, bytes: nat, first: string, d: Entry)
    requires 2 <= small < large == |s| && (forall i :: 0 <= i < large ==> |s[i].key| == i)
    requires |first| == 0 && |d.key| == large && |d.data| == 1 <= bytes && SizeOf(s[large - small..]) == 0
    ensures Find(Stored(Access(Recent(s, small), first), d.key, d.data, small, bytes), s[large - 1].key).Some?
  {
    var p := Recent(s, small);
    assert p == s[large - small..] && Last(p) == s[large - 1];
    AbsentByLength(p, first);
    AbsentByLength(p, d.key);
    SmallKeepsLast(p, first, d, small, bytes);
  }

  lemma SmallHolds(s: seq<Entry>, small: nat, large: nat, bytes: nat, first: string, d: Entry)
    requires Setting(s, large, bytes, first, d) && 2 <= small < large
    ensures |s| == large
    ensures Find(Stored(Access(Recent(s, small), first), d.key, d.data, small, bytes), s[large - 1].key).Some?
  {
    SettingLengths(s, large, bytes, first, d);
    BlankTailSize(bytes, large - 1, large - small);
    RecentHolds(s, small, large, bytes, first, d);
  }

  /**
   * The byte hypothesis is needed.  From empty caches with one budget, a larger cache that has
   * just saved its eldest entry by a read evicts for bytes what the smaller one still holds.
   */
  lemma ByteBudgetBreaksInclusion(small: nat, large: nat, maxBytes: nat) returns (ops: seq<CacheOp>, k: string)
    requires 2 <= small < large && 1 <= maxBytes
    ensures Find(Replay(ops, small, maxBytes), k).Some? && Find(Replay(ops, large, maxBytes), k).None?
  {
    var s := Full(maxBytes, large - 1);
    var first, d := s[0].key, Entry(Name(large), Blank(1));
    ops, k := Breaking(large, maxBytes, first, d), s[large - 1].key;
    BreakingReplay(large, maxBytes, first, d, small, maxBytes);
    BreakingReplay(large, maxBytes, first, d, large, maxBytes);
    SmallHolds(s, small, large, maxBytes, first, d);
    LargeLoses(s, large, maxBytes, first, d);
  }

  /** For exactly which sizes and byte budget the larger cache includes the smaller after all operations. */
  lemma InclusionIff(small: nat, large: nat, maxBytes: int)
    requires small <= large
    ensures (forall ops :: Included(Replay(ops, small, maxBytes), Replay(ops, large, maxBytes)))
       <==> SafeSizes(small, large, maxBytes)
  {
    if SafeSizes(small, large, maxBytes) {
      forall ops ensures Included(Replay(ops, small, maxBytes), Replay(ops, large, maxBytes)) {
        InclusionHolds(ops, small, large, maxBytes);
      }
    } else {
      var ops, k := ByteBudgetBreaksInclusion(small, large, maxBytes);
      assert !Included(Replay(ops, small, maxBytes), Replay(ops, large, maxBytes));
    }
  }

  // ---- Room for the largest bitmap of every key ----

  /** The largest entry of every key among `puts`, one for each key. */
  function Biggest(puts: seq<Entry>): seq<Entry> {
    if puts == [] then []
    else
      var b, e := Biggest(puts[..|puts| - 1]), puts[|puts| - 1];
      if Find(b, e.key).Some? && |e.data| <= |Find(b, e.key).value| then b else Touch(b, e.key, e.data)
  }

  /** `b` has an entry at least as large under the same key. */
  predicate Covers(b: seq<Entry>, e: Entry) {
    Find(b, e.key).Some? && |e.data| <= |Find(b, e.key).value|
  }

  predicate CoversAll(b: seq<Entry>, s: seq<Entry>) {
    s == [] || (CoversAll(b, Init(s)) && Covers(b, Last(s)))
  }

  lemma {:induction false} BiggestIsDistinct(puts: seq<Entry>)
    ensures DistinctKeys(Biggest(puts))
  {
    if puts != [] {
      var b, e := Biggest(puts[..|puts| - 1]), puts[|puts| - 1];
      BiggestIsDistinct(puts[..|puts| - 1]);
      DistinctTouch(b, e.key, e.data);
    }
  }

  lemma TouchCovers(b: seq<Entry>, e: Entry, x: Entry)
    requires !Covers(b, e)
    ensures Covers(Touch(b, e.key, e.data), e)
    ensures Covers(b, x) ==> Covers(Touch(b, e.key, e.data), x)
  {
    FindTouch(b, e.key, e.data, e.key);
    FindTouch(b, e.key, e.data, x.key);
  }

  /** Every entry of `puts` is covered. */
  lemma {:induction false} BiggestCovers(puts: seq<Entry>, x: Entry)
    requires x in multiset(puts)
    ensures Covers(Biggest(puts), x)
  {
    var init, e := puts[..|puts| - 1], puts[|puts| - 1];
    assert puts == init + [e];
    if !Covers(Biggest(init), e) { TouchCovers(Biggest(init), e, x); }
    if x != e { BiggestCovers(init, x); }
  }

  /** And nothing is in the list that is not among `puts`, so each size in it is the largest of its key. */
  lemma {:induction false} BiggestIsPut(puts: seq<Entry>, k: string)
    requires Find(Biggest(puts), k).Some?
    ensures Entry(k, Find(Biggest(puts), k).value) in multiset(puts)
  {
    if puts != [] {
      var init, e := puts[..|puts| - 1], puts[|puts| - 1];
      assert puts == init + [e];
      FindTouch(Biggest(init), e.key, e.data, k);
      if Find(Biggest(puts), k) == Find(Biggest(init), k) { BiggestIsPut(init, k); }
    }
  }

  lemma {:induction false} CoveredWithout(b: seq<Entry>, s: seq<Entry>, k: string)
    requires CoversAll(b, s) && Find(s, k).None?
    ensures CoversAll(Without(b, k), s)
  {
    if s != [] {
      CoveredWithout(b, Init(s), k);
      FindWithout(b, k, Last(s).key);
    }
  }

  /** A list with distinct keys that is covered has no more entries and no more bytes. */
  lemma {:induction false} CoveredIsSmaller(b: seq<Entry>, s: seq<Entry>)
    requires DistinctKeys(b) && DistinctKeys(s) && CoversAll(b, s)
    ensures |s| <= |b| && SizeOf(s) <= SizeOf(b)
    decreases |s|
  {
    if s != [] {
      var k := Last(s).key;
      CoveredWithout(b, Init(s), k);
      DistinctWithout(b, k);
      CoveredIsSmaller(Without(b, k), Init(s));
      WithoutAccounting(b, k);
    }
  }

  // ---- Everything a cache holds is covered ----

  lemma {:induction false} CoversTail(b: seq<Entry>, s: seq<Entry>)
    requires CoversAll(b, s) && s != []
    ensures CoversAll(b, s[1..])
  {
    if |s| > 1 {
      CoversTail(b, Init(s));
      assert Init(s[1..]) == Init(s)[1..];
    }
  }

  lemma {:induction false} CoversWithout(b: seq<Entry>, s: seq<Entry>, k: string)
    requires CoversAll(b, s)
    ensures CoversAll(b, Without(s, k))
  {
    if s != [] {
      CoversWithout(b, Init(s), k);
      if Last(s).key != k { CoversAppend(b, Without(Init(s), k), Last(s)); }
    }
  }

  lemma CoversAppend(b: seq<Entry>, s: seq<Entry>, e: Entry)
    requires CoversAll(b, s) && Covers(b, e)
    ensures CoversAll(b, s + [e])
  {
    assert Init(s + [e]) == s;
  }

  lemma {:induction false} CoversTrim(b: seq<Entry>, s: seq<Entry>, maxSize: nat, maxBytes: int)
    requires CoversAll(b, s)
    ensures CoversAll(b, Trim(s, maxSize, maxBytes))
  {
    if !Fits(s, maxSize, maxBytes) {
      CoversTail(b, s);
      CoversTrim(b, s[1..], maxSize, maxBytes);
    }
  }

  lemma CoversTouch(b: seq<Entry>, s: seq<Entry>, k: string, data: Bytes)
    requires CoversAll(b, s) && Covers(b, Entry(k, data))
    ensures CoversAll(b, Touch(s, k, data))
  {
    CoversWithout(b, s, k);
    CoversAppend(b, Without(s, k), Entry(k, data));
  }

  lemma {:induction false} CoversFound(b: seq<Entry>, s: seq<Entry>, k: string)
    requires CoversAll(b, s) && Find(s, k).Some?
    ensures Covers(b, Entry(k, Find(s, k).value))
  {
    if Last(s).key != k { CoversFound(b, Init(s), k); }
  }

  lemma CoversApply(b: seq<Entry>, s: seq<Entry>, op: CacheOp, maxSize: nat, maxBytes: int)
    requires CoversAll(b, s) && (op.Put? ==> Covers(b, Entry(op.key, op.data)))
    ensures CoversAll(b, Apply(s, op, maxSize, maxBytes))
  {
    match op
    case Put(k, data) =>
      CoversTouch(b, s, k, data);
      CoversTrim(b, Touch(s, k, data), maxSize, maxBytes);
    case Get(k) =>
      if Find(s, k).Some? {
        CoversFound(b, s, k);
        CoversTouch(b, s, k, Find(s, k).value);
      }
    case Remove(k) => CoversWithout(b, s, k);
  }

  function PutsOf(ops: seq<CacheOp>): seq<Entry> {
    if ops == [] then []
    else
      var op := ops[|ops| - 1];
      PutsOf(ops[..|ops| - 1]) + if op.Put? then [Entry(op.key, op.data)] else []
  }

  lemma {:induction false} ReplayCovered(b: seq<Entry>, ops: seq<CacheOp>, maxSize: nat, maxBytes: int)
    requires forall e :: e in multiset(PutsOf(ops)) ==> Covers(b, e)
    ensures CoversAll(b, Replay(ops, maxSize, maxBytes))
  {
    if ops != [] {
      var init, op := ops[..|ops| - 1], ops[|ops| - 1];
      ReplayCovered(b, init, maxSize, maxBytes);
      if op.Put? { assert Entry(op.key, op.data) in multiset(PutsOf(ops)); }
      CoversApply(b, Replay(init, maxSize, maxBytes), op, maxSize, maxBytes);
    }
  }

  lemma {:induction false} CoveredBytesNeverBind(b: seq<Entry>, ops: seq<CacheOp>, maxSize: nat, maxBytes: int)
    requires DistinctKeys(b) && SizeOf(b) <= maxBytes
    requires forall e :: e in multiset(PutsOf(ops)) ==> Covers(b, e)
    ensures BytesNeverBind(ops, maxSize, maxBytes)
  {
    if ops != [] {
      var init, op := ops[..|ops| - 1], ops[|ops| - 1];
      CoveredBytesNeverBind(b, init, maxSize, maxBytes);
      if op.Put? {
        var s := Replay(init, maxSize, maxBytes);
        assert Entry(op.key, op.data) in multiset(PutsOf(ops));
        ReplayCovered(b, init, maxSize, maxBytes);
        ReplayFacts(init, maxSize, maxBytes);
        CoversTouch(b, s, op.key, op.data);
        DistinctTouch(s, op.key, op.data);
        CoveredIsSmaller(b, Touch(s, op.key, op.data));
      }
    }
  }

  /** A byte budget with room for the largest bitmap of every key put never binds, whatever the size. */
  lemma LargestPerKeySuffice(ops: seq<CacheOp>, maxSize: nat, maxBytes: int)
    requires SizeOf(Biggest(PutsOf(ops))) <= maxBytes
    ensures BytesNeverBind(ops, maxSize, maxBytes)
  {
    BiggestIsDistinct(PutsOf(ops));
    forall e | e in multiset(PutsOf(ops)) ensures Covers(Biggest(PutsOf(ops)), e) {
      BiggestCovers(PutsOf(ops), e);
    }
    CoveredBytesNeverBind(Biggest(PutsOf(ops)), ops, maxSize, maxBytes);
  }
}
