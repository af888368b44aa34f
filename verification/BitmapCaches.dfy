/**
 * The phone's LRU bitmap cache, bounded both by entry count and by bytes.
 *
 * The access-ordered map is a recency list, eldest entry first, with distinct keys.
 */
module BitmapCaches {
  import opened Wrappers
  import opened Events

  datatype Entry = Entry(key: string, data: Bytes)

  // ---- Recency lists ----

  function Init(s: seq<Entry>): seq<Entry>
    requires s != []
  {
    s[..|s| - 1]
  }

  function Last(s: seq<Entry>): Entry
    requires s != []
  {
    s[|s| - 1]
  }

  /** The bytes stored under `k`, if any. */
  function Find(s: seq<Entry>, k: string): Option<Bytes> {
    if s == [] then None
    else if Last(s).key == k then Some(Last(s).data)
    else Find(Init(s), k)
  }

  predicate DistinctKeys(s: seq<Entry>) {
    s == [] || (Find(Init(s), Last(s).key).None? && DistinctKeys(Init(s)))
  }

  function SizeOf(s: seq<Entry>): nat {
    if s == [] then 0 else SizeOf(Init(s)) + |Last(s).data|
  }

  function Without(s: seq<Entry>, k: string): seq<Entry> {
    if s == [] then []
    else if Last(s).key == k then Without(Init(s), k)
    else Without(Init(s), k) + [Last(s)]
  }

  /** Storing makes the entry the most recent one. */
  function Touch(s: seq<Entry>, k: string, data: Bytes): seq<Entry> {
    Without(s, k) + [Entry(k, data)]
  }

  /** Reading a present key makes it the most recent one; a miss changes nothing. */
  function Access(s: seq<Entry>, k: string): seq<Entry> {
    match Find(s, k)
    case Some(data) => Touch(s, k, data)
    case None => s
  }

  predicate Fits(s: seq<Entry>, maxSize: nat, maxBytes: int) {
    |s| <= maxSize && (s == [] || SizeOf(s) <= maxBytes)
  }

  /** Evict from the eldest end until both budgets are met. */
  function Trim(s: seq<Entry>, maxSize: nat, maxBytes: int): (r: seq<Entry>)
    ensures Fits(r, maxSize, maxBytes)
    ensures |r| <= |s| && r == s[|s| - |r|..]
  {
    if Fits(s, maxSize, maxBytes) then s else Trim(s[1..], maxSize, maxBytes)
  }

  /** What an insertion leaves. */
  function Stored(s: seq<Entry>, k: string, data: Bytes, maxSize: nat, maxBytes: int): seq<Entry> {
    Trim(Touch(s, k, data), maxSize, maxBytes)
  }

  lemma {:induction false} FindWithout(s: seq<Entry>, k: string, j: string)
    ensures Find(Without(s, k), j) == if j == k then None else Find(s, j)
  {
    if s != [] {
      FindWithout(Init(s), k, j);
      var w := Without(Init(s), k);
      assert Init(w + [Last(s)]) == w;
    }
  }

  lemma FindTouch(s: seq<Entry>, k: string, data: Bytes, j: string)
    ensures Find(Touch(s, k, data), j) == if j == k then Some(data) else Find(s, j)
  {
    FindWithout(s, k, j);
    assert Init(Touch(s, k, data)) == Without(s, k);
  }

  lemma {:induction false} FindTail(s: seq<Entry>, k: string)
    requires s != []
    ensures Find(s, k) == if Find(s[1..], k).Some? then Find(s[1..], k)
                          else if s[0].key == k then Some(s[0].data) else None
  {
    if |s| > 1 {
      FindTail(Init(s), k);
      assert Init(s[1..]) == Init(s)[1..];
    }
  }

  lemma {:induction false} DistinctWithout(s: seq<Entry>, k: string)
    requires DistinctKeys(s)
    ensures DistinctKeys(Without(s, k))
  {
    if s != [] {
      DistinctWithout(Init(s), k);
      FindWithout(Init(s), k, Last(s).key);
      var w := Without(Init(s), k);
      assert Init(w + [Last(s)]) == w;
    }
  }

  lemma DistinctTouch(s: seq<Entry>, k: string, data: Bytes)
    requires DistinctKeys(s)
    ensures DistinctKeys(Touch(s, k, data))
  {
    DistinctWithout(s, k);
    FindWithout(s, k, k);
    assert Init(Touch(s, k, data)) == Without(s, k);
  }

  lemma {:induction false} DistinctTail(s: seq<Entry>)
    requires DistinctKeys(s) && s != []
    ensures DistinctKeys(s[1..])
    ensures Find(s[1..], s[0].key).None?
  {
    if |s| > 1 {
      assert Init(s[1..]) == Init(s)[1..];
      DistinctTail(Init(s));
      FindTail(Init(s), Last(s).key);
    }
  }

  lemma {:induction false} WithoutAbsent(s: seq<Entry>, k: string)
    requires Find(s, k).None?
    ensures Without(s, k) == s
  {
    if s != [] {
      assert s == Init(s) + [Last(s)];
      WithoutAbsent(Init(s), k);
    }
  }

  lemma SizeAppend(s: seq<Entry>, e: Entry)
    ensures SizeOf(s + [e]) == SizeOf(s) + |e.data|
  {
    assert Init(s + [e]) == s;
  }

  /** What removing a key takes off the count and off the byte total. */
  lemma {:induction false} WithoutAccounting(s: seq<Entry>, k: string)
    requires DistinctKeys(s)
    ensures |Without(s, k)| == |s| - (if Find(s, k).Some? then 1 else 0)
    ensures SizeOf(Without(s, k)) == SizeOf(s) - (if Find(s, k).Some? then |Find(s, k).value| else 0)
  {
    if s != [] {
      if Last(s).key == k {
        WithoutAbsent(Init(s), k);
      } else {
        WithoutAccounting(Init(s), k);
        SizeAppend(Without(Init(s), k), Last(s));
      }
    }
  }

  lemma TouchAccounting(s: seq<Entry>, k: string, data: Bytes)
    requires DistinctKeys(s)
    ensures |Touch(s, k, data)| == |s| + (if Find(s, k).Some? then 0 else 1)
    ensures SizeOf(Touch(s, k, data))
         == SizeOf(s) + |data| - (if Find(s, k).Some? then |Find(s, k).value| else 0)
  {
    WithoutAccounting(s, k);
    SizeAppend(Without(s, k), Entry(k, data));
  }

  lemma {:induction false} SizeTail(s: seq<Entry>)
    requires s != []
    ensures SizeOf(s) == |s[0].data| + SizeOf(s[1..])
  {
    if |s| > 1 {
      SizeTail(Init(s));
      assert Init(s[1..]) == Init(s)[1..];
    }
  }

  lemma {:induction false} SuffixIsSmaller(s: seq<Entry>, i: nat)
    requires i <= |s|
    ensures SizeOf(s[i..]) <= SizeOf(s)
  {
    if i > 0 {
      SizeTail(s);
      assert s[1..][i - 1..] == s[i..];
      SuffixIsSmaller(s[1..], i - 1);
    }
  }

  lemma {:induction false} DistinctTrim(s: seq<Entry>, maxSize: nat, maxBytes: int)
    requires DistinctKeys(s)
    ensures DistinctKeys(Trim(s, maxSize, maxBytes))
  {
    if !Fits(s, maxSize, maxBytes) {
      DistinctTail(s);
      DistinctTrim(s[1..], maxSize, maxBytes);
    }
  }

  /** Whatever survives eviction keeps its bytes. */
  lemma {:induction false} TrimKeepsValues(s: seq<Entry>, maxSize: nat, maxBytes: int, k: string)
    requires Find(Trim(s, maxSize, maxBytes), k).Some?
    ensures Find(Trim(s, maxSize, maxBytes), k) == Find(s, k)
  {
    if !Fits(s, maxSize, maxBytes) {
      TrimKeepsValues(s[1..], maxSize, maxBytes, k);
      FindTail(s, k);
    }
  }

  /** After an insertion, a key that is still present has its latest bytes. */
  lemma StoredValues(s: seq<Entry>, j: string, data: Bytes, maxSize: nat, maxBytes: int, k: string)
    requires DistinctKeys(s)
    ensures var r := Stored(s, j, data, maxSize, maxBytes);
      DistinctKeys(r) && (Find(r, k).Some? ==> Find(r, k) == if k == j then Some(data) else Find(s, k))
  {
    DistinctTouch(s, j, data);
    DistinctTrim(Touch(s, j, data), maxSize, maxBytes);
    FindTouch(s, j, data, k);
    if Find(Stored(s, j, data, maxSize, maxBytes), k).Some? {
      TrimKeepsValues(Touch(s, j, data), maxSize, maxBytes, k);
    }
  }

  /** Eviction keeps the longest suffix of the recency order that meets both budgets. */
  lemma {:induction false} TrimIsLongestFittingSuffix(s: seq<Entry>, maxSize: nat, maxBytes: int, i: nat)
    requires i <= |s|
    ensures Fits(s[i..], maxSize, maxBytes) <==> |s| - i <= |Trim(s, maxSize, maxBytes)|
  {
    if Fits(s, maxSize, maxBytes) {
      SuffixIsSmaller(s, i);
    } else if i == 0 {
      assert s[0..] == s;
    } else {
      assert s[1..][i - 1..] == s[i..];
      TrimIsLongestFittingSuffix(s[1..], maxSize, maxBytes, i - 1);
    }
  }

  class BitmapCache {
    const maxSize: nat
    const maxBytes: int
    var entries: seq<Entry>
    var currentBytes: int

    ghost predicate Valid()
      reads this
    {
      && DistinctKeys(entries)
      && currentBytes == SizeOf(entries)
      && Fits(entries, maxSize, maxBytes)
    }

    constructor (maxSize: nat, maxBytes: int)
      ensures Valid() && entries == []
      ensures this.maxSize == maxSize && this.maxBytes == maxBytes
    {
      this.maxSize := maxSize;
      this.maxBytes := maxBytes;
      entries := [];
      currentBytes := 0;
    }

    method Put(key: string, data: Bytes)
      requires Valid()
      modifies this
      ensures Valid()
      ensures entries == Stored(old(entries), key, data, maxSize, maxBytes)
    {
      var existing := Find(entries, key);
      DistinctTouch(entries, key, data);
      TouchAccounting(entries, key, data);
      entries := Touch(entries, key, data);
      if existing.Some? {
        currentBytes := currentBytes - |existing.value|;
      }
      currentBytes := currentBytes + |data|;
      TrimToSize();
    }

    method Get(key: string) returns (r: Option<Bytes>)
      requires Valid()
      modifies this
      ensures Valid()
      ensures r == Find(old(entries), key)
      ensures entries == Access(old(entries), key)
    {
      r := Find(entries, key);
      if r.Some? {
        DistinctTouch(entries, key, r.value);
        TouchAccounting(entries, key, r.value);
        entries := Touch(entries, key, r.value);
      }
    }

    method Contains(key: string) returns (r: bool)
      ensures r <==> Find(entries, key).Some?
    {
      r := Find(entries, key).Some?;
    }

    method Remove(key: string) returns (removed: Option<Bytes>)
      requires Valid()
      modifies this
      ensures Valid()
      ensures removed == Find(old(entries), key)
      ensures entries == Without(old(entries), key)
    {
      removed := Find(entries, key);
      WithoutAccounting(entries, key);
      DistinctWithout(entries, key);
      entries := Without(entries, key);
      if removed.Some? {
        currentBytes := currentBytes - |removed.value|;
      }
    }

    method TrimToSize()
      requires DistinctKeys(entries) && currentBytes == SizeOf(entries)
      modifies this
      ensures Valid()
      ensures entries == Trim(old(entries), maxSize, maxBytes)
    {
      while |entries| > maxSize || (|entries| > 0 && currentBytes > maxBytes)
        invariant DistinctKeys(entries) && currentBytes == SizeOf(entries)
        invariant Trim(entries, maxSize, maxBytes) == Trim(old(entries), maxSize, maxBytes)
        decreases |entries|
      {
        SizeTail(entries);
        DistinctTail(entries);
        var eldest := entries[0];
        currentBytes := currentBytes - |eldest.data|;
        entries := entries[1..];
      }
    }
  }

  // ---- Two caches of different sizes on the same operations ----

  datatype CacheOp = Put(key: string, data: Bytes) | Get(key: string) | Remove(key: string)

  function Apply(s: seq<Entry>, op: CacheOp, maxSize: nat, maxBytes: int): seq<Entry> {
    match op
    case Put(k, data) => Stored(s, k, data, maxSize, maxBytes)
    case Get(k) => Access(s, k)
    case Remove(k) => Without(s, k)
  }

  function Replay(ops: seq<CacheOp>, maxSize: nat, maxBytes: int): seq<Entry> {
    if ops == [] then [] else Apply(Replay(ops[..|ops| - 1], maxSize, maxBytes), ops[|ops| - 1], maxSize, maxBytes)
  }

  /** The bytes a sequence of operations ever stores. */
  function StoredBytes(ops: seq<CacheOp>): nat {
    if ops == [] then 0
    else StoredBytes(ops[..|ops| - 1]) + (if ops[|ops| - 1].Put? then |ops[|ops| - 1].data| else 0)
  }

  /** No insertion of `ops` ever finds the byte budget exceeded. */
  predicate BytesNeverBind(ops: seq<CacheOp>, maxSize: nat, maxBytes: int) {
    ops != [] ==>
      && BytesNeverBind(ops[..|ops| - 1], maxSize, maxBytes)
      && (ops[|ops| - 1].Put? ==>
            SizeOf(Touch(Replay(ops[..|ops| - 1], maxSize, maxBytes), ops[|ops| - 1].key, ops[|ops| - 1].data))
              <= maxBytes)
  }

  /** `a` is a subsequence of `b`. */
  predicate Subsequence(a: seq<Entry>, b: seq<Entry>)
    decreases |b|
  {
    a == [] ||
    (b != [] && if Last(a) == Last(b) then Subsequence(Init(a), Init(b)) else Subsequence(a, Init(b)))
  }

  /** In a list with distinct keys, a subsequence stores the same bytes under its keys. */
  lemma {:induction false} SubsequenceValues(a: seq<Entry>, b: seq<Entry>, k: string)
    requires Subsequence(a, b) && DistinctKeys(b) && Find(a, k).Some?
    ensures Find(b, k) == Find(a, k)
    decreases |b|
  {
    if Last(a) == Last(b) {
      if Last(a).key != k { SubsequenceValues(Init(a), Init(b), k); }
    } else {
      SubsequenceValues(a, Init(b), k);
    }
  }

  lemma SubsequenceAppend(a: seq<Entry>, b: seq<Entry>, e: Entry)
    requires Subsequence(a, b)
    ensures Subsequence(a + [e], b + [e])
  {
    assert Init(a + [e]) == a && Init(b + [e]) == b;
  }

  lemma SubsequenceSkip(a: seq<Entry>, b: seq<Entry>, e: Entry)
    requires Subsequence(a, b) && Find(a, e.key).None?
    ensures Subsequence(a, b + [e])
  {
    assert Init(b + [e]) == b;
  }

  lemma {:induction false} SubsequenceDropHead(a: seq<Entry>, b: seq<Entry>)
    requires Subsequence(a, b) && DistinctKeys(b) && a != []
    ensures Subsequence(a[1..], b)
    ensures b != [] && Subsequence(a[1..], b[1..])
    decreases |b|
  {
    var b', x := Init(b), Last(b);
    assert b == b' + [x] && b[1..] == (if b' == [] then [] else b'[1..] + [x]);
    if Last(a) == x {
      var a' := Init(a);
      assert a == a' + [x];
      if a' != [] {
        SubsequenceDropHead(a', b');
        assert a[1..] == a'[1..] + [x];
        SubsequenceAppend(a'[1..], b', x);
        SubsequenceAppend(a'[1..], b'[1..], x);
      }
    } else {
      SubsequenceDropHead(a, b');
      SubsequenceAbsent(a, b', x.key);
      FindTail(a, x.key);
      SubsequenceSkip(a[1..], b', x);
      SubsequenceSkip(a[1..], b'[1..], x);
    }
  }

  lemma SubsequenceAbsent(a: seq<Entry>, b: seq<Entry>, k: string)
    requires Subsequence(a, b) && DistinctKeys(b) && Find(b, k).None?
    ensures Find(a, k).None?
  {
    if Find(a, k).Some? { SubsequenceValues(a, b, k); }
  }

  lemma {:induction false} SubsequenceWithout(a: seq<Entry>, b: seq<Entry>, k: string)
    requires Subsequence(a, b) && DistinctKeys(b)
    ensures Subsequence(Without(a, k), Without(b, k))
    decreases |b|
  {
    if a != [] {
      var b', x := Init(b), Last(b);
      if Last(a) == x {
        SubsequenceWithout(Init(a), b', k);
        if x.key != k { SubsequenceAppend(Without(Init(a), k), Without(b', k), x); }
      } else {
        SubsequenceWithout(a, b', k);
        SubsequenceAbsent(a, b', x.key);
        FindWithout(a, k, x.key);
        if x.key != k { SubsequenceSkip(Without(a, k), Without(b', k), x); }
      }
    }
  }

  lemma {:induction false} ReplayFacts(ops: seq<CacheOp>, maxSize: nat, maxBytes: int)
    ensures DistinctKeys(Replay(ops, maxSize, maxBytes))
    ensures |Replay(ops, maxSize, maxBytes)| <= maxSize
    ensures SizeOf(Replay(ops, maxSize, maxBytes)) <= StoredBytes(ops)
  {
    if ops != [] {
      var s := Replay(ops[..|ops| - 1], maxSize, maxBytes);
      ReplayFacts(ops[..|ops| - 1], maxSize, maxBytes);
      match ops[|ops| - 1]
      case Put(k, data) =>
        DistinctTouch(s, k, data);
        TouchAccounting(s, k, data);
        var t := Touch(s, k, data);
        DistinctTrim(t, maxSize, maxBytes);
        SuffixIsSmaller(t, |t| - |Trim(t, maxSize, maxBytes)|);
      case Get(k) =>
        if Find(s, k).Some? {
          DistinctTouch(s, k, Find(s, k).value);
          TouchAccounting(s, k, Find(s, k).value);
        }
      case Remove(k) =>
        DistinctWithout(s, k);
        WithoutAccounting(s, k);
    }
  }

  /** A budget for everything ever stored cannot bind. */
  lemma {:induction false} StoredBytesSuffice(ops: seq<CacheOp>, maxSize: nat, maxBytes: int)
    requires StoredBytes(ops) <= maxBytes
    ensures BytesNeverBind(ops, maxSize, maxBytes)
  {
    if ops != [] {
      StoredBytesSuffice(ops[..|ops| - 1], maxSize, maxBytes);
      ReplayFacts(ops[..|ops| - 1], maxSize, maxBytes);
      if ops[|ops| - 1].Put? {
        TouchAccounting(Replay(ops[..|ops| - 1], maxSize, maxBytes), ops[|ops| - 1].key, ops[|ops| - 1].data);
      }
    }
  }

  /** While the byte budget does not bind, one insertion evicts at most the eldest entry. */
  lemma TrimOneByCount(s: seq<Entry>, maxSize: nat, maxBytes: int)
    requires |s| <= maxSize + 1 && SizeOf(s) <= maxBytes
    ensures Trim(s, maxSize, maxBytes) == if |s| <= maxSize then s else s[1..]
  {
    if |s| > maxSize { SizeTail(s); }
  }

  /** The small list is a subsequence of the large one, and no shorter than the sizes force. */
  ghost predicate Nested(a: seq<Entry>, small: nat, b: seq<Entry>, large: nat) {
    Subsequence(a, b) && |b| - |a| <= large - small
  }

  lemma NestedTouch(a: seq<Entry>, small: nat, b: seq<Entry>, large: nat, k: string, data: Bytes)
    requires Nested(a, small, b, large) && DistinctKeys(a) && DistinctKeys(b)
    ensures Nested(Touch(a, k, data), small, Touch(b, k, data), large)
  {
    SubsequenceWithout(a, b, k);
    SubsequenceAppend(Without(a, k), Without(b, k), Entry(k, data));
    TouchAccounting(a, k, data);
    TouchAccounting(b, k, data);
    if Find(a, k).Some? { SubsequenceValues(a, b, k); }
  }

  lemma NestedTrim(a: seq<Entry>, small: nat, b: seq<Entry>, large: nat, smallBytes: int, largeBytes: int)
    requires small <= large && Nested(a, small, b, large) && DistinctKeys(b)
    requires |a| <= small + 1 && |b| <= large + 1
    requires SizeOf(a) <= smallBytes && SizeOf(b) <= largeBytes
    ensures Nested(Trim(a, small, smallBytes), small, Trim(b, large, largeBytes), large)
  {
    TrimOneByCount(a, small, smallBytes);
    TrimOneByCount(b, large, largeBytes);
    if |a| > small { SubsequenceDropHead(a, b); }
  }

  lemma NestedAccess(a: seq<Entry>, small: nat, b: seq<Entry>, large: nat, k: string)
    requires Nested(a, small, b, large) && DistinctKeys(a) && DistinctKeys(b)
    ensures Nested(Access(a, k), small, Access(b, k), large)
  {
    match Find(a, k) {
      case Some(data) =>
        SubsequenceValues(a, b, k);
        NestedTouch(a, small, b, large, k, data);
      case None =>
        if Find(b, k).Some? {
          SubsequenceWithout(a, b, k);
          WithoutAbsent(a, k);
          SubsequenceSkip(a, Without(b, k), Entry(k, Find(b, k).value));
          TouchAccounting(b, k, Find(b, k).value);
        }
    }
  }

  lemma NestedWithout(a: seq<Entry>, small: nat, b: seq<Entry>, large: nat, k: string)
    requires Nested(a, small, b, large) && DistinctKeys(a) && DistinctKeys(b)
    ensures Nested(Without(a, k), small, Without(b, k), large)
  {
    SubsequenceWithout(a, b, k);
    WithoutAccounting(a, k);
    WithoutAccounting(b, k);
    if Find(a, k).Some? { SubsequenceValues(a, b, k); }
  }

  lemma {:induction false} ReplayNested(ops: seq<CacheOp>, small: nat, large: nat, smallBytes: int, largeBytes: int)
    requires small <= large && BytesNeverBind(ops, small, smallBytes) && BytesNeverBind(ops, large, largeBytes)
    ensures Nested(Replay(ops, small, smallBytes), small, Replay(ops, large, largeBytes), large)
  {
    if ops != [] {
      var init := ops[..|ops| - 1];
      ReplayNested(init, small, large, smallBytes, largeBytes);
      var a, b := Replay(init, small, smallBytes), Replay(init, large, largeBytes);
      ReplayFacts(init, small, smallBytes);
      ReplayFacts(init, large, largeBytes);
      match ops[|ops| - 1]
      case Put(k, data) =>
        NestedTouch(a, small, b, large, k, data);
        DistinctTouch(b, k, data);
        TouchAccounting(a, k, data);
        TouchAccounting(b, k, data);
        NestedTrim(Touch(a, k, data), small, Touch(b, k, data), large, smallBytes, largeBytes);
      case Get(k) => NestedAccess(a, small, b, large, k);
      case Remove(k) => NestedWithout(a, small, b, large, k);
    }
  }

  /**
   * LRU inclusion.  While no byte budget can bind, everything the smaller cache holds after
   * any operations is held by the larger one with the same bytes, in the same recency order.
   */
  lemma LruInclusion(ops: seq<CacheOp>, small: nat, large: nat, smallBytes: int, largeBytes: int)
    requires small <= large && BytesNeverBind(ops, small, smallBytes) && BytesNeverBind(ops, large, largeBytes)
    ensures Subsequence(Replay(ops, small, smallBytes), Replay(ops, large, largeBytes))
    ensures forall k :: Find(Replay(ops, small, smallBytes), k).Some? ==>
              Find(Replay(ops, large, largeBytes), k) == Find(Replay(ops, small, smallBytes), k)
  {
    ReplayNested(ops, small, large, smallBytes, largeBytes);
    ReplayFacts(ops, large, largeBytes);
    forall k | Find(Replay(ops, small, smallBytes), k).Some?
      ensures Find(Replay(ops, large, largeBytes), k) == Find(Replay(ops, small, smallBytes), k)
    {
      SubsequenceValues(Replay(ops, small, smallBytes), Replay(ops, large, largeBytes), k);
    }
  }
}
