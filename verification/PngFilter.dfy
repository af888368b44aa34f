/** PNG row filters: the decoder's defilter loops and the standard's filters they undo. */
module PngFilter {
  import opened Wrappers
  import opened Events

  datatype Error = NotPng | StructError | UnsupportedFormat | NoIdat | ZlibError | BadFilter | IndexError

  type Result<+T> = Outcome<T, Error>

  function Distance(p: int, x: int): nat {
    if p < x then x - p else p - x
  }

  /** Of left, above and upper left, the one nearest to `a + b - c`; ties go to the earlier. */
  function PaethPredictor(a: Byte, b: Byte, c: Byte): (r: Byte)
    ensures r == a || r == b || r == c
    ensures var p := a + b - c;
      && Distance(p, r) <= Distance(p, a) && Distance(p, r) <= Distance(p, b) && Distance(p, r) <= Distance(p, c)
      && (Distance(p, a) == Distance(p, r) ==> r == a)
      && (Distance(p, a) > Distance(p, r) && Distance(p, b) == Distance(p, r) ==> r == b)
  {
    var p := a + b - c;
    var pa, pb, pc := Distance(p, a), Distance(p, b), Distance(p, c);
    if pa <= pb && pa <= pc then a
    else if pb <= pc then b
    else c
  }

  /** `(x + y) & 0xFF`. */
  function Plus(x: Byte, y: Byte): Byte {
    (x + y) % 256
  }

  /** `(x - y) & 0xFF`. */
  function Minus(x: Byte, y: Byte): Byte {
    (x - y) % 256
  }

  /** Half the sum, rounded down. */
  function Average(x: Byte, y: Byte): (r: Byte)
    ensures 2 * r <= x + y <= 2 * r + 1
  {
    (x + y) / 2
  }

  /** What filter `ft` predicts for the byte after `done`, from the row so far and the row above. */
  function Predict(ft: nat, done: Bytes, prev: Bytes, bpp: nat): Byte
    requires 1 <= bpp && ft <= 4
    requires 2 <= ft ==> |done| < |prev|
  {
    var i := |done|;
    var left := if i >= bpp then done[i - bpp] else 0;
    if ft == 0 then 0
    else if ft == 1 then left
    else if ft == 2 then prev[i]
    else if ft == 3 then Average(left, prev[i])
    else PaethPredictor(left, prev[i], if i >= bpp then prev[i - bpp] else 0)
  }

  /** The encoder's side, section 6 of RFC 2083: each byte minus its prediction, modulo 256. */
  function Filter(ft: nat, row: Bytes, prev: Bytes, bpp: nat): (r: Bytes)
    requires 1 <= bpp && ft <= 4
    requires 2 <= ft ==> |row| <= |prev|
    ensures |r| == |row|
  {
    if row == [] then []
    else
      var n := |row| - 1;
      Filter(ft, row[..n], prev, bpp) + [Minus(row[n], Predict(ft, row[..n], prev, bpp))]
  }

  /** The decoder's side: each byte plus its prediction, modulo 256. */
  function Defilter(ft: nat, raw: Bytes, prev: Bytes, bpp: nat): (r: Bytes)
    requires 1 <= bpp && ft <= 4
    requires 2 <= ft ==> |raw| <= |prev|
    ensures |r| == |raw|
  {
    if raw == [] then []
    else
      var n := |raw| - 1;
      var done := Defilter(ft, raw[..n], prev, bpp);
      done + [Plus(raw[n], Predict(ft, done, prev, bpp))]
  }

  lemma WrapAround(n: int)
    requires -256 < n < 512
    ensures n % 256 == if n < 0 then n + 256 else if n < 256 then n else n - 256
  {
  }

  lemma AddBack(x: Byte, p: Byte)
    ensures Plus(Minus(x, p), p) == x
    ensures Minus(Plus(x, p), p) == x
  {
    WrapAround(x - p);
    WrapAround(x + p);
    WrapAround(Minus(x, p) + p);
    WrapAround(Plus(x, p) - p);
  }

  lemma FilterAppend(ft: nat, row: Bytes, b: Byte, prev: Bytes, bpp: nat)
    requires 1 <= bpp && ft <= 4 && (2 <= ft ==> |row| < |prev|)
    ensures Filter(ft, row + [b], prev, bpp)
         == Filter(ft, row, prev, bpp) + [Minus(b, Predict(ft, row, prev, bpp))]
  {
    assert (row + [b])[..|row|] == row;
  }

  lemma DefilterAppend(ft: nat, raw: Bytes, b: Byte, prev: Bytes, bpp: nat)
    requires 1 <= bpp && ft <= 4 && (2 <= ft ==> |raw| < |prev|)
    ensures Defilter(ft, raw + [b], prev, bpp)
         == Defilter(ft, raw, prev, bpp) + [Plus(b, Predict(ft, Defilter(ft, raw, prev, bpp), prev, bpp))]
  {
    assert (raw + [b])[..|raw|] == raw;
  }

  lemma {:induction false} DefilterPrefix(ft: nat, raw: Bytes, prev: Bytes, bpp: nat, n: nat)
    requires 1 <= bpp && ft <= 4 && (2 <= ft ==> |raw| <= |prev|) && n <= |raw|
    ensures Defilter(ft, raw[..n], prev, bpp) == Defilter(ft, raw, prev, bpp)[..n]
  {
    if n < |raw| {
      var init := raw[..|raw| - 1];
      DefilterPrefix(ft, init, prev, bpp, n);
      assert init[..n] == raw[..n];
    } else {
      assert raw[..n] == raw;
    }
  }

  lemma DefilterNext(ft: nat, raw: Bytes, prev: Bytes, bpp: nat, i: nat, r: Bytes)
    requires 1 <= bpp && ft <= 4 && (2 <= ft ==> |raw| <= |prev|) && i < |raw| && r == Defilter(ft, raw, prev, bpp)
    ensures r[i] == Plus(raw[i], Predict(ft, r[..i], prev, bpp))
  {
    DefilterPrefix(ft, raw, prev, bpp, i);
    DefilterPrefix(ft, raw, prev, bpp, i + 1);
    DefilterAppend(ft, raw[..i], raw[i], prev, bpp);
    assert raw[..i] + [raw[i]] == raw[..i + 1];
    assert r[i] == r[..i + 1][i];
  }

  /** The prediction from the bytes to the left, above, and above that. */
  function Predicted(ft: nat, left: Byte, up: Byte, upLeft: Byte): Byte
    requires ft <= 4
  {
    if ft == 0 then 0
    else if ft == 1 then left
    else if ft == 2 then up
    else if ft == 3 then (left + up) / 2
    else PaethPredictor(left, up, upLeft)
  }

  /** Section 9.2 of the W3C PNG Specification, byte by byte: what each filter type adds to a stored byte. */
  lemma DefilterAt(ft: nat, raw: Bytes, prev: Bytes, bpp: nat, i: nat, r: Bytes, left: Byte, up: Byte, upLeft: Byte)
    requires 1 <= bpp && ft <= 4 && (2 <= ft ==> |raw| <= |prev|) && i < |raw| && r == Defilter(ft, raw, prev, bpp)
    requires left == if i >= bpp then r[i - bpp] else 0
    requires 2 <= ft ==> up == prev[i] && upLeft == if i >= bpp then prev[i - bpp] else 0
    ensures r[i] == (raw[i] + Predicted(ft, left, up, upLeft)) % 256
  {
    DefilterNext(ft, raw, prev, bpp, i, r);
    assert i >= bpp ==> r[..i][i - bpp] == r[i - bpp];
  }

  /** Defiltering undoes every filter, on every row, whatever the row above. */
  lemma {:induction false} DefilterUndoesFilter(ft: nat, row: Bytes, prev: Bytes, bpp: nat)
    requires 1 <= bpp && ft <= 4 && (2 <= ft ==> |row| <= |prev|)
    ensures Defilter(ft, Filter(ft, row, prev, bpp), prev, bpp) == row
  {
    if row != [] {
      var init, b := row[..|row| - 1], row[|row| - 1];
      assert row == init + [b];
      DefilterUndoesFilter(ft, init, prev, bpp);
      var p := Predict(ft, init, prev, bpp);
      FilterAppend(ft, init, b, prev, bpp);
      DefilterAppend(ft, Filter(ft, init, prev, bpp), Minus(b, p), prev, bpp);
      AddBack(b, p);
    }
  }

  /** And filtering undoes defiltering: no two filtered rows decode to the same row. */
  lemma {:induction false} FilterUndoesDefilter(ft: nat, raw: Bytes, prev: Bytes, bpp: nat)
    requires 1 <= bpp && ft <= 4 && (2 <= ft ==> |raw| <= |prev|)
    ensures Filter(ft, Defilter(ft, raw, prev, bpp), prev, bpp) == raw
  {
    if raw != [] {
      var init, b := raw[..|raw| - 1], raw[|raw| - 1];
      assert raw == init + [b];
      FilterUndoesDefilter(ft, init, prev, bpp);
      var done := Defilter(ft, init, prev, bpp);
      var p := Predict(ft, done, prev, bpp);
      DefilterAppend(ft, init, b, prev, bpp);
      FilterAppend(ft, done, Plus(b, p), prev, bpp);
      AddBack(b, p);
    }
  }

  lemma DefilterStep(ft: nat, raw: Bytes, i: nat, prev: Bytes, bpp: nat)
    requires 1 <= bpp && ft <= 4 && i < |raw| && (2 <= ft ==> |raw| <= |prev|)
    ensures var done := Defilter(ft, raw[..i], prev, bpp);
      Defilter(ft, raw[..i + 1], prev, bpp) == done + [Plus(raw[i], Predict(ft, done, prev, bpp))]
  {
    assert raw[..i + 1] == raw[..i] + [raw[i]];
    DefilterAppend(ft, raw[..i], raw[i], prev, bpp);
  }

  method DefilterNone(raw: Bytes, prev: Bytes, bpp: nat) returns (r: Bytes)
    requires 1 <= bpp
    ensures r == Defilter(0, raw, prev, bpp)
  {
    var row := new Byte[|raw|];
    for i := 0 to |raw|
      invariant row[..i] == Defilter(0, raw[..i], prev, bpp)
    {
      DefilterStep(0, raw, i, prev, bpp);
      row[i] := raw[i];
      assert row[..i + 1] == row[..i] + [row[i]];
    }
    assert raw[..|raw|] == raw && row[..] == row[..|raw|];
    r := row[..];
  }

  method DefilterSub(raw: Bytes, prev: Bytes, bpp: nat) returns (r: Bytes)
    requires 1 <= bpp
    ensures r == Defilter(1, raw, prev, bpp)
  {
    var row := new Byte[|raw|];
    for i := 0 to |raw|
      invariant row[..i] == Defilter(1, raw[..i], prev, bpp)
    {
      DefilterStep(1, raw, i, prev, bpp);
      var left := if i >= bpp then row[i - bpp] else 0;
      row[i] := Plus(raw[i], left);
      assert row[..i + 1] == row[..i] + [row[i]];
    }
    assert raw[..|raw|] == raw && row[..] == row[..|raw|];
    r := row[..];
  }

  method DefilterUp(raw: Bytes, prev: Bytes, bpp: nat) returns (r: Bytes)
    requires 1 <= bpp && |raw| <= |prev|
    ensures r == Defilter(2, raw, prev, bpp)
  {
    var row := new Byte[|raw|];
    for i := 0 to |raw|
      invariant row[..i] == Defilter(2, raw[..i], prev, bpp)
    {
      DefilterStep(2, raw, i, prev, bpp);
      row[i] := Plus(raw[i], prev[i]);
      assert row[..i + 1] == row[..i] + [row[i]];
    }
    assert raw[..|raw|] == raw && row[..] == row[..|raw|];
    r := row[..];
  }

  method DefilterAverage(raw: Bytes, prev: Bytes, bpp: nat) returns (r: Bytes)
    requires 1 <= bpp && |raw| <= |prev|
    ensures r == Defilter(3, raw, prev, bpp)
  {
    var row := new Byte[|raw|];
    for i := 0 to |raw|
      invariant row[..i] == Defilter(3, raw[..i], prev, bpp)
    {
      DefilterStep(3, raw, i, prev, bpp);
      var left := if i >= bpp then row[i - bpp] else 0;
      row[i] := Plus(raw[i], Average(left, prev[i]));
      assert row[..i + 1] == row[..i] + [row[i]];
    }
    assert raw[..|raw|] == raw && row[..] == row[..|raw|];
    r := row[..];
  }

  /** The prediction for the byte at `i` from its three neighbours. */
  method PaethAt(row: array<Byte>, i: nat, prev: Bytes, bpp: nat) returns (p: Byte)
    requires 1 <= bpp && i < row.Length && i < |prev|
    ensures p == Predict(4, row[..i], prev, bpp)
  {
    var left := if i >= bpp then row[i - bpp] else 0;
    var upLeft := if i >= bpp then prev[i - bpp] else 0;
    return PaethPredictor(left, prev[i], upLeft);
  }

  method DefilterPaeth(raw: Bytes, prev: Bytes, bpp: nat) returns (r: Bytes)
    requires 1 <= bpp && |raw| <= |prev|
    ensures r == Defilter(4, raw, prev, bpp)
  {
    var row := new Byte[|raw|];
    for i := 0 to |raw|
      invariant row[..i] == Defilter(4, raw[..i], prev, bpp)
    {
      DefilterStep(4, raw, i, prev, bpp);
      var predicted := PaethAt(row, i, prev, bpp);
      row[i] := Plus(raw[i], predicted);
      assert row[..i + 1] == row[..i] + [row[i]];
    }
    assert raw[..|raw|] == raw && row[..] == row[..|raw|];
    r := row[..];
  }

  /**
   * Each filter type fills a fresh row in place with its own loop.  A row longer than the row
   * above makes the filters that look up run off its end.
   */
  method DefilterRow(ft: nat, raw: Bytes, prev: Bytes, bpp: nat) returns (r: Result<Bytes>)
    requires 1 <= bpp
    ensures r == if ft > 4 then Err(BadFilter)
                 else if 2 <= ft && |raw| > |prev| then Err(IndexError)
                 else Ok(Defilter(ft, raw, prev, bpp))
  {
    if ft > 4 { return Err(BadFilter); }
    if 2 <= ft && |raw| > |prev| { return Err(IndexError); }
    var row;
    if ft == 0 { row := DefilterNone(raw, prev, bpp); }
    else if ft == 1 { row := DefilterSub(raw, prev, bpp); }
    else if ft == 2 { row := DefilterUp(raw, prev, bpp); }
    else if ft == 3 { row := DefilterAverage(raw, prev, bpp); }
    else { row := DefilterPaeth(raw, prev, bpp); }
    return Ok(row);
  }
}
