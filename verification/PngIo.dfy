/** The PNG reader and the pixel writer as the loops they are, proved against `Decode` and `Encode`. */
module PngIo {
  import opened Wrappers
  import opened Events
  import opened PngFilter
  import opened PngCodec
  import opened PngFiles

  /** Python's `s[i:j]`. */
  function Slice(s: Bytes, i: nat, j: nat): Bytes
    requires i <= j
  {
    Take(Drop(s, i), j - i)
  }

  // ---- Reading ----

  /** The chunk whose length field is at `pos`. */
  function ChunkAt(png: Bytes, pos: nat, length: nat): Chunk {
    Chunk(Slice(png, pos + 4, pos + 8), Slice(png, pos + 8, pos + 8 + length))
  }

  lemma FrontSlices(png: Bytes, pos: nat, field: Bytes)
    requires field == Slice(png, pos, pos + 4) && |field| == 4
    ensures |Drop(png, pos)| >= 4 && Drop(png, pos)[..4] == field
    ensures FrontChunk(Drop(png, pos)) == ChunkAt(png, pos, Unpack32(field))
    ensures AfterFront(Drop(png, pos)) == Drop(png, pos + (12 + Unpack32(field)))
  {
    DropDrop(png, pos, 4);
    DropDrop(png, pos, 8);
    DropDrop(png, pos, 12 + Unpack32(field));
  }

  ghost predicate Meaning(png: Bytes, pos: nat, st: Parts, r: Result<Parts>) {
    ParseChunks(Drop(png, pos), st) == r
  }

  lemma ParseEnd(png: Bytes, pos: nat, st: Parts, r: Result<Parts>)
    requires Meaning(png, pos, st, r)
    ensures pos >= |png| ==> r == Ok(st)
  {
  }

  lemma ParseFront(rest: Bytes, st: Parts)
    requires |rest| >= 4
    ensures ParseChunks(rest, st)
         == if FrontChunk(rest).kind == IEND then Ok(st)
            else if ReadChunk(st, FrontChunk(rest)).Err? then ReadChunk(st, FrontChunk(rest))
            else ParseChunks(AfterFront(rest), ReadChunk(st, FrontChunk(rest)).value)
  {
  }

  lemma ParseOne(png: Bytes, pos: nat, field: Bytes, st: Parts, r: Result<Parts>)
    requires Meaning(png, pos, st, r) && field == Slice(png, pos, pos + 4) && |field| == 4
    ensures var c := ChunkAt(png, pos, Unpack32(field));
      if c.kind == IEND then r == Ok(st)
      else if ReadChunk(st, c).Err? then r == ReadChunk(st, c)
      else Meaning(png, pos + (12 + Unpack32(field)), ReadChunk(st, c).value, r)
  {
    FrontSlices(png, pos, field);
    ParseFront(Drop(png, pos), st);
  }

  datatype Scan = Done(result: Result<Parts>) | More(pos: nat, parts: Parts)

  lemma ParseShort(png: Bytes, pos: nat, field: Bytes, st: Parts, r: Result<Parts>)
    requires Meaning(png, pos, st, r) && pos < |png| && field == Slice(png, pos, pos + 4) && |field| < 4
    ensures r == Err(StructError)
  {
  }

  /** One turn of the chunk loop. */
  method ReadOneChunk(png: Bytes, pos: nat, st: Parts, ghost goal: Result<Parts>) returns (next: Scan)
    requires pos < |png| && Meaning(png, pos, st, goal)
    ensures next.Done? ==> next.result == goal
    ensures next.More? ==> pos < next.pos && Meaning(png, next.pos, next.parts, goal)
  {
    var field := Slice(png, pos, pos + 4);
    if |field| < 4 {
      ParseShort(png, pos, field, st, goal);
      return Done(Err(StructError));
    }
    ParseOne(png, pos, field, st, goal);
    var c := ChunkAt(png, pos, Unpack32(field));
    if c.kind == IEND { return Done(Ok(st)); }
    var r := ReadChunk(st, c);
    return if r.Err? then Done(r) else More(pos + (12 + Unpack32(field)), r.value);
  }

  /** Walks the chunks up to the end chunk or the end of the file. */
  method ReadChunks(png: Bytes) returns (r: Result<Parts>)
    ensures r == ParseChunks(Drop(png, 8), NO_PARTS)
  {
    ghost var goal := ParseChunks(Drop(png, 8), NO_PARTS);
    var pos, st := 8, NO_PARTS;
    while pos < |png|
      invariant Meaning(png, pos, st, goal)
    {
      var next := ReadOneChunk(png, pos, st, goal);
      if next.Done? { return next.result; }
      pos, st := next.pos, next.parts;
    }
    ParseEnd(png, pos, st, goal);
    return Ok(st);
  }

  function Prepend(ps: seq<Rgb>, r: Result<seq<Rgb>>): Result<seq<Rgb>> {
    if r.Err? then r else Ok(ps + r.value)
  }

  lemma PrependNone(r: Result<seq<Rgb>>)
    ensures Prepend([], r) == r
  {
    if r.Ok? { assert [] + r.value == r.value; }
  }

  lemma PrependTwice(ps: seq<Rgb>, qs: seq<Rgb>, r: Result<seq<Rgb>>)
    ensures Prepend(ps, Prepend(qs, r)) == Prepend(ps + qs, r)
  {
    if r.Ok? { assert ps + (qs + r.value) == (ps + qs) + r.value; }
  }

  function PixelAt(row: Bytes, at: nat): Rgb
    requires at + 3 <= |row|
  {
    Rgb(row[at], row[at + 1], row[at + 2])
  }

  /** The inner loop as a function: takes `n` pixels from byte `at` on after those already taken. */
  function TakeFrom(row: Bytes, at: nat, n: nat, bpp: nat, pixels: seq<Rgb>): Result<seq<Rgb>>
    decreases n
  {
    if n == 0 then Ok(pixels)
    else if at + 2 >= |row| then Err(IndexError)
    else TakeFrom(row, at + bpp, n - 1, bpp, pixels + [PixelAt(row, at)])
  }

  lemma TakeOnePixel(row: Bytes, at: nat, n: nat, bpp: nat)
    requires 0 < n && at + 3 <= |row|
    ensures TakePixels(Drop(row, at), n, bpp)
         == Prepend([PixelAt(row, at)], TakePixels(Drop(row, at + bpp), n - 1, bpp))
  {
    DropDrop(row, at, bpp);
  }

  lemma {:induction false} TakeFromIs(row: Bytes, at: nat, n: nat, bpp: nat, pixels: seq<Rgb>)
    ensures TakeFrom(row, at, n, bpp, pixels) == Prepend(pixels, TakePixels(Drop(row, at), n, bpp))
    decreases n
  {
    if n == 0 {
      assert pixels + [] == pixels;
    } else if at + 2 < |row| {
      TakeOnePixel(row, at, n, bpp);
      TakeFromIs(row, at + bpp, n - 1, bpp, pixels + [PixelAt(row, at)]);
      PrependTwice(pixels, [PixelAt(row, at)], TakePixels(Drop(row, at + bpp), n - 1, bpp));
    }
  }

  lemma WholeRow(row: Bytes, w: nat, bpp: nat)
    ensures TakeFrom(row, 0, w, bpp, []) == TakePixels(row, w, bpp)
  {
    TakeFromIs(row, 0, w, bpp, []);
    PrependNone(TakePixels(row, w, bpp));
  }

  /** The inner loop: the pixels of one row. */
  method RowToPixels(row: Bytes, w: nat, bpp: nat) returns (r: Result<seq<Rgb>>)
    ensures r == TakePixels(row, w, bpp)
  {
    ghost var goal := TakePixels(row, w, bpp);
    WholeRow(row, w, bpp);
    var pixels: seq<Rgb> := [];
    var offset: nat := 0;
    for x := 0 to w
      invariant TakeFrom(row, offset, w - x, bpp, pixels) == goal
    {
      if offset + 2 >= |row| { return Err(IndexError); }
      pixels := pixels + [PixelAt(row, offset)];
      offset := offset + bpp;
    }
    return Ok(pixels);
  }

  /** The row at byte `at`: its filter type and the bytes after it. */
  function RowAt(decode: RowDecoder, raw: Bytes, at: nat, stride: nat, prev: Bytes): Result<Row> {
    if at >= |raw| then Err(IndexError) else decode(raw[at], Slice(raw, at + 1, at + 1 + stride), prev)
  }

  /** The outer loop as a function: decodes `n` rows from byte `at` on. */
  function RowsFrom(decode: RowDecoder, raw: Bytes, at: nat, n: nat, stride: nat, prev: Bytes, pixels: seq<Rgb>)
    : Result<seq<Rgb>>
    decreases n
  {
    if n == 0 then Ok(pixels)
    else
      var row := RowAt(decode, raw, at, stride, prev);
      if row.Err? then Err(row.error)
      else RowsFrom(decode, raw, at + (1 + stride), n - 1, stride, row.value.bytes, pixels + row.value.pixels)
  }

  lemma FrontOfRow(raw: Bytes, at: nat, stride: nat)
    requires at < |raw|
    ensures Drop(raw, at) != [] && Drop(raw, at)[0] == raw[at]
    ensures Take(Drop(raw, at)[1..], stride) == Slice(raw, at + 1, at + 1 + stride)
    ensures Drop(Drop(raw, at), 1 + stride) == Drop(raw, at + (1 + stride))
  {
    DropDrop(raw, at, 1 + stride);
  }

  lemma DecodeOneRow(decode: RowDecoder, raw: Bytes, at: nat, n: nat, stride: nat, prev: Bytes, row: Result<Row>)
    requires 0 < n && at < |raw| && row == RowAt(decode, raw, at, stride, prev)
    ensures DecodeRows(decode, Drop(raw, at), n, stride, prev)
         == if row.Err? then Err(row.error)
            else Prepend(row.value.pixels,
                         DecodeRows(decode, Drop(raw, at + (1 + stride)), n - 1, stride, row.value.bytes))
  {
    FrontOfRow(raw, at, stride);
  }

  lemma {:induction false} RowsFromIs(decode: RowDecoder, raw: Bytes, at: nat, n: nat, stride: nat, prev: Bytes,
                                      pixels: seq<Rgb>)
    ensures RowsFrom(decode, raw, at, n, stride, prev, pixels)
         == Prepend(pixels, DecodeRows(decode, Drop(raw, at), n, stride, prev))
    decreases n
  {
    if n == 0 {
      assert pixels + [] == pixels;
    } else if at < |raw| {
      var row := RowAt(decode, raw, at, stride, prev);
      DecodeOneRow(decode, raw, at, n, stride, prev, row);
      if row.Ok? {
        var above, ps := row.value.bytes, row.value.pixels;
        RowsFromIs(decode, raw, at + (1 + stride), n - 1, stride, above, pixels + ps);
        PrependTwice(pixels, ps, DecodeRows(decode, Drop(raw, at + (1 + stride)), n - 1, stride, above));
      }
    }
  }

  lemma AllRows(decode: RowDecoder, raw: Bytes, n: nat, stride: nat, prev: Bytes)
    ensures RowsFrom(decode, raw, 0, n, stride, prev, []) == DecodeRows(decode, raw, n, stride, prev)
  {
    RowsFromIs(decode, raw, 0, n, stride, prev, []);
    PrependNone(DecodeRows(decode, raw, n, stride, prev));
  }

  ghost predicate Decodes(decode: RowDecoder, w: nat, bpp: nat)
    requires 1 <= bpp
  {
    forall ft: Byte, data: Bytes, prev: Bytes {:trigger DecodeRow(ft, data, prev, w, bpp)} ::
      decode(ft, data, prev) == DecodeRow(ft, data, prev, w, bpp)
  }

  /** One turn of the outer loop. */
  method ReadOneRow(raw: Bytes, at: nat, stride: nat, prev: Bytes, w: nat, bpp: nat, ghost decode: RowDecoder)
    returns (r: Result<Row>)
    requires 1 <= bpp && Decodes(decode, w, bpp)
    ensures r == RowAt(decode, raw, at, stride, prev)
  {
    if at >= |raw| { return Err(IndexError); }
    var data := Slice(raw, at + 1, at + 1 + stride);
    assert decode(raw[at], data, prev) == DecodeRow(raw[at], data, prev, w, bpp);
    var row := DefilterRow(raw[at], data, prev, bpp);
    if row.Err? { return Err(row.error); }
    var ps := RowToPixels(row.value, w, bpp);
    if ps.Err? { return Err(ps.error); }
    return Ok(Row(row.value, ps.value));
  }

  /** The outer loop. */
  method RowLoop(raw: Bytes, h: nat, w: nat, bpp: nat, stride: nat, first: Bytes, ghost decode: RowDecoder)
    returns (r: Result<seq<Rgb>>)
    requires 1 <= bpp && Decodes(decode, w, bpp)
    ensures r == RowsFrom(decode, raw, 0, h, stride, first, [])
  {
    ghost var goal := RowsFrom(decode, raw, 0, h, stride, first, []);
    var prev, pixels: seq<Rgb> := first, [];
    var rowStart: nat := 0;
    for y := 0 to h
      invariant RowsFrom(decode, raw, rowStart, h - y, stride, prev, pixels) == goal
    {
      var row := ReadOneRow(raw, rowStart, stride, prev, w, bpp, decode);
      if row.Err? { return Err(row.error); }
      prev, pixels := row.value.bytes, pixels + row.value.pixels;
      rowStart := rowStart + (1 + stride);
    }
    return Ok(pixels);
  }

  /** Defilters and decodes row after row, each from the one above. */
  method ReadRows(raw: Bytes, h: nat, w: nat, bpp: nat, stride: nat, first: Bytes, ghost decode: RowDecoder)
    returns (r: Result<seq<Rgb>>)
    requires 1 <= bpp && Decodes(decode, w, bpp)
    ensures r == DecodeRows(decode, raw, h, stride, first)
  {
    AllRows(decode, raw, h, stride, first);
    r := RowLoop(raw, h, w, bpp, stride, first, decode);
  }

  /** The pixels of the joined data chunks. */
  method ReadPixels(z: Zlib, st: Parts) returns (r: Result<Image>)
    ensures r == DecodeParts(z, st)
  {
    if st.idat == [] { return Err(NoIdat); }
    var raw := z.decompress(Flatten(st.idat));
    if raw.None? { return Err(ZlibError); }
    var bpp := BytesPerPixel(st.colorType);
    var stride := st.width * bpp;
    var px := ReadRows(raw.value, st.height, st.width, bpp, stride, Zeros(stride), DecoderOf(st.width, bpp));
    if px.Err? { return Err(px.error); }
    return Ok(Image(st.width, st.height, px.value));
  }

  method ReadPngPixels(z: Zlib, png: Bytes) returns (r: Result<Image>)
    ensures r == Decode(z, png)
  {
    if Take(png, 8) != SIGNATURE { return Err(NotPng); }
    var st := ReadChunks(png);
    if st.Err? { return Err(st.error); }
    r := ReadPixels(z, st.value);
  }

  // ---- Writing ----

  lemma {:induction false} RgbBytesConcat(a: seq<Rgb>, b: seq<Rgb>)
    ensures RgbBytes(a + b) == RgbBytes(a) + RgbBytes(b)
  {
    if a == [] {
      assert a + b == b;
    } else {
      assert (a + b)[1..] == a[1..] + b;
      RgbBytesConcat(a[1..], b);
    }
  }

  lemma RgbBytesOne(p: Rgb)
    ensures RgbBytes([p]) == PixelBytes(p)
  {
    assert [p][1..] == [];
  }

  lemma RgbBytesSnoc(px: seq<Rgb>, i: nat, j: nat)
    requires i <= j < |px|
    ensures RgbBytes(px[i..j + 1]) == RgbBytes(px[i..j]) + PixelBytes(px[j])
    ensures RgbBytes(px[i..i]) == []
  {
    assert px[i..j + 1] == px[i..j] + [px[j]];
    RgbBytesConcat(px[i..j], [px[j]]);
    RgbBytesOne(px[j]);
  }

  /** The bytes of the `n` pixels from `start`. */
  function BytesFrom(px: seq<Rgb>, start: nat, n: nat): Bytes
    requires n > 0 ==> start + n <= |px|
  {
    if n == 0 then [] else BytesFrom(px, start, n - 1) + PixelBytes(px[start + n - 1])
  }

  lemma {:induction false} BytesFromIs(px: seq<Rgb>, start: nat, n: nat)
    requires start + n <= |px|
    ensures BytesFrom(px, start, n) == RgbBytes(px[start..start + n])
  {
    if n > 0 {
      BytesFromIs(px, start, n - 1);
      RgbBytesSnoc(px, start, start + n - 1);
    }
  }

  /** One row of the writer: a zero filter byte and the row's pixels. */
  method RowBytes(px: seq<Rgb>, start: nat, w: nat) returns (r: Result<Bytes>)
    ensures r == if w > 0 && start + w > |px| then Err(IndexError) else Ok([0] + BytesFrom(px, start, w))
  {
    var zero: Byte := 0;
    var row: Bytes := [zero];
    for x := 0 to w
      invariant x > 0 ==> start + x <= |px|
      invariant row == [zero] + BytesFrom(px, start, x)
    {
      if start + x >= |px| { return Err(IndexError); }
      row := row + PixelBytes(px[start + x]);
    }
    return Ok(row);
  }

  /** The writer's outer loop as a function: `n` rows from pixel `start` on. */
  function WriteFrom(px: seq<Rgb>, start: nat, w: nat, n: nat, raw: Bytes): Result<Bytes>
    decreases n
  {
    if n == 0 then Ok(raw)
    else if w > 0 && start + w > |px| then Err(IndexError)
    else WriteFrom(px, start + w, w, n - 1, raw + ([0] + BytesFrom(px, start, w)))
  }

  /** The rows still to be written complete `raw` to `all`. */
  ghost predicate RowsToWrite(px: seq<Rgb>, start: nat, w: nat, n: nat, raw: Bytes, all: Bytes) {
    start + Area(w, n) <= |px| && all == raw + RawOf(RowsOf(px[start..], w, n))
  }

  lemma OneRowWritten(px: seq<Rgb>, start: nat, w: nat, n: nat, raw: Bytes, all: Bytes)
    requires 0 < n && RowsToWrite(px, start, w, n, raw, all)
    ensures start + w <= |px| && RowsToWrite(px, start + w, w, n - 1, raw + ([0] + BytesFrom(px, start, w)), all)
  {
    var rest := px[start..];
    var rows, row := RowsOf(rest[w..], w, n - 1), RgbBytes(rest[..w]);
    assert rest[w..] == px[start + w..] && rest[..w] == px[start..start + w];
    BytesFromIs(px, start, w);
    assert ([row] + rows)[1..] == rows;
    assert raw + ([0] + (row + RawOf(rows))) == (raw + ([0] + row)) + RawOf(rows);
  }

  lemma AllRowsAreWritten(px: seq<Rgb>, start: nat, w: nat, raw: Bytes, all: Bytes)
    requires RowsToWrite(px, start, w, 0, raw, all)
    ensures raw == all
  {
    assert raw + [] == raw;
  }

  lemma {:induction false} WriteFromIs(px: seq<Rgb>, start: nat, w: nat, n: nat, raw: Bytes, all: Bytes)
    requires RowsToWrite(px, start, w, n, raw, all)
    ensures WriteFrom(px, start, w, n, raw) == Ok(all)
    decreases n
  {
    if n == 0 {
      AllRowsAreWritten(px, start, w, raw, all);
    } else {
      OneRowWritten(px, start, w, n, raw, all);
      WriteFromIs(px, start + w, w, n - 1, raw + ([0] + BytesFrom(px, start, w)), all);
    }
  }

  lemma {:induction false} WriteFromFails(px: seq<Rgb>, start: nat, w: nat, n: nat, raw: Bytes)
    requires start <= |px| < start + Area(w, n)
    ensures WriteFrom(px, start, w, n, raw) == Err(IndexError)
    decreases n
  {
    if start + w <= |px| {
      WriteFromFails(px, start + w, w, n - 1, raw + ([0] + BytesFrom(px, start, w)));
    }
  }

  /** All rows, joined: every row after a zero filter byte, or an error if the pixels run out. */
  method WriteRows(px: seq<Rgb>, w: nat, h: nat) returns (r: Result<Bytes>)
    ensures r == if Area(w, h) <= |px| then Ok(RawOf(RowsOf(px, w, h))) else Err(IndexError)
  {
    AllRowsWritten(px, w, h);
    r := WriteLoop(px, w, h);
  }

  /** The writer's outer loop. */
  method WriteLoop(px: seq<Rgb>, w: nat, h: nat) returns (r: Result<Bytes>)
    ensures r == WriteFrom(px, 0, w, h, [])
  {
    var raw: Bytes := [];
    var start: nat := 0;
    for y := 0 to h
      invariant WriteFrom(px, start, w, h - y, raw) == WriteFrom(px, 0, w, h, [])
    {
      var row := RowBytes(px, start, w);
      if row.Err? { return row; }
      raw, start := raw + row.value, start + w;
    }
    return Ok(raw);
  }

  lemma AllRowsWritten(px: seq<Rgb>, w: nat, h: nat)
    ensures WriteFrom(px, 0, w, h, []) == if Area(w, h) <= |px| then Ok(RawOf(RowsOf(px, w, h))) else Err(IndexError)
  {
    assert px[0..] == px;
    if Area(w, h) <= |px| {
      assert [] + RawOf(RowsOf(px, w, h)) == RawOf(RowsOf(px, w, h));
      WriteFromIs(px, 0, w, h, [], RawOf(RowsOf(px, w, h)));
    } else {
      WriteFromFails(px, 0, w, h, []);
    }
  }

  method MakePngFromPixels(z: Zlib, width: nat, height: nat, pixels: seq<Rgb>) returns (r: Result<Bytes>)
    ensures r == Encode(z, width, height, pixels)
  {
    if width >= UINT32 || height >= UINT32 { return Err(StructError); }
    var raw := WriteRows(pixels, width, height);
    if raw.Err? { return raw; }
    var data := z.compress(raw.value);
    if |data| >= UINT32 { return Err(StructError); }
    return Ok(FileOf(z, width, height, data));
  }
}
