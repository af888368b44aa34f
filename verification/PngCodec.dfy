/**
 * The PNG reader and writers of the golden-image tools.
 *
 * Compression and the checksum are parameters; all that is asked of them is that
 * decompression undoes compression.
 */
module PngCodec {
  import opened Wrappers
  import opened Events
  import opened PngFilter

  datatype Rgb = Rgb(r: Byte, g: Byte, b: Byte)

  const RED := Rgb(255, 0, 0)

  datatype Image = Image(width: nat, height: nat, pixels: seq<Rgb>)

  datatype Zlib = Zlib(compress: Bytes -> Bytes, decompress: Bytes -> Option<Bytes>, crc: Bytes -> nat)

  ghost predicate Lawful(z: Zlib) {
    forall b: Bytes :: z.decompress(z.compress(b)) == Some(b)
  }

  const SIGNATURE: Bytes := [137, 80, 78, 71, 13, 10, 26, 10]
  const IHDR: Bytes := [73, 72, 68, 82]
  const IDAT: Bytes := [73, 68, 65, 84]
  const IEND: Bytes := [73, 69, 78, 68]
  const UINT32 := 0x1_0000_0000

  // ---- Python slices and 32-bit big-endian integers ----

  function Take(s: Bytes, n: nat): (r: Bytes)
    ensures |r| <= n
  {
    if n <= |s| then s[..n] else s
  }

  function Drop(s: Bytes, n: nat): Bytes {
    if n <= |s| then s[n..] else []
  }

  lemma DropDrop(s: Bytes, n: nat, m: nat)
    ensures Drop(Drop(s, n), m) == Drop(s, n + m)
  {
  }

  lemma TakeDropConcat(a: Bytes, b: Bytes)
    ensures Take(a + b, |a|) == a && Drop(a + b, |a|) == b
  {
  }

  function LowByte(n: nat): (r: Byte)
    ensures n == n / 256 * 256 + r
  {
    n % 256
  }

  function Pack32(n: nat): (r: Bytes)
    requires n < UINT32
    ensures |r| == 4
  {
    [LowByte(n / 256 / 256 / 256), LowByte(n / 256 / 256), LowByte(n / 256), LowByte(n)]
  }

  function Unpack32(b: Bytes): nat
    requires |b| == 4
  {
    var b0: int, b1: int, b2: int, b3: int := b[0], b[1], b[2], b[3];
    ((b0 * 256 + b1) * 256 + b2) * 256 + b3
  }

  lemma UnpackPack(n: nat)
    requires n < UINT32
    ensures Unpack32(Pack32(n)) == n
  {
    assert n / 256 / 256 / 256 / 256 == 0;
  }

  // ---- Chunks ----

  datatype Chunk = Chunk(kind: Bytes, data: Bytes)

  predicate Encodable(c: Chunk) {
    |c.kind| == 4 && |c.data| < UINT32
  }

  function ChunkBytes(z: Zlib, c: Chunk): Bytes
    requires Encodable(c)
  {
    Pack32(|c.data|) + (c.kind + (c.data + Pack32(z.crc(c.kind + c.data) % UINT32)))
  }

  /** What the reader has collected so far. */
  datatype Parts = Parts(width: nat, height: nat, colorType: nat, idat: seq<Bytes>)

  const NO_PARTS := Parts(0, 0, 0, [])

  function ReadHeader(st: Parts, d: Bytes): Result<Parts> {
    if |d| < 10 then Err(StructError)
    else if d[8] != 8 || (d[9] != 2 && d[9] != 6) then Err(UnsupportedFormat)
    else Ok(st.(width := Unpack32(d[..4]), height := Unpack32(d[4..8]), colorType := d[9]))
  }

  function ReadChunk(st: Parts, c: Chunk): Result<Parts> {
    if c.kind == IHDR then ReadHeader(st, c.data)
    else if c.kind == IDAT then Ok(st.(idat := st.idat + [c.data]))
    else Ok(st)
  }

  /** The chunk at the front of `rest`, whatever its checksum. */
  function FrontChunk(rest: Bytes): Chunk
    requires |rest| >= 4
  {
    Chunk(Take(Drop(rest, 4), 4), Take(Drop(rest, 8), Unpack32(rest[..4])))
  }

  function AfterFront(rest: Bytes): (r: Bytes)
    requires |rest| >= 4
    ensures |r| < |rest|
  {
    Drop(rest, 12 + Unpack32(rest[..4]))
  }

  function ParseChunks(rest: Bytes, st: Parts): Result<Parts>
    decreases |rest|
  {
    if rest == [] then Ok(st)
    else if |rest| < 4 then Err(StructError)
    else if FrontChunk(rest).kind == IEND then Ok(st)
    else
      var r := ReadChunk(st, FrontChunk(rest));
      if r.Err? then r else ParseChunks(AfterFront(rest), r.value)
  }

  // ---- Rows and pixels ----

  /** The first `w` pixels of a row; a row too short raises an index error. */
  function TakePixels(row: Bytes, w: nat, bpp: nat): Result<seq<Rgb>>
    decreases w
  {
    if w == 0 then Ok([])
    else if |row| < 3 then Err(IndexError)
    else
      var more := TakePixels(Drop(row, bpp), w - 1, bpp);
      if more.Err? then more else Ok([Rgb(row[0], row[1], row[2])] + more.value)
  }

  /** The defiltered row and its pixels. */
  datatype Row = Row(bytes: Bytes, pixels: seq<Rgb>)

  /** One stored row: its filter byte, the bytes after it, and the row above. */
  function DecodeRow(ft: Byte, data: Bytes, prev: Bytes, w: nat, bpp: nat): Result<Row>
    requires 1 <= bpp
  {
    if ft > 4 then Err(BadFilter)
    else if 2 <= ft && |data| > |prev| then Err(IndexError)
    else
      var row := Defilter(ft, data, prev, bpp);
      var ps := TakePixels(row, w, bpp);
      if ps.Err? then Err(ps.error) else Ok(Row(row, ps.value))
  }

  type RowDecoder = (Byte, Bytes, Bytes) -> Result<Row>

  function DecoderOf(w: nat, bpp: nat): RowDecoder
    requires 1 <= bpp
  {
    (ft: Byte, data: Bytes, prev: Bytes) => DecodeRow(ft, data, prev, w, bpp)
  }

  /** `n` rows, each decoded with the one above it. */
  function DecodeRows(decode: RowDecoder, rest: Bytes, n: nat, stride: nat, prev: Bytes): Result<seq<Rgb>>
    decreases n
  {
    if n == 0 then Ok([])
    else if rest == [] then Err(IndexError)
    else
      var row := decode(rest[0], Take(rest[1..], stride), prev);
      if row.Err? then Err(row.error)
      else
        var more := DecodeRows(decode, Drop(rest, 1 + stride), n - 1, stride, row.value.bytes);
        if more.Err? then more else Ok(row.value.pixels + more.value)
  }

  function Flatten(parts: seq<Bytes>): Bytes {
    if parts == [] then [] else parts[0] + Flatten(parts[1..])
  }

  function Zeros(n: nat): (r: Bytes)
    ensures |r| == n && forall i :: 0 <= i < n ==> r[i] == 0
  {
    seq(n, _ => 0)
  }

  function BytesPerPixel(colorType: nat): nat {
    if colorType == 2 then 3 else 4
  }

  function DecodeParts(z: Zlib, st: Parts): Result<Image> {
    if st.idat == [] then Err(NoIdat)
    else
      var raw := z.decompress(Flatten(st.idat));
      if raw.None? then Err(ZlibError)
      else
        var bpp := BytesPerPixel(st.colorType);
        var stride := st.width * bpp;
        var px := DecodeRows(DecoderOf(st.width, bpp), raw.value, st.height, stride, Zeros(stride));
        if px.Err? then Err(px.error) else Ok(Image(st.width, st.height, px.value))
  }

  /** `read_png_pixels`. */
  function Decode(z: Zlib, png: Bytes): Result<Image> {
    if Take(png, 8) != SIGNATURE then Err(NotPng)
    else
      var st := ParseChunks(Drop(png, 8), NO_PARTS);
      if st.Err? then Err(st.error) else DecodeParts(z, st.value)
  }

  // ---- Parsing undoes serialization ----

  lemma FrontOfChunk(z: Zlib, c: Chunk, rest: Bytes)
    requires Encodable(c)
    ensures var s := ChunkBytes(z, c) + rest;
      |s| >= 4 && FrontChunk(s) == c && AfterFront(s) == rest
  {
    var len, sum := Pack32(|c.data|), Pack32(z.crc(c.kind + c.data) % UINT32);
    var s := ChunkBytes(z, c) + rest;
    UnpackPack(|c.data|);
    assert s == len + (c.kind + (c.data + (sum + rest)));
    TakeDropConcat(len, c.kind + (c.data + (sum + rest)));
    TakeDropConcat(c.kind, c.data + (sum + rest));
    TakeDropConcat(c.data, sum + rest);
    TakeDropConcat(sum, rest);
    DropDrop(s, 4, 4);
    DropDrop(s, 8, |c.data|);
    DropDrop(s, 8 + |c.data|, 4);
  }

  predicate Ancillary(c: Chunk) {
    c.kind != IHDR && c.kind != IDAT && c.kind != IEND
  }

  predicate Stream(cs: seq<Chunk>) {
    forall i :: 0 <= i < |cs| ==> Encodable(cs[i]) && cs[i].kind != IEND
  }

  function Serialize(z: Zlib, cs: seq<Chunk>): Bytes
    requires Stream(cs)
  {
    if cs == [] then [] else ChunkBytes(z, cs[0]) + Serialize(z, cs[1..])
  }

  /** What a list of chunks means to the reader. */
  function Collect(cs: seq<Chunk>, st: Parts): Result<Parts> {
    if cs == [] then Ok(st)
    else
      var r := ReadChunk(st, cs[0]);
      if r.Err? then r else Collect(cs[1..], r.value)
  }

  lemma {:induction false} ParseUndoesSerialize(z: Zlib, cs: seq<Chunk>, rest: Bytes, st: Parts)
    requires Stream(cs)
    ensures ParseChunks(Serialize(z, cs) + rest, st)
         == if Collect(cs, st).Err? then Collect(cs, st) else ParseChunks(rest, Collect(cs, st).value)
  {
    if cs == [] {
      assert Serialize(z, cs) + rest == rest;
    } else {
      var tail := Serialize(z, cs[1..]) + rest;
      assert Serialize(z, cs) + rest == ChunkBytes(z, cs[0]) + tail;
      FrontOfChunk(z, cs[0], tail);
      var r := ReadChunk(st, cs[0]);
      if r.Ok? { ParseUndoesSerialize(z, cs[1..], rest, r.value); }
    }
  }

  /** A whole file: signature, chunks, end chunk, and anything after it. */
  function FileBytes(z: Zlib, cs: seq<Chunk>, trailing: Bytes): Bytes
    requires Stream(cs)
  {
    SIGNATURE + (Serialize(z, cs) + (ChunkBytes(z, Chunk(IEND, [])) + trailing))
  }

  /** Reading a file depends only on what its chunks mean: checksums and trailing bytes do not matter. */
  lemma DecodeFile(z: Zlib, cs: seq<Chunk>, trailing: Bytes)
    requires Stream(cs)
    ensures var st := Collect(cs, NO_PARTS);
      Decode(z, FileBytes(z, cs, trailing)) == if st.Err? then Err(st.error) else DecodeParts(z, st.value)
  {
    var end := ChunkBytes(z, Chunk(IEND, [])) + trailing;
    TakeDropConcat(SIGNATURE, Serialize(z, cs) + end);
    ParseUndoesSerialize(z, cs, end, NO_PARTS);
    FrontOfChunk(z, Chunk(IEND, []), trailing);
  }

  // ---- The layout of the chunks does not matter ----

  lemma {:induction false} CollectConcat(a: seq<Chunk>, b: seq<Chunk>, st: Parts)
    ensures Collect(a + b, st) == if Collect(a, st).Err? then Collect(a, st) else Collect(b, Collect(a, st).value)
  {
    if a == [] {
      assert a + b == b;
    } else {
      assert (a + b)[1..] == a[1..] + b;
      var r := ReadChunk(st, a[0]);
      if r.Ok? { CollectConcat(a[1..], b, r.value); }
    }
  }

  lemma StreamConcat(a: seq<Chunk>, b: seq<Chunk>)
    requires Stream(a) && Stream(b)
    ensures Stream(a + b)
  {
  }

  /** A chunk of unknown kind may be inserted anywhere. */
  lemma AncillaryChunksAreIgnored(z: Zlib, a: seq<Chunk>, x: Chunk, b: seq<Chunk>, t: Bytes)
    requires Stream(a) && Stream([x]) && Stream(b) && Ancillary(x)
    ensures Stream(a + b) && Stream(a + ([x] + b))
    ensures Decode(z, FileBytes(z, a + ([x] + b), t)) == Decode(z, FileBytes(z, a + b, t))
  {
    StreamConcat(a, b);
    StreamConcat([x], b);
    StreamConcat(a, [x] + b);
    CollectConcat(a, b, NO_PARTS);
    CollectConcat(a, [x] + b, NO_PARTS);
    assert ([x] + b)[1..] == b;
    var r := Collect(a, NO_PARTS);
    if r.Ok? { SamePartsReflexive(Collect(b, r.value)); }
    SameResultsDecode(z, a + b, a + ([x] + b), t);
  }

  /** Two lists of data chunks that mean the same to the decompressor. */
  predicate SameParts(s: Parts, t: Parts) {
    && s.width == t.width && s.height == t.height && s.colorType == t.colorType
    && Flatten(s.idat) == Flatten(t.idat) && (s.idat == [] <==> t.idat == [])
  }

  predicate SameResults(r: Result<Parts>, q: Result<Parts>) {
    if r.Err? then q == r else q.Ok? && SameParts(r.value, q.value)
  }

  lemma SamePartsReflexive(r: Result<Parts>)
    ensures SameResults(r, r)
  {
  }

  lemma {:induction false} FlattenConcat(a: seq<Bytes>, b: seq<Bytes>)
    ensures Flatten(a + b) == Flatten(a) + Flatten(b)
  {
    if a == [] {
      assert a + b == b;
    } else {
      assert (a + b)[1..] == a[1..] + b;
      FlattenConcat(a[1..], b);
    }
  }

  lemma FlattenAppend(a: seq<Bytes>, d: Bytes)
    ensures Flatten(a + [d]) == Flatten(a) + d
  {
    FlattenConcat(a, [d]);
    assert [d][1..] == [] && Flatten([d]) == d + [];
  }

  lemma {:induction false} CollectSame(cs: seq<Chunk>, s: Parts, t: Parts)
    requires SameParts(s, t)
    ensures SameResults(Collect(cs, s), Collect(cs, t))
  {
    if cs != [] {
      FlattenAppend(s.idat, cs[0].data);
      FlattenAppend(t.idat, cs[0].data);
      var r, q := ReadChunk(s, cs[0]), ReadChunk(t, cs[0]);
      assert SameResults(r, q);
      if r.Ok? { CollectSame(cs[1..], r.value, q.value); }
    }
  }

  lemma SplitParts(d: Bytes, e: Bytes, st: Parts)
    ensures SameParts(st.(idat := st.idat + [d + e]), st.(idat := st.idat + [d] + [e]))
  {
    FlattenAppend(st.idat, d + e);
    FlattenAppend(st.idat, d);
    FlattenAppend(st.idat + [d], e);
  }

  lemma CollectData(d: Bytes, st: Parts)
    ensures Collect([Chunk(IDAT, d)], st) == Ok(st.(idat := st.idat + [d]))
  {
    assert [Chunk(IDAT, d)][1..] == [];
  }

  lemma CollectSplit(d: Bytes, e: Bytes, b: seq<Chunk>, st: Parts)
    ensures SameResults(Collect([Chunk(IDAT, d + e)] + b, st), Collect([Chunk(IDAT, d)] + ([Chunk(IDAT, e)] + b), st))
  {
    CollectConcat([Chunk(IDAT, d + e)], b, st);
    CollectData(d + e, st);
    var t := st.(idat := st.idat + [d]);
    CollectConcat([Chunk(IDAT, d)], [Chunk(IDAT, e)] + b, st);
    CollectData(d, st);
    CollectConcat([Chunk(IDAT, e)], b, t);
    CollectData(e, t);
    SplitParts(d, e, st);
    CollectSame(b, st.(idat := st.idat + [d + e]), t.(idat := t.idat + [e]));
  }

  /** The compressed data may be split over data chunks anywhere. */
  lemma DataChunksMayBeSplit(z: Zlib, a: seq<Chunk>, d: Bytes, e: Bytes, b: seq<Chunk>, t: Bytes)
    requires Stream(a) && Stream(b) && |d + e| < UINT32
    ensures Stream(a + ([Chunk(IDAT, d + e)] + b))
    ensures Stream(a + ([Chunk(IDAT, d)] + ([Chunk(IDAT, e)] + b)))
    ensures Decode(z, FileBytes(z, a + ([Chunk(IDAT, d + e)] + b), t))
         == Decode(z, FileBytes(z, a + ([Chunk(IDAT, d)] + ([Chunk(IDAT, e)] + b)), t))
  {
    var one, two := [Chunk(IDAT, d + e)] + b, [Chunk(IDAT, d)] + ([Chunk(IDAT, e)] + b);
    CollectSplitAfter(a, d, e, b);
    SameResultsDecode(z, a + one, a + two, t);
  }

  lemma CollectSplitAfter(a: seq<Chunk>, d: Bytes, e: Bytes, b: seq<Chunk>)
    ensures SameResults(Collect(a + ([Chunk(IDAT, d + e)] + b), NO_PARTS),
                        Collect(a + ([Chunk(IDAT, d)] + ([Chunk(IDAT, e)] + b)), NO_PARTS))
  {
    CollectConcat(a, [Chunk(IDAT, d + e)] + b, NO_PARTS);
    CollectConcat(a, [Chunk(IDAT, d)] + ([Chunk(IDAT, e)] + b), NO_PARTS);
    if Collect(a, NO_PARTS).Ok? { CollectSplit(d, e, b, Collect(a, NO_PARTS).value); }
  }

  lemma SameResultsDecode(z: Zlib, cs: seq<Chunk>, ds: seq<Chunk>, t: Bytes)
    requires Stream(cs) && Stream(ds) && SameResults(Collect(cs, NO_PARTS), Collect(ds, NO_PARTS))
    ensures Decode(z, FileBytes(z, cs, t)) == Decode(z, FileBytes(z, ds, t))
  {
    DecodeFile(z, cs, t);
    DecodeFile(z, ds, t);
  }

  // ---- Images whose rows use any filters ----

  /** What an encoder may store for `rows`: each row filtered with a type of its own choice. */
  function FilteredImage(fts: seq<nat>, rows: seq<Bytes>, prev: Bytes, stride: nat, bpp: nat): Bytes
    requires 1 <= bpp && |fts| == |rows| && |prev| == stride
    requires forall i :: 0 <= i < |fts| ==> fts[i] <= 4
    requires forall i :: 0 <= i < |rows| ==> |rows[i]| == stride
  {
    if rows == [] then []
    else
      var ft: Byte := fts[0];
      [ft] + (Filter(ft, rows[0], prev, bpp) + FilteredImage(fts[1..], rows[1..], rows[0], stride, bpp))
  }

  /** The RGB values of a row, leaving out what comes after the third byte of each pixel. */
  function RowPixels(row: Bytes, w: nat, bpp: nat): seq<Rgb>
    requires 3 <= bpp && |row| == w * bpp
    decreases w
  {
    if w == 0 then []
    else
      assert |row| == (w - 1) * bpp + bpp;
      [Rgb(row[0], row[1], row[2])] + RowPixels(row[bpp..], w - 1, bpp)
  }

  function AllPixels(rows: seq<Bytes>, w: nat, bpp: nat): seq<Rgb>
    requires 3 <= bpp && forall i :: 0 <= i < |rows| ==> |rows[i]| == w * bpp
  {
    if rows == [] then [] else RowPixels(rows[0], w, bpp) + AllPixels(rows[1..], w, bpp)
  }

  lemma RowStride(row: Bytes, w: nat, bpp: nat)
    requires 3 <= bpp && |row| == w * bpp && 0 < w
    ensures 3 <= bpp <= |row| && |row| - bpp == (w - 1) * bpp
  {
    assert (w - 1) * bpp + bpp == w * bpp;
  }

  lemma {:induction false} TakeAllPixels(row: Bytes, w: nat, bpp: nat)
    requires 3 <= bpp && |row| == w * bpp
    ensures TakePixels(row, w, bpp) == Ok(RowPixels(row, w, bpp))
    decreases w
  {
    if w > 0 {
      RowStride(row, w, bpp);
      TakeAllPixels(row[bpp..], w - 1, bpp);
    }
  }

  /** Whatever filter each row uses, decoding gives back the original pixels. */
  lemma {:induction false} AnyFiltersDecode(fts: seq<nat>, rows: seq<Bytes>, prev: Bytes, w: nat, bpp: nat)
    requires 3 <= bpp && |fts| == |rows| && |prev| == w * bpp
    requires forall i :: 0 <= i < |fts| ==> fts[i] <= 4
    requires forall i :: 0 <= i < |rows| ==> |rows[i]| == w * bpp
    ensures DecodeRows(DecoderOf(w, bpp), FilteredImage(fts, rows, prev, w * bpp, bpp), |rows|, w * bpp, prev)
         == Ok(AllPixels(rows, w, bpp))
  {
    if rows != [] {
      var raw := Filter(fts[0], rows[0], prev, bpp);
      var more := FilteredImage(fts[1..], rows[1..], rows[0], w * bpp, bpp);
      var ft: Byte := fts[0];
      var data := [ft] + (raw + more);
      assert data[1..] == raw + more;
      TakeDropConcat(raw, more);
      DropDrop(data, 1, w * bpp);
      DefilterUndoesFilter(fts[0], rows[0], prev, bpp);
      TakeAllPixels(rows[0], w, bpp);
      AnyFiltersDecode(fts[1..], rows[1..], rows[0], w, bpp);
    }
  }
}
