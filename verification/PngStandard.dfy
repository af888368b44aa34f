/**
 * The reader and the writers against the W3C PNG Specification: files of both colour types the
 * reader supports, the files it refuses, and what a strict reader checks of a written file.
 */
module PngStandard {
  import opened Wrappers
  import opened Events
  import opened PngFilter
  import opened PngCodec
  import opened PngFiles

  // ---- Files of either colour type ----

  function DataChunks(ds: seq<Bytes>): (cs: seq<Chunk>)
    ensures |cs| == |ds|
  {
    if ds == [] then [] else [Chunk([73, 68, 65, 84], ds[0])] + DataChunks(ds[1..])
  }

  /** Section 11.2.2: size, bit depth, colour type, the methods of compression and filtering, and no interlacing. */
  function Header(w: nat, h: nat, depth: Byte, colorType: Byte): (c: Chunk)
    requires w < UINT32 && h < UINT32
    ensures |c.data| == 13
  {
    Chunk([73, 72, 68, 82], Pack32(w) + Pack32(h) + [depth, colorType, 0, 0, 0])
  }

  function ImageChunks(w: nat, h: nat, depth: Byte, colorType: Byte, ds: seq<Bytes>): seq<Chunk>
    requires w < UINT32 && h < UINT32
  {
    [Header(w, h, depth, colorType)] + DataChunks(ds)
  }

  lemma {:induction false} DataIsStream(ds: seq<Bytes>)
    requires forall i :: 0 <= i < |ds| ==> |ds[i]| < UINT32
    ensures Stream(DataChunks(ds))
  {
    if ds != [] { DataIsStream(ds[1..]); }
  }

  lemma ImageIsStream(w: nat, h: nat, depth: Byte, colorType: Byte, ds: seq<Bytes>)
    requires w < UINT32 && h < UINT32 && forall i :: 0 <= i < |ds| ==> |ds[i]| < UINT32
    ensures Stream(ImageChunks(w, h, depth, colorType, ds))
  {
    DataIsStream(ds);
  }

  lemma CollectFirst(c: Chunk, cs: seq<Chunk>, st: Parts)
    requires ReadChunk(st, c).Ok?
    ensures Collect([c] + cs, st) == Collect(cs, ReadChunk(st, c).value)
  {
    assert ([c] + cs)[1..] == cs;
  }

  lemma OneMoreData(a: seq<Bytes>, ds: seq<Bytes>)
    requires ds != []
    ensures (a + [ds[0]]) + ds[1..] == a + ds
  {
  }

  lemma {:induction false} CollectDataChunks(ds: seq<Bytes>, st: Parts)
    ensures Collect(DataChunks(ds), st) == Ok(st.(idat := st.idat + ds))
  {
    if ds == [] {
      assert st.idat + ds == st.idat;
    } else {
      var next := st.(idat := st.idat + [ds[0]]);
      CollectFirst(Chunk(IDAT, ds[0]), DataChunks(ds[1..]), st);
      CollectDataChunks(ds[1..], next);
      OneMoreData(st.idat, ds);
    }
  }

  lemma ReadsHeader(w: nat, h: nat, depth: Byte, colorType: Byte, st: Parts)
    requires w < UINT32 && h < UINT32
    ensures ReadChunk(st, Header(w, h, depth, colorType))
         == if depth == 8 && (colorType == 2 || colorType == 6)
            then Ok(st.(width := w, height := h, colorType := colorType)) else Err(UnsupportedFormat)
  {
    var d := Header(w, h, depth, colorType).data;
    assert d[..4] == Pack32(w) && d[4..8] == Pack32(h) && d[8] == depth && d[9] == colorType;
    UnpackPack(w);
    UnpackPack(h);
  }

  lemma ImageCollects(w: nat, h: nat, depth: Byte, colorType: Byte, ds: seq<Bytes>)
    requires w < UINT32 && h < UINT32
    ensures Collect(ImageChunks(w, h, depth, colorType, ds), NO_PARTS)
         == if depth == 8 && (colorType == 2 || colorType == 6) then Ok(Parts(w, h, colorType, ds))
            else Err(UnsupportedFormat)
  {
    var cs := ImageChunks(w, h, depth, colorType, ds);
    ReadsHeader(w, h, depth, colorType, NO_PARTS);
    assert cs[1..] == DataChunks(ds);
    CollectDataChunks(ds, Parts(w, h, colorType, []));
    assert [] + ds == ds;
  }

  /** The data chunks hold, compressed, what an encoder may store for `rows`, each filtered as it likes. */
  ghost predicate Holds(z: Zlib, ds: seq<Bytes>, fts: seq<nat>, rows: seq<Bytes>, stride: nat, bpp: nat) {
    && ds != [] && (forall i :: 0 <= i < |ds| ==> |ds[i]| < UINT32) && 1 <= bpp && |fts| == |rows|
    && (forall i :: 0 <= i < |fts| ==> fts[i] <= 4) && (forall i :: 0 <= i < |rows| ==> |rows[i]| == stride)
    && z.decompress(Flatten(ds)) == Some(FilteredImage(fts, rows, Zeros(stride), stride, bpp))
  }

  /** An RGB file of any size, with any filter on every row, reads as its rows' pixels, three bytes each. */
  lemma RgbFileDecodes(z: Zlib, w: nat, fts: seq<nat>, rows: seq<Bytes>, ds: seq<Bytes>, trailing: Bytes)
    requires w < UINT32 && |rows| < UINT32 && Holds(z, ds, fts, rows, w * 3, 3)
    ensures Stream(ImageChunks(w, |rows|, 8, 2, ds))
    ensures Decode(z, FileBytes(z, ImageChunks(w, |rows|, 8, 2, ds), trailing))
         == Ok(Image(w, |rows|, AllPixels(rows, w, 3)))
  {
    ImageIsStream(w, |rows|, 8, 2, ds);
    DecodeFile(z, ImageChunks(w, |rows|, 8, 2, ds), trailing);
    ImageCollects(w, |rows|, 8, 2, ds);
    AnyFiltersDecode(fts, rows, Zeros(w * 3), w, 3);
  }

  /** An RGBA file likewise, four bytes a pixel, of which the fourth is dropped. */
  lemma RgbaFileDecodes(z: Zlib, w: nat, fts: seq<nat>, rows: seq<Bytes>, ds: seq<Bytes>, trailing: Bytes)
    requires w < UINT32 && |rows| < UINT32 && Holds(z, ds, fts, rows, w * 4, 4)
    ensures Stream(ImageChunks(w, |rows|, 8, 6, ds))
    ensures Decode(z, FileBytes(z, ImageChunks(w, |rows|, 8, 6, ds), trailing))
         == Ok(Image(w, |rows|, AllPixels(rows, w, 4)))
  {
    ImageIsStream(w, |rows|, 8, 6, ds);
    DecodeFile(z, ImageChunks(w, |rows|, 8, 6, ds), trailing);
    ImageCollects(w, |rows|, 8, 6, ds);
    AnyFiltersDecode(fts, rows, Zeros(w * 4), w, 4);
  }

  lemma {:induction false} RowPixelAt(row: Bytes, w: nat, bpp: nat, x: nat)
    requires 3 <= bpp && |row| == w * bpp && x < w
    ensures x * bpp + 2 < |row| && |RowPixels(row, w, bpp)| == w
    ensures RowPixels(row, w, bpp)[x] == Rgb(row[x * bpp], row[x * bpp + 1], row[x * bpp + 2])
    decreases w
  {
    RowStride(row, w, bpp);
    RowLength(row[bpp..], w - 1, bpp);
    if x > 0 {
      RowPixelAt(row[bpp..], w - 1, bpp, x - 1);
      assert (x - 1) * bpp + bpp == x * bpp;
    }
  }

  lemma {:induction false} RowLength(row: Bytes, w: nat, bpp: nat)
    requires 3 <= bpp && |row| == w * bpp
    ensures |RowPixels(row, w, bpp)| == w
    decreases w
  {
    if w > 0 {
      RowStride(row, w, bpp);
      RowLength(row[bpp..], w - 1, bpp);
    }
  }

  /** The pixel in column `x` of row `y` is the first three bytes of its place in the row. */
  lemma {:induction false} PixelInRows(rows: seq<Bytes>, w: nat, bpp: nat, x: nat, y: nat)
    requires 3 <= bpp && x < w && y < |rows| && forall i :: 0 <= i < |rows| ==> |rows[i]| == w * bpp
    ensures x * bpp + 2 < |rows[y]| && Area(w, y) + x < |AllPixels(rows, w, bpp)|
    ensures AllPixels(rows, w, bpp)[Area(w, y) + x]
         == Rgb(rows[y][x * bpp], rows[y][x * bpp + 1], rows[y][x * bpp + 2])
    decreases y
  {
    var first, more := RowPixels(rows[0], w, bpp), AllPixels(rows[1..], w, bpp);
    RowLength(rows[0], w, bpp);
    if y == 0 {
      RowPixelAt(rows[0], w, bpp, x);
    } else {
      PixelInRows(rows[1..], w, bpp, x, y - 1);
      assert (first + more)[w + (Area(w, y - 1) + x)] == more[Area(w, y - 1) + x];
    }
  }

  // ---- Files that are refused ----

  /** Without the signature nothing is read. */
  lemma NoSignature(z: Zlib, png: Bytes)
    ensures Decode(z, png) == Err(NotPng) <==> Take(png, 8) != [137, 80, 78, 71, 13, 10, 26, 10]
  {
    if Take(png, 8) == SIGNATURE {
      ParseIsNotNotPng(Drop(png, 8), NO_PARTS);
      var st := ParseChunks(Drop(png, 8), NO_PARTS);
      if st.Ok? { PartsAreNotNotPng(z, st.value); }
    }
  }

  lemma {:induction false} ParseIsNotNotPng(rest: Bytes, st: Parts)
    ensures ParseChunks(rest, st) != Err(NotPng)
    decreases |rest|
  {
    if |rest| >= 4 && FrontChunk(rest).kind != IEND {
      var r := ReadChunk(st, FrontChunk(rest));
      if r.Ok? { ParseIsNotNotPng(AfterFront(rest), r.value); }
    }
  }

  lemma {:induction false} TakesPixelsOrIndexError(row: Bytes, w: nat, bpp: nat)
    ensures TakePixels(row, w, bpp).Err? ==> TakePixels(row, w, bpp).error == IndexError
    decreases w
  {
    if w > 0 && |row| >= 3 { TakesPixelsOrIndexError(Drop(row, bpp), w - 1, bpp); }
  }

  lemma RowErrors(ft: Byte, data: Bytes, prev: Bytes, w: nat, bpp: nat)
    requires 1 <= bpp
    ensures var r := DecoderOf(w, bpp)(ft, data, prev);
      r.Err? ==> r.error == (if ft > 4 then BadFilter else IndexError)
  {
    if ft <= 4 && (2 <= ft ==> |data| <= |prev|) { TakesPixelsOrIndexError(Defilter(ft, data, prev, bpp), w, bpp); }
  }

  lemma {:induction false} RowsErrors(w: nat, bpp: nat, rest: Bytes, n: nat, stride: nat, prev: Bytes)
    requires 1 <= bpp
    ensures var r := DecodeRows(DecoderOf(w, bpp), rest, n, stride, prev);
      r.Err? ==> r.error == BadFilter || r.error == IndexError
    decreases n
  {
    if n > 0 && rest != [] {
      RowErrors(rest[0], Take(rest[1..], stride), prev, w, bpp);
      var row := DecoderOf(w, bpp)(rest[0], Take(rest[1..], stride), prev);
      if row.Ok? { RowsErrors(w, bpp, Drop(rest, 1 + stride), n - 1, stride, row.value.bytes); }
    }
  }

  lemma PartsAreNotNotPng(z: Zlib, st: Parts)
    ensures DecodeParts(z, st) != Err(NotPng)
  {
    if st.idat != [] && z.decompress(Flatten(st.idat)).Some? {
      var bpp := BytesPerPixel(st.colorType);
      var stride := st.width * bpp;
      RowsErrors(st.width, bpp, z.decompress(Flatten(st.idat)).value, st.height, stride, Zeros(stride));
    }
  }

  /** Any other bit depth or colour type is an error, whatever the data. */
  lemma UnsupportedIff(z: Zlib, w: nat, h: nat, depth: Byte, colorType: Byte, ds: seq<Bytes>, trailing: Bytes)
    requires w < UINT32 && h < UINT32 && forall i :: 0 <= i < |ds| ==> |ds[i]| < UINT32
    ensures Stream(ImageChunks(w, h, depth, colorType, ds))
    ensures Decode(z, FileBytes(z, ImageChunks(w, h, depth, colorType, ds), trailing)) == Err(UnsupportedFormat)
       <==> depth != 8 || (colorType != 2 && colorType != 6)
  {
    ImageIsStream(w, h, depth, colorType, ds);
    DecodeFile(z, ImageChunks(w, h, depth, colorType, ds), trailing);
    ImageCollects(w, h, depth, colorType, ds);
    if depth == 8 && (colorType == 2 || colorType == 6) {
      PartsAreSupported(z, Parts(w, h, colorType, ds));
    }
  }

  lemma PartsAreSupported(z: Zlib, st: Parts)
    ensures DecodeParts(z, st) != Err(UnsupportedFormat)
    ensures st.idat != [] ==> DecodeParts(z, st) != Err(NoIdat)
  {
    if st.idat != [] && z.decompress(Flatten(st.idat)).Some? {
      var bpp := BytesPerPixel(st.colorType);
      var stride := st.width * bpp;
      RowsErrors(st.width, bpp, z.decompress(Flatten(st.idat)).value, st.height, stride, Zeros(stride));
    }
  }

  /** So is a file with no data chunk. */
  lemma NoDataIff(z: Zlib, w: nat, h: nat, colorType: Byte, ds: seq<Bytes>, trailing: Bytes)
    requires w < UINT32 && h < UINT32 && (colorType == 2 || colorType == 6)
    requires forall i :: 0 <= i < |ds| ==> |ds[i]| < UINT32
    ensures Stream(ImageChunks(w, h, 8, colorType, ds))
    ensures Decode(z, FileBytes(z, ImageChunks(w, h, 8, colorType, ds), trailing)) == Err(NoIdat) <==> ds == []
  {
    ImageIsStream(w, h, 8, colorType, ds);
    DecodeFile(z, ImageChunks(w, h, 8, colorType, ds), trailing);
    ImageCollects(w, h, 8, colorType, ds);
    PartsAreSupported(z, Parts(w, h, colorType, ds));
  }

  function HeadedBy(d: Bytes, ds: seq<Bytes>): seq<Chunk> {
    [Chunk([73, 72, 68, 82], d)] + DataChunks(ds)
  }

  lemma PartsAreStructured(z: Zlib, st: Parts)
    ensures DecodeParts(z, st) != Err(StructError)
  {
    if st.idat != [] && z.decompress(Flatten(st.idat)).Some? {
      var bpp := BytesPerPixel(st.colorType);
      var stride := st.width * bpp;
      RowsErrors(st.width, bpp, z.decompress(Flatten(st.idat)).value, st.height, stride, Zeros(stride));
    }
  }

  /** A header of less than ten bytes cannot be unpacked; what follows the tenth is not looked at. */
  lemma ShortHeaderIff(z: Zlib, d: Bytes, ds: seq<Bytes>, trailing: Bytes)
    requires |d| < UINT32 && forall i :: 0 <= i < |ds| ==> |ds[i]| < UINT32
    ensures Stream(HeadedBy(d, ds))
    ensures Decode(z, FileBytes(z, HeadedBy(d, ds), trailing)) == Err(StructError) <==> |d| < 10
  {
    var head := Chunk([73, 72, 68, 82], d);
    DataIsStream(ds);
    DecodeFile(z, HeadedBy(d, ds), trailing);
    var r := ReadChunk(NO_PARTS, head);
    assert HeadedBy(d, ds)[1..] == DataChunks(ds);
    if r.Ok? {
      CollectDataChunks(ds, r.value);
      PartsAreStructured(z, r.value.(idat := r.value.idat + ds));
    }
  }

  /** A file without a header reads as an image of no size, if it has data that decompresses at all. */
  lemma HeaderlessFile(z: Zlib, ds: seq<Bytes>, trailing: Bytes)
    requires forall i :: 0 <= i < |ds| ==> |ds[i]| < UINT32
    ensures Stream(DataChunks(ds))
    ensures Decode(z, FileBytes(z, DataChunks(ds), trailing))
         == if ds == [] then Err(NoIdat)
            else if z.decompress(Flatten(ds)).None? then Err(ZlibError) else Ok(Image(0, 0, []))
  {
    DataIsStream(ds);
    DecodeFile(z, DataChunks(ds), trailing);
    CollectDataChunks(ds, NO_PARTS);
    assert [] + ds == ds;
  }

  // ---- What a strict reader checks ----

  function FrontLength(s: Bytes): nat
    requires |s| >= 4
  {
    Unpack32(s[..4])
  }

  /** Section 5.3: length, type, data, and a checksum of type and data but not of the length. */
  predicate FrontIsSound(z: Zlib, s: Bytes) {
    && |s| >= 12 && |s| >= 12 + FrontLength(s)
    && var n := FrontLength(s);
       Unpack32(s[8 + n..12 + n]) == z.crc(s[4..8 + n]) % UINT32
  }

  /** Every chunk is sound and the file ends with an empty end chunk. */
  predicate SoundChunks(z: Zlib, s: Bytes)
    decreases |s|
  {
    && FrontIsSound(z, s)
    && if s[4..8] == [73, 69, 78, 68] then FrontLength(s) == 0 && |s| == 12
       else SoundChunks(z, s[12 + FrontLength(s)..])
  }

  /** Signature, then a header for 8-bit RGB without interlacing, all chunks sound. */
  predicate SoundFile(z: Zlib, f: Bytes, w: nat, h: nat) {
    && |f| >= 33 && f[..8] == [137, 80, 78, 71, 13, 10, 26, 10]
    && SoundChunks(z, f[8..])
    && FrontLength(f[8..]) == 13 && f[12..16] == [73, 72, 68, 82]
    && Unpack32(f[16..20]) == w && Unpack32(f[20..24]) == h
    && f[24..29] == [8, 2, 0, 0, 0]
  }

  lemma ChunkIsSound(z: Zlib, c: Chunk, rest: Bytes)
    requires Encodable(c)
    ensures var s := ChunkBytes(z, c) + rest;
      && |s| == 12 + |c.data| + |rest| && FrontIsSound(z, s) && FrontLength(s) == |c.data|
      && s[4..8] == c.kind && s[8..8 + |c.data|] == c.data && s[12 + |c.data|..] == rest
  {
    var n := |c.data|;
    var s, sum := ChunkBytes(z, c) + rest, z.crc(c.kind + c.data) % UINT32;
    UnpackPack(n);
    UnpackPack(sum);
    assert s == Pack32(n) + c.kind + c.data + Pack32(sum) + rest;
    assert s[..4] == Pack32(n) && s[4..8 + n] == c.kind + c.data;
    assert s[8 + n..12 + n] == Pack32(sum);
  }

  lemma {:induction false} SerializedIsSound(z: Zlib, cs: seq<Chunk>)
    requires Stream(cs)
    ensures SoundChunks(z, Serialize(z, cs) + ChunkBytes(z, Chunk(IEND, [])))
  {
    var end := ChunkBytes(z, Chunk(IEND, []));
    if cs == [] {
      ChunkIsSound(z, Chunk(IEND, []), []);
      assert Serialize(z, cs) + end == end + [];
    } else {
      var tail := Serialize(z, cs[1..]) + end;
      FirstSerialized(z, cs, end);
      ChunkIsSound(z, cs[0], tail);
      SerializedIsSound(z, cs[1..]);
    }
  }

  lemma SliceOfSlice(f: Bytes, a: nat, b: nat, c: nat, d: nat)
    requires a <= b <= |f| && c <= d <= b - a
    ensures f[a..b][c..d] == f[a + c..a + d]
  {
    forall i | 0 <= i < d - c ensures f[a..b][c..d][i] == f[a + c..a + d][i] {
      assert f[a..b][c + i] == f[a + c + i];
    }
  }

  lemma HeaderSlices(w: nat, h: nat, d: Bytes)
    requires w < UINT32 && h < UINT32 && d == HeaderData(w, h)
    ensures |d| == 13 && d[8..13] == [8, 2, 0, 0, 0]
    ensures Unpack32(d[..4]) == w && Unpack32(d[4..8]) == h
  {
    var methods: Bytes := [8, 2, 0, 0, 0];
    assert d == Pack32(w) + (Pack32(h) + methods);
    assert d[..4] == Pack32(w) && d[4..8] == Pack32(h) && d[8..13] == methods;
    UnpackPack(w);
    UnpackPack(h);
  }

  /** What a header chunk at the front of `g` looks like from the start of the file. */
  lemma HeaderInFile(w: nat, h: nat, f: Bytes, g: Bytes, d: Bytes)
    requires w < UINT32 && h < UINT32 && d == HeaderData(w, h) && |d| == 13
    requires |f| == 8 + |g| && |g| >= 25 && f[8..|f|] == g && g[4..8] == IHDR && g[8..21] == d
    ensures f[12..16] == IHDR && Unpack32(f[16..20]) == w && Unpack32(f[20..24]) == h && f[24..29] == [8, 2, 0, 0, 0]
  {
    HeaderSlices(w, h, d);
    SliceOfSlice(f, 8, |f|, 4, 8);
    SliceOfSlice(f, 8, |f|, 8, 21);
    SliceOfSlice(f, 16, 29, 0, 4);
    SliceOfSlice(f, 16, 29, 4, 8);
    SliceOfSlice(f, 16, 29, 8, 13);
  }

  lemma BehindSignature(z: Zlib, w: nat, h: nat, f: Bytes, g: Bytes, tail: Bytes)
    requires w < UINT32 && h < UINT32 && f == SIGNATURE + g && SoundChunks(z, g)
    requires g == ChunkBytes(z, Chunk(IHDR, HeaderData(w, h))) + tail
    ensures SoundFile(z, f, w, h)
  {
    ChunkIsSound(z, Chunk(IHDR, HeaderData(w, h)), tail);
    assert f[8..] == g && f[8..|f|] == g && f[..8] == SIGNATURE;
    HeaderInFile(w, h, f, g, HeaderData(w, h));
  }

  lemma FileIsSound(z: Zlib, w: nat, h: nat, data: Bytes)
    requires w < UINT32 && h < UINT32 && |data| < UINT32
    ensures SoundFile(z, FileOf(z, w, h, data), w, h)
  {
    var cs := [Chunk(IHDR, HeaderData(w, h)), Chunk(IDAT, data)];
    var end := ChunkBytes(z, Chunk(IEND, []));
    FirstSerialized(z, cs, end);
    SerializedIsSound(z, cs);
    assert end + [] == end;
    BehindSignature(z, w, h, FileOf(z, w, h, data), Serialize(z, cs) + end, Serialize(z, cs[1..]) + end);
  }

  lemma FirstSerialized(z: Zlib, cs: seq<Chunk>, end: Bytes)
    requires cs != [] && Stream(cs)
    ensures Serialize(z, cs) + end == ChunkBytes(z, cs[0]) + (Serialize(z, cs[1..]) + end)
  {
  }

  /** Every file the writer makes passes the strict checks, with the size it was given. */
  lemma WrittenIsSound(z: Zlib, w: nat, h: nat, px: seq<Rgb>)
    ensures Encode(z, w, h, px).Ok? ==> SoundFile(z, Encode(z, w, h, px).value, w, h)
  {
    if Encode(z, w, h, px).Ok? {
      var data := z.compress(RawOf(RowsOf(px, w, h)));
      FileIsSound(z, w, h, data);
    }
  }
}
