/** Whole PNG files: the pixel writer, the solid-colour writer, the reader, and the round trips. */
module PngFiles {
  import opened Wrappers
  import opened Events
  import opened PngFilter
  import opened PngCodec

  function PixelBytes(p: Rgb): Bytes {
    [p.r, p.g, p.b]
  }

  function RgbBytes(px: seq<Rgb>): (r: Bytes)
    ensures |r| == |px| * 3
  {
    if px == [] then [] else PixelBytes(px[0]) + RgbBytes(px[1..])
  }

  /** The number of pixels of `n` rows of width `w`. */
  function Area(w: nat, n: nat): nat {
    if n == 0 then 0 else w + Area(w, n - 1)
  }

  lemma {:induction false} AreaIsProduct(w: nat, n: nat)
    ensures Area(w, n) == n * w
  {
    if n > 0 {
      AreaIsProduct(w, n - 1);
      assert (n - 1) * w + w == n * w;
    }
  }

  /** The first `n` rows of the pixels, as bytes. */
  function RowsOf(px: seq<Rgb>, w: nat, n: nat): (rows: seq<Bytes>)
    requires Area(w, n) <= |px|
    ensures |rows| == n
    ensures forall i :: 0 <= i < n ==> |rows[i]| == w * 3
    decreases n
  {
    if n == 0 then [] else [RgbBytes(px[..w])] + RowsOf(px[w..], w, n - 1)
  }

  /** Rows without filtering, each after its zero filter byte. */
  function RawOf(rows: seq<Bytes>): Bytes {
    if rows == [] then [] else [0] + (rows[0] + RawOf(rows[1..]))
  }

  function HeaderData(w: nat, h: nat): Bytes
    requires w < UINT32 && h < UINT32
  {
    Pack32(w) + Pack32(h) + [8, 2, 0, 0, 0]
  }

  function FileOf(z: Zlib, w: nat, h: nat, data: Bytes): Bytes
    requires w < UINT32 && h < UINT32 && |data| < UINT32
  {
    FileBytes(z, [Chunk(IHDR, HeaderData(w, h)), Chunk(IDAT, data)], [])
  }

  /** `_make_png_from_pixels`: the sizes must fit 32 bits and the pixels must suffice. */
  function Encode(z: Zlib, w: nat, h: nat, px: seq<Rgb>): Result<Bytes> {
    if w >= UINT32 || h >= UINT32 then Err(StructError)
    else if |px| < Area(w, h) then Err(IndexError)
    else
      var data := z.compress(RawOf(RowsOf(px, w, h)));
      if |data| >= UINT32 then Err(StructError) else Ok(FileOf(z, w, h, data))
  }

  function Repeat(s: Bytes, n: nat): Bytes {
    if n == 0 then [] else s + Repeat(s, n - 1)
  }

  /** `make_png`: a solid colour. */
  function MakePng(z: Zlib, w: nat, h: nat, p: Rgb): Result<Bytes> {
    if w >= UINT32 || h >= UINT32 then Err(StructError)
    else
      var row := [0] + Repeat(PixelBytes(p), w);
      var data := z.compress(Repeat(row, h));
      if |data| >= UINT32 then Err(StructError) else Ok(FileOf(z, w, h, data))
  }

  // ---- The reader sees the writer's rows and pixels ----

  lemma {:induction false} FilterZero(row: Bytes, prev: Bytes, bpp: nat)
    requires 1 <= bpp
    ensures Filter(0, row, prev, bpp) == row
  {
    if row != [] {
      FilterZero(row[..|row| - 1], prev, bpp);
      assert row == row[..|row| - 1] + [row[|row| - 1]];
    }
  }

  function Unfiltered(n: nat): (fts: seq<nat>)
    ensures |fts| == n
    ensures forall i :: 0 <= i < n ==> fts[i] == 0
  {
    if n == 0 then [] else [0] + Unfiltered(n - 1)
  }

  lemma {:induction false} RawIsFiltered(rows: seq<Bytes>, prev: Bytes, stride: nat)
    requires |prev| == stride && forall i :: 0 <= i < |rows| ==> |rows[i]| == stride
    ensures FilteredImage(Unfiltered(|rows|), rows, prev, stride, 3) == RawOf(rows)
  {
    if rows != [] {
      FilterZero(rows[0], prev, 3);
      assert Unfiltered(|rows|)[1..] == Unfiltered(|rows| - 1);
      RawIsFiltered(rows[1..], rows[0], stride);
    }
  }

  lemma {:induction false} PixelsOfRgb(px: seq<Rgb>)
    ensures RowPixels(RgbBytes(px), |px|, 3) == px
  {
    if px != [] {
      assert RgbBytes(px)[3..] == RgbBytes(px[1..]);
      PixelsOfRgb(px[1..]);
      assert px == [px[0]] + px[1..];
    }
  }

  lemma {:induction false} PixelsOfRows(px: seq<Rgb>, w: nat, n: nat)
    requires Area(w, n) <= |px|
    ensures AllPixels(RowsOf(px, w, n), w, 3) == px[..Area(w, n)]
    decreases n
  {
    if n > 0 {
      var rows := RowsOf(px[w..], w, n - 1);
      PixelsOfRows(px[w..], w, n - 1);
      PixelsOfRgb(px[..w]);
      assert ([RgbBytes(px[..w])] + rows)[1..] == rows;
      assert px[..Area(w, n)] == px[..w] + px[w..][..Area(w, n - 1)];
    }
  }

  // ---- Round trips ----

  lemma HeaderReads(w: nat, h: nat, st: Parts)
    requires w < UINT32 && h < UINT32
    ensures ReadHeader(st, HeaderData(w, h)) == Ok(st.(width := w, height := h, colorType := 2))
  {
    var d := HeaderData(w, h);
    assert d[..4] == Pack32(w) && d[4..8] == Pack32(h) && d[8] == 8 && d[9] == 2;
    UnpackPack(w);
    UnpackPack(h);
  }

  lemma CollectFile(w: nat, h: nat, data: Bytes)
    requires w < UINT32 && h < UINT32
    ensures Collect([Chunk(IHDR, HeaderData(w, h)), Chunk(IDAT, data)], NO_PARTS) == Ok(Parts(w, h, 2, [data]))
  {
    var header, body := Chunk(IHDR, HeaderData(w, h)), Chunk(IDAT, data);
    HeaderReads(w, h, NO_PARTS);
    assert [header][1..] == [];
    assert Collect([header], NO_PARTS) == Ok(Parts(w, h, 2, []));
    CollectConcat([header], [body], NO_PARTS);
    CollectData(data, Parts(w, h, 2, []));
    assert [header] + [body] == [header, body] && [] + [data] == [data];
  }

  /** A file made of a header and compressed data reads back as what its data decodes to. */
  lemma DecodeFileOf(z: Zlib, w: nat, h: nat, data: Bytes)
    requires w < UINT32 && h < UINT32 && |data| < UINT32
    ensures Decode(z, FileOf(z, w, h, data)) == DecodeParts(z, Parts(w, h, 2, [data]))
  {
    CollectFile(w, h, data);
    DecodeFile(z, [Chunk(IHDR, HeaderData(w, h)), Chunk(IDAT, data)], []);
  }

  lemma DecodePlainRows(w: nat, h: nat, px: seq<Rgb>)
    requires Area(w, h) <= |px|
    ensures DecodeRows(DecoderOf(w, 3), RawOf(RowsOf(px, w, h)), h, w * 3, Zeros(w * 3)) == Ok(px[..Area(w, h)])
  {
    var rows := RowsOf(px, w, h);
    RawIsFiltered(rows, Zeros(w * 3), w * 3);
    AnyFiltersDecode(Unfiltered(h), rows, Zeros(w * 3), w, 3);
    PixelsOfRows(px, w, h);
  }

  lemma FlattenOne(d: Bytes)
    ensures Flatten([d]) == d
  {
    assert [d][1..] == [];
  }

  lemma DecodePartsOf(z: Zlib, st: Parts, raw: Bytes, px: seq<Rgb>)
    requires st.idat != [] && z.decompress(Flatten(st.idat)) == Some(raw) && st.colorType == 2
    requires DecodeRows(DecoderOf(st.width, 3), raw, st.height, st.width * 3, Zeros(st.width * 3)) == Ok(px)
    ensures DecodeParts(z, st) == Ok(Image(st.width, st.height, px))
  {
  }

  lemma DecodeRaw(z: Zlib, w: nat, h: nat, px: seq<Rgb>, data: Bytes)
    requires Area(w, h) <= |px| && z.decompress(data) == Some(RawOf(RowsOf(px, w, h)))
    ensures DecodeParts(z, Parts(w, h, 2, [data])) == Ok(Image(w, h, px[..Area(w, h)]))
  {
    FlattenOne(data);
    DecodePlainRows(w, h, px);
    DecodePartsOf(z, Parts(w, h, 2, [data]), RawOf(RowsOf(px, w, h)), px[..Area(w, h)]);
  }

  /** Whatever the writer accepts, the reader gives back: width, height and every pixel. */
  lemma RoundTrip(z: Zlib, w: nat, h: nat, px: seq<Rgb>)
    requires Lawful(z)
    ensures Encode(z, w, h, px).Ok? ==>
      && Area(w, h) == h * w <= |px|
      && Decode(z, Encode(z, w, h, px).value) == Ok(Image(w, h, px[..h * w]))
  {
    AreaIsProduct(w, h);
    if Encode(z, w, h, px).Ok? {
      var data := z.compress(RawOf(RowsOf(px, w, h)));
      DecodeFileOf(z, w, h, data);
      DecodeRaw(z, w, h, px, data);
    }
  }

  function Solid(n: nat, p: Rgb): (px: seq<Rgb>)
    ensures |px| == n
    ensures forall i :: 0 <= i < n ==> px[i] == p
  {
    seq(n, _ => p)
  }

  lemma {:induction false} SolidBytes(px: seq<Rgb>, p: Rgb)
    requires forall i :: 0 <= i < |px| ==> px[i] == p
    ensures RgbBytes(px) == Repeat(PixelBytes(p), |px|)
  {
    if px != [] { SolidBytes(px[1..], p); }
  }

  lemma {:induction false} SolidRows(px: seq<Rgb>, p: Rgb, w: nat, n: nat)
    requires Area(w, n) <= |px| && forall i :: 0 <= i < |px| ==> px[i] == p
    ensures RawOf(RowsOf(px, w, n)) == Repeat([0] + Repeat(PixelBytes(p), w), n)
    decreases n
  {
    if n > 0 {
      SolidRows(px[w..], p, w, n - 1);
      SolidBytes(px[..w], p);
      var rows, row := RowsOf(px[w..], w, n - 1), RgbBytes(px[..w]);
      assert ([row] + rows)[1..] == rows;
      assert [0] + (row + RawOf(rows)) == ([0] + row) + RawOf(rows);
    }
  }

  /** The two writers agree on solid images. */
  lemma MakePngIsEncode(z: Zlib, w: nat, h: nat, p: Rgb)
    ensures MakePng(z, w, h, p) == Encode(z, w, h, Solid(Area(w, h), p))
  {
    SolidRows(Solid(Area(w, h), p), p, w, h);
  }

  /** So the solid-colour writer round-trips as well. */
  lemma MakePngRoundTrip(z: Zlib, w: nat, h: nat, p: Rgb)
    requires Lawful(z) && MakePng(z, w, h, p).Ok?
    ensures Area(w, h) == h * w
    ensures Decode(z, MakePng(z, w, h, p).value) == Ok(Image(w, h, Solid(h * w, p)))
  {
    MakePngIsEncode(z, w, h, p);
    RoundTrip(z, w, h, Solid(Area(w, h), p));
    var px := Solid(Area(w, h), p);
    assert px[..|px|] == px;
  }
}
