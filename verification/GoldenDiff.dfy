/** Golden-image comparison: cropping, masking, counting differences, and the diff image. */
module GoldenDiff {
  import opened Wrappers
  import opened Events
  import opened PngFilter
  import opened PngCodec
  import opened PngFiles
  import opened PngIo

  const HOT_PINK := Rgb(255, 0, 255)

  // ---- Every decoded image has all its pixels ----

  lemma {:induction false} TakenPixels(row: Bytes, w: nat, bpp: nat)
    ensures TakePixels(row, w, bpp).Ok? ==> |TakePixels(row, w, bpp).value| == w
    decreases w
  {
    if w > 0 && |row| >= 3 { TakenPixels(Drop(row, bpp), w - 1, bpp); }
  }

  lemma DecoderTakes(ft: Byte, data: Bytes, prev: Bytes, w: nat, bpp: nat)
    requires 1 <= bpp
    ensures var r := DecoderOf(w, bpp)(ft, data, prev); r.Ok? ==> |r.value.pixels| == w
  {
    if ft <= 4 && (2 <= ft ==> |data| <= |prev|) { TakenPixels(Defilter(ft, data, prev, bpp), w, bpp); }
  }

  lemma {:induction false} DecodedRows(w: nat, bpp: nat, rest: Bytes, n: nat, stride: nat, prev: Bytes)
    requires 1 <= bpp
    ensures var r := DecodeRows(DecoderOf(w, bpp), rest, n, stride, prev); r.Ok? ==> |r.value| == Area(w, n)
    decreases n
  {
    if n > 0 && rest != [] {
      DecoderTakes(rest[0], Take(rest[1..], stride), prev, w, bpp);
      var row := DecoderOf(w, bpp)(rest[0], Take(rest[1..], stride), prev);
      if row.Ok? { DecodedRows(w, bpp, Drop(rest, 1 + stride), n - 1, stride, row.value.bytes); }
    }
  }

  predicate Whole(img: Image) {
    |img.pixels| == Area(img.width, img.height)
  }

  lemma DecodedIsWhole(z: Zlib, png: Bytes)
    ensures Decode(z, png).Ok? ==> Whole(Decode(z, png).value)
  {
    if Decode(z, png).Ok? {
      var st := ParseChunks(Drop(png, 8), NO_PARTS).value;
      var bpp := BytesPerPixel(st.colorType);
      var stride := st.width * bpp;
      DecodedRows(st.width, bpp, z.decompress(Flatten(st.idat)).value, st.height, stride, Zeros(stride));
    }
  }

  // ---- Comparing ----

  predicate Differs(a: Rgb, g: Rgb, tolerance: int) {
    Distance(a.r, g.r) > tolerance || Distance(a.g, g.g) > tolerance || Distance(a.b, g.b) > tolerance
  }

  /** A third of each channel, rounded down. */
  function Dimmed(p: Rgb): (d: Rgb)
    ensures 3 * d.r <= p.r <= 3 * d.r + 2 && 3 * d.g <= p.g <= 3 * d.g + 2 && 3 * d.b <= p.b <= 3 * d.b + 2
  {
    Rgb(p.r / 3, p.g / 3, p.b / 3)
  }

  function DiffPixels(a: seq<Rgb>, g: seq<Rgb>, tolerance: int): (d: seq<Rgb>)
    requires |a| <= |g|
    ensures |d| == |a|
    ensures forall i :: 0 <= i < |a| ==> (d[i] == RED <==> Differs(a[i], g[i], tolerance))
    ensures forall i :: 0 <= i < |a| ==> d[i] == RED || d[i] == Dimmed(a[i])
  {
    if a == [] then []
    else
      var n := |a| - 1;
      DiffPixels(a[..n], g, tolerance) + [if Differs(a[n], g[n], tolerance) then RED else Dimmed(a[n])]
  }

  /** The positions before `n` at which the images differ by more than the tolerance. */
  function DifferingBefore(a: seq<Rgb>, g: seq<Rgb>, tolerance: int, n: nat): set<nat>
    requires n <= |a| <= |g|
  {
    set i: nat | i < n && Differs(a[i], g[i], tolerance)
  }

  function Differing(a: seq<Rgb>, g: seq<Rgb>, tolerance: int): set<nat>
    requires |a| <= |g|
  {
    DifferingBefore(a, g, tolerance, |a|)
  }

  datatype Comparison = Comparison(isMatch: bool, diffCount: nat, diffPng: Option<Bytes>)

  function Report(isMatch: bool, diffCount: nat, png: Result<Bytes>): Result<Comparison> {
    if png.Err? then Err(png.error) else Ok(Comparison(isMatch, diffCount, Some(png.value)))
  }

  function Compare(z: Zlib, a: Image, g: Image, tolerance: int): Result<Comparison>
    requires Whole(a) && Whole(g)
  {
    if a.width != g.width || a.height != g.height then Report(false, a.width * a.height, MakePng(z, 100, 50, RED))
    else
      var d := Differing(a.pixels, g.pixels, tolerance);
      if d == {} then Ok(Comparison(true, 0, None))
      else Report(false, |d|, Encode(z, a.width, a.height, DiffPixels(a.pixels, g.pixels, tolerance)))
  }

  lemma OneMorePixel(a: seq<Rgb>, g: seq<Rgb>, tolerance: int, k: nat)
    requires k < |a| <= |g|
    ensures DiffPixels(a[..k + 1], g, tolerance)
         == DiffPixels(a[..k], g, tolerance) + [if Differs(a[k], g[k], tolerance) then RED else Dimmed(a[k])]
  {
    assert a[..k + 1][..k] == a[..k];
  }

  lemma OneMorePosition(a: seq<Rgb>, g: seq<Rgb>, tolerance: int, k: nat)
    requires k < |a| <= |g| && Differs(a[k], g[k], tolerance)
    ensures |DifferingBefore(a, g, tolerance, k + 1)| == |DifferingBefore(a, g, tolerance, k)| + 1
  {
    var d := DifferingBefore(a, g, tolerance, k);
    assert k !in d;
    assert DifferingBefore(a, g, tolerance, k + 1) == d + {k};
  }

  lemma NoMorePosition(a: seq<Rgb>, g: seq<Rgb>, tolerance: int, k: nat)
    requires k < |a| <= |g| && !Differs(a[k], g[k], tolerance)
    ensures DifferingBefore(a, g, tolerance, k + 1) == DifferingBefore(a, g, tolerance, k)
  {
  }

  /** The comparison loop: counts the differing pixels and builds the diff image. */
  method DiffLoop(a: seq<Rgb>, g: seq<Rgb>, tolerance: int) returns (diffCount: nat, diffPixels: seq<Rgb>)
    requires |a| <= |g|
    ensures diffCount == |Differing(a, g, tolerance)| && diffPixels == DiffPixels(a, g, tolerance)
  {
    diffCount, diffPixels := 0, [];
    for i := 0 to |a|
      invariant diffCount == |DifferingBefore(a, g, tolerance, i)| && diffPixels == DiffPixels(a[..i], g, tolerance)
    {
      OneMorePixel(a, g, tolerance, i);
      if Differs(a[i], g[i], tolerance) {
        OneMorePosition(a, g, tolerance, i);
        diffCount := diffCount + 1;
        diffPixels := diffPixels + [RED];
      } else {
        NoMorePosition(a, g, tolerance, i);
        diffPixels := diffPixels + [Dimmed(a[i])];
      }
    }
    assert a[..|a|] == a;
  }

  method CompareImages(z: Zlib, a: Image, g: Image, tolerance: int) returns (r: Result<Comparison>)
    requires Whole(a) && Whole(g)
    ensures r == Compare(z, a, g, tolerance)
  {
    if a.width != g.width || a.height != g.height {
      return Report(false, a.width * a.height, MakePng(z, 100, 50, RED));
    }
    var diffCount, diffPixels := DiffLoop(a.pixels, g.pixels, tolerance);
    if diffCount == 0 { return Ok(Comparison(true, 0, None)); }
    var png := MakePngFromPixels(z, a.width, a.height, diffPixels);
    return Report(false, diffCount, png);
  }

  /** `compare_golden`; the tolerance defaults to an exact match. */
  method CompareGolden(z: Zlib, actualPng: Bytes, goldenPng: Bytes, tolerance: int := 0) returns (r: Result<Comparison>)
    ensures var a, g := Decode(z, actualPng), Decode(z, goldenPng);
      && (a.Err? ==> r == Err(a.error))
      && (a.Ok? && g.Err? ==> r == Err(g.error))
      && (a.Ok? && g.Ok? ==> Whole(a.value) && Whole(g.value) && r == Compare(z, a.value, g.value, tolerance))
  {
    var a := ReadPngPixels(z, actualPng);
    if a.Err? { return Err(a.error); }
    var g := ReadPngPixels(z, goldenPng);
    if g.Err? { return Err(g.error); }
    DecodedIsWhole(z, actualPng);
    DecodedIsWhole(z, goldenPng);
    r := CompareImages(z, a.value, g.value, tolerance);
  }

  lemma DiffersIff(a: Rgb, g: Rgb, tolerance: int)
    ensures Differs(a, g, tolerance)
       <==> !(-tolerance <= a.r - g.r <= tolerance && -tolerance <= a.g - g.g <= tolerance
              && -tolerance <= a.b - g.b <= tolerance)
  {
  }

  /** A match is reported exactly when the sizes agree and every channel of every pixel is within the tolerance. */
  lemma MatchIff(z: Zlib, a: Image, g: Image, tolerance: int)
    requires Whole(a) && Whole(g)
    ensures (Compare(z, a, g, tolerance).Ok? && Compare(z, a, g, tolerance).value.isMatch)
       <==> (a.width == g.width && a.height == g.height
             && forall i :: 0 <= i < |a.pixels| ==>
                  && -tolerance <= a.pixels[i].r - g.pixels[i].r <= tolerance
                  && -tolerance <= a.pixels[i].g - g.pixels[i].g <= tolerance
                  && -tolerance <= a.pixels[i].b - g.pixels[i].b <= tolerance)
  {
    if a.width == g.width && a.height == g.height {
      var d := Differing(a.pixels, g.pixels, tolerance);
      forall i | 0 <= i < |a.pixels| ensures i in d <==> Differs(a.pixels[i], g.pixels[i], tolerance) {
      }
      forall i | 0 <= i < |a.pixels|
        ensures i in d
           <==> !(-tolerance <= a.pixels[i].r - g.pixels[i].r <= tolerance
                  && -tolerance <= a.pixels[i].g - g.pixels[i].g <= tolerance
                  && -tolerance <= a.pixels[i].b - g.pixels[i].b <= tolerance)
      {
        DiffersIff(a.pixels[i], g.pixels[i], tolerance);
      }
      assert d == {} <==> forall i :: 0 <= i < |a.pixels| ==> i !in d;
    }
  }

  /** With no tolerance only equal images match. */
  lemma ExactMatchIff(z: Zlib, a: Image, g: Image)
    requires Whole(a) && Whole(g)
    ensures (Compare(z, a, g, 0).Ok? && Compare(z, a, g, 0).value.isMatch) <==> a == g
  {
    MatchIff(z, a, g, 0);
    if a.width == g.width && a.height == g.height {
      SamePixels(a.pixels, g.pixels);
    }
  }

  lemma SamePixels(a: seq<Rgb>, g: seq<Rgb>)
    requires |a| == |g|
    ensures a == g <==> forall i :: 0 <= i < |a| ==> a[i].r == g[i].r && a[i].g == g[i].g && a[i].b == g[i].b
  {
  }

  /** Comparing without naming a tolerance: a match exactly when the two files decode to the same image. */
  method CompareExactly(z: Zlib, actualPng: Bytes, goldenPng: Bytes) returns (r: Result<Comparison>)
    ensures Decode(z, actualPng).Ok? && Decode(z, goldenPng).Ok? ==>
      (r.Ok? && r.value.isMatch <==> Decode(z, actualPng) == Decode(z, goldenPng))
  {
    r := CompareGolden(z, actualPng, goldenPng);
    if Decode(z, actualPng).Ok? && Decode(z, goldenPng).Ok? {
      ExactMatchIff(z, Decode(z, actualPng).value, Decode(z, goldenPng).value);
    }
  }

  /** Decoding the diff image gives pure red at exactly the differing pixels, a third of the actual elsewhere. */
  lemma DiffImageMarksDifferences(z: Zlib, a: Image, g: Image, tolerance: int)
    requires Lawful(z) && Whole(a) && Whole(g) && a.width == g.width && a.height == g.height
    requires Compare(z, a, g, tolerance).Ok? && !Compare(z, a, g, tolerance).value.isMatch
    ensures var png := Compare(z, a, g, tolerance).value.diffPng;
      && png.Some? && Decode(z, png.value).Ok?
      && var d := Decode(z, png.value).value;
         && d.width == a.width && d.height == a.height && |d.pixels| == |a.pixels|
         && (forall i :: 0 <= i < |a.pixels| ==>
               (d.pixels[i] == Rgb(255, 0, 0) <==> Differs(a.pixels[i], g.pixels[i], tolerance)))
         && (forall i :: 0 <= i < |a.pixels| ==> d.pixels[i] == Rgb(255, 0, 0) || d.pixels[i] == Dimmed(a.pixels[i]))
  {
    var px := DiffPixels(a.pixels, g.pixels, tolerance);
    RoundTrip(z, a.width, a.height, px);
    assert px[..|px|] == px;
  }

  /** Images of different sizes never match; the picture reported for them is a red rectangle. */
  lemma MismatchReport(z: Zlib, a: Image, g: Image, tolerance: int)
    requires Lawful(z) && Whole(a) && Whole(g) && (a.width != g.width || a.height != g.height)
    requires Compare(z, a, g, tolerance).Ok?
    ensures var c := Compare(z, a, g, tolerance).value;
      && !c.isMatch && c.diffCount == |a.pixels| && c.diffPng.Some?
      && Decode(z, c.diffPng.value) == Ok(Image(100, 50, Solid(5000, Rgb(255, 0, 0))))
  {
    AreaIsProduct(a.width, a.height);
    MakePngRoundTrip(z, 100, 50, RED);
  }

  // ---- Cropping ----

  datatype Rect = Rect(left: nat, top: nat, right: nat, bottom: nat)

  /** The rectangle moved into a `w` by `h` image; one that is inside out becomes empty. */
  function Clamped(left: int, top: int, right: int, bottom: int, w: nat, h: nat): (r: Rect)
    ensures r.left <= r.right <= w && r.top <= r.bottom <= h
  {
    var l, t := Max(0, Min(left, w)), Max(0, Min(top, h));
    Rect(l, t, Max(l, Min(right, w)), Max(t, Min(bottom, h)))
  }

  /** Clamping loses none of the image's pixels that are in the rectangle asked for, and adds none. */
  lemma ClampedIsIntersection(left: int, top: int, right: int, bottom: int, w: nat, h: nat, x: int, y: int)
    requires 0 <= x < w && 0 <= y < h
    ensures var c := Clamped(left, top, right, bottom, w, h);
      && (c.left <= x < c.right <==> left <= x < right)
      && (c.top <= y < c.bottom <==> top <= y < bottom)
  {
  }

  /** Columns `l` to `r` of `n` rows of width `w`. */
  function CropRows(rest: seq<Rgb>, w: nat, l: nat, r: nat, n: nat): (px: seq<Rgb>)
    requires l <= r <= w && Area(w, n) <= |rest|
    ensures |px| == Area(r - l, n)
    decreases n
  {
    if n == 0 then [] else rest[l..r] + CropRows(rest[w..], w, l, r, n - 1)
  }

  lemma AreaSplit(w: nat, a: nat, b: nat)
    ensures Area(w, a + b) == Area(w, a) + Area(w, b)
  {
    AreaIsProduct(w, a);
    AreaIsProduct(w, b);
    AreaIsProduct(w, a + b);
    assert (a + b) * w == a * w + b * w;
  }

  lemma RectFits(w: nat, h: nat, top: nat, bottom: nat)
    requires top <= bottom <= h
    ensures Area(w, top) + Area(w, bottom - top) <= Area(w, h)
  {
    AreaSplit(w, top, h - top);
    AreaSplit(w, bottom - top, h - bottom);
  }

  function CropImage(img: Image, c: Rect): (r: Image)
    requires Whole(img) && c.left <= c.right <= img.width && c.top <= c.bottom <= img.height
    ensures Whole(r) && r.width == c.right - c.left && r.height == c.bottom - c.top
  {
    RectFits(img.width, img.height, c.top, c.bottom);
    Image(c.right - c.left, c.bottom - c.top,
          CropRows(img.pixels[Area(img.width, c.top)..], img.width, c.left, c.right, c.bottom - c.top))
  }

  /** One row of the crop loop. */
  method CropRow(pixels: seq<Rgb>, start: nat, l: nat, r: nat) returns (row: seq<Rgb>)
    requires l <= r && start + r <= |pixels|
    ensures row == pixels[start..][l..r]
  {
    row := [];
    for x := l to r
      invariant row == pixels[start + l..start + x]
    {
      row := row + [pixels[start + x]];
    }
    assert pixels[start..][l..r] == pixels[start + l..start + r];
  }

  lemma CropOneRow(px: seq<Rgb>, at: nat, w: nat, l: nat, r: nat, n: nat)
    requires l <= r <= w && 0 < n && at + Area(w, n) <= |px|
    ensures CropRows(px[at..], w, l, r, n) == px[at..][l..r] + CropRows(px[at + w..], w, l, r, n - 1)
  {
    assert px[at..][w..] == px[at + w..];
  }

  /** The rows still to be cropped, from pixel `at` on, complete `cropped` to `goal`. */
  ghost predicate CropLeft(px: seq<Rgb>, at: nat, w: nat, l: nat, r: nat, n: nat, cropped: seq<Rgb>, goal: seq<Rgb>) {
    l <= r <= w && at + Area(w, n) <= |px| && goal == cropped + CropRows(px[at..], w, l, r, n)
  }

  lemma CropStep(px: seq<Rgb>, at: nat, w: nat, l: nat, r: nat, n: nat, cropped: seq<Rgb>, goal: seq<Rgb>)
    requires 0 < n && CropLeft(px, at, w, l, r, n, cropped, goal)
    ensures at + r <= |px| && CropLeft(px, at + w, w, l, r, n - 1, cropped + px[at..][l..r], goal)
  {
    CropOneRow(px, at, w, l, r, n);
    assert cropped + (px[at..][l..r] + CropRows(px[at + w..], w, l, r, n - 1))
        == (cropped + px[at..][l..r]) + CropRows(px[at + w..], w, l, r, n - 1);
  }

  lemma CropDone(px: seq<Rgb>, at: nat, w: nat, l: nat, r: nat, cropped: seq<Rgb>, goal: seq<Rgb>)
    requires CropLeft(px, at, w, l, r, 0, cropped, goal)
    ensures cropped == goal
  {
    assert cropped + [] == cropped;
  }

  method CropLoop(px: seq<Rgb>, start: nat, w: nat, l: nat, r: nat, n: nat, ghost goal: seq<Rgb>)
    returns (cropped: seq<Rgb>)
    requires CropLeft(px, start, w, l, r, n, [], goal)
    ensures cropped == goal
  {
    var at: nat := start;
    cropped := [];
    for y := 0 to n
      invariant CropLeft(px, at, w, l, r, n - y, cropped, goal)
    {
      CropStep(px, at, w, l, r, n - y, cropped, goal);
      var row := CropRow(px, at, l, r);
      cropped, at := cropped + row, at + w;
    }
    CropDone(px, at, w, l, r, cropped, goal);
  }

  lemma CropBegins(img: Image, c: Rect)
    requires Whole(img) && c.left <= c.right <= img.width && c.top <= c.bottom <= img.height
    ensures CropLeft(img.pixels, Area(img.width, c.top), img.width, c.left, c.right, c.bottom - c.top, [],
                     CropImage(img, c).pixels)
  {
    RectFits(img.width, img.height, c.top, c.bottom);
    assert [] + CropImage(img, c).pixels == CropImage(img, c).pixels;
  }

  function EncodeImage(z: Zlib, img: Image): Result<Bytes> {
    Encode(z, img.width, img.height, img.pixels)
  }

  method CropPixels(img: Image, left: int, top: int, right: int, bottom: int) returns (r: Image)
    requires Whole(img)
    ensures r == CropImage(img, Clamped(left, top, right, bottom, img.width, img.height))
  {
    var c := Clamped(left, top, right, bottom, img.width, img.height);
    AreaIsProduct(img.width, c.top);
    CropBegins(img, c);
    ghost var goal := CropImage(img, c).pixels;
    var cropped := CropLoop(img.pixels, c.top * img.width, img.width, c.left, c.right, c.bottom - c.top, goal);
    return Image(c.right - c.left, c.bottom - c.top, cropped);
  }

  /** `crop_to_app_pane`, with the default pane of a 1920 by 1080 screenshot. */
  method CropToAppPane(z: Zlib, png: Bytes, left: int := 76, top: int := 12, right: int := 1908, bottom: int := 1068)
    returns (r: Result<Bytes>)
    ensures Decode(z, png).Err? ==> r == Err(Decode(z, png).error)
    ensures Decode(z, png).Ok? ==>
      var img := Decode(z, png).value;
      Whole(img) && r == EncodeImage(z, CropImage(img, Clamped(left, top, right, bottom, img.width, img.height)))
  {
    var d := ReadPngPixels(z, png);
    if d.Err? { return Err(d.error); }
    DecodedIsWhole(z, png);
    var c := CropPixels(d.value, left, top, right, bottom);
    r := MakePngFromPixels(z, c.width, c.height, c.pixels);
  }

  // ---- Masking ----

  /** The first `n` pixels painted hot pink. */
  function Masked(px: seq<Rgb>, n: nat): (m: seq<Rgb>)
    requires n <= |px|
    ensures |m| == |px|
  {
    Solid(n, HOT_PINK) + px[n..]
  }

  /** How many pixels masking `rows` rows paints; a negative number of rows paints none. */
  function MaskCount(rows: int, img: Image): nat {
    Max(0, Min(rows * img.width, |img.pixels|))
  }

  method MaskLoop(pixels: seq<Rgb>, n: nat) returns (r: seq<Rgb>)
    requires n <= |pixels|
    ensures r == Masked(pixels, n)
  {
    var a := new Rgb[|pixels|](i requires 0 <= i < |pixels| => pixels[i]);
    for i := 0 to n
      invariant forall k :: 0 <= k < i ==> a[k] == HOT_PINK
      invariant forall k :: i <= k < |pixels| ==> a[k] == pixels[k]
    {
      a[i] := HOT_PINK;
    }
    r := a[..];
  }

  /** `mask_status_bar`, a hundred rows by default. */
  method MaskStatusBar(z: Zlib, png: Bytes, rows: int := 100) returns (r: Result<Bytes>)
    ensures var d := Decode(z, png);
      if d.Err? then r == Err(d.error)
      else r == Encode(z, d.value.width, d.value.height, Masked(d.value.pixels, MaskCount(rows, d.value)))
  {
    var d := ReadPngPixels(z, png);
    if d.Err? { return Err(d.error); }
    var pixels := MaskLoop(d.value.pixels, MaskCount(rows, d.value));
    r := MakePngFromPixels(z, d.value.width, d.value.height, pixels);
  }
}
