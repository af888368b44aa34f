/** Crop, mask and diff agree with counting pixels by their coordinates. */
module GoldenCounts {
  import opened Wrappers
  import opened Events
  import opened PngFilter
  import opened PngCodec
  import opened PngFiles
  import opened GoldenDiff

  // ---- Coordinates ----

  lemma {:induction false} AreaGrows(w: nat, a: nat, b: nat)
    requires a < b
    ensures Area(w, a) + w <= Area(w, b)
  {
    if a + 1 < b { AreaGrows(w, a, b - 1); }
  }

  predicate Inside(img: Image, x: int, y: int) {
    0 <= x < img.width && 0 <= y < img.height
  }

  /** The pixel in column `x` of row `y`, at index `y * width + x`. */
  function At(img: Image, x: nat, y: nat): Rgb
    requires Whole(img) && Inside(img, x, y)
  {
    AreaGrows(img.width, y, img.height);
    img.pixels[Area(img.width, y) + x]
  }

  /** Every index is that of exactly one pair of coordinates. */
  lemma {:induction false} Coordinates(w: nat, h: nat, i: nat) returns (x: nat, y: nat)
    requires i < Area(w, h)
    ensures x < w && y < h && i == Area(w, y) + x
  {
    if i < Area(w, h - 1) {
      x, y := Coordinates(w, h - 1, i);
    } else {
      x, y := i - Area(w, h - 1), h - 1;
    }
  }

  lemma CoordinatesAreUnique(w: nat, x: nat, y: nat, x': nat, y': nat)
    requires x < w && x' < w && Area(w, y) + x == Area(w, y') + x'
    ensures x == x' && y == y'
  {
    if y < y' { AreaGrows(w, y, y'); } else if y' < y { AreaGrows(w, y', y); }
  }

  /** The coordinates in `c` at which the images differ by more than the tolerance. */
  ghost function DifferingIn(a: Image, g: Image, tolerance: int, c: Rect): set<(nat, nat)>
    requires Comparable(a, g) && c.right <= a.width && c.bottom <= a.height
  {
    set x: nat, y: nat | c.left <= x < c.right && c.top <= y < c.bottom && Differs(At(a, x, y), At(g, x, y), tolerance)
      :: (x, y)
  }

  predicate Comparable(a: Image, g: Image) {
    Whole(a) && Whole(g) && a.width == g.width && a.height == g.height
  }

  // ---- Sets of the same size ----

  lemma {:induction false} SameSize<A(!new), B(!new)>(s: set<A>, t: set<B>, f: A -> B)
    requires forall a :: a in s ==> f(a) in t
    requires forall a, a' :: a in s && a' in s && f(a) == f(a') ==> a == a'
    requires forall b :: b in t ==> exists a :: a in s && f(a) == b
    ensures |s| == |t|
  {
    if s == {} {
      if b :| b in t {
        assert false;
      }
    } else {
      var a :| a in s;
      SameSize(s - {a}, t - {f(a)}, f);
    }
  }

  // ---- Cropping ----

  lemma {:induction false} CropRowsAt(rest: seq<Rgb>, w: nat, l: nat, r: nat, n: nat, x: nat, y: nat)
    requires l <= r <= w && Area(w, n) <= |rest| && x < r - l && y < n
    ensures Area(r - l, y) + x < Area(r - l, n) && Area(w, y) + (l + x) < |rest|
    ensures CropRows(rest, w, l, r, n)[Area(r - l, y) + x] == rest[Area(w, y) + (l + x)]
    decreases n
  {
    if y > 0 {
      CropRowsAt(rest[w..], w, l, r, n - 1, x, y - 1);
    }
  }

  lemma CropRowsFrom(px: seq<Rgb>, start: nat, w: nat, l: nat, r: nat, n: nat, x: nat, y: nat, k: nat, i: nat)
    requires l <= r <= w && start + Area(w, n) <= |px| && x < r - l && y < n
    requires k == Area(r - l, y) + x && i == start + Area(w, y) + (l + x)
    ensures k < Area(r - l, n) && i < |px| && CropRows(px[start..], w, l, r, n)[k] == px[i]
  {
    CropRowsAt(px[start..], w, l, r, n, x, y);
  }

  lemma CropImagePixels(img: Image, c: Rect, start: nat)
    requires Whole(img) && c.left <= c.right <= img.width && c.top <= c.bottom <= img.height
    requires start == Area(img.width, c.top)
    ensures start + Area(img.width, c.bottom - c.top) <= |img.pixels|
    ensures CropImage(img, c).pixels == CropRows(img.pixels[start..], img.width, c.left, c.right, c.bottom - c.top)
  {
    RectFits(img.width, img.height, c.top, c.bottom);
  }

  lemma CropImageAt(img: Image, c: Rect, x: nat, y: nat, k: nat, i: nat)
    requires Whole(img) && c.left <= c.right <= img.width && c.top <= c.bottom <= img.height
    requires x < c.right - c.left && y < c.bottom - c.top
    requires k == Area(c.right - c.left, y) + x && i == Area(img.width, c.top + y) + (c.left + x)
    ensures k < |CropImage(img, c).pixels| && i < |img.pixels|
    ensures CropImage(img, c).pixels[k] == img.pixels[i]
  {
    var start := Area(img.width, c.top);
    CropImagePixels(img, c, start);
    AreaSplit(img.width, c.top, y);
    CropRowsFrom(img.pixels, start, img.width, c.left, c.right, c.bottom - c.top, x, y, k, i);
  }

  /** A pixel of the crop is the pixel of the image at the shifted coordinates. */
  lemma CropAt(img: Image, c: Rect, x: nat, y: nat)
    requires Whole(img) && c.left <= c.right <= img.width && c.top <= c.bottom <= img.height
    requires x < c.right - c.left && y < c.bottom - c.top
    ensures At(CropImage(img, c), x, y) == At(img, c.left + x, c.top + y)
  {
    CropImageAt(img, c, x, y, Area(c.right - c.left, y) + x, Area(img.width, c.top + y) + (c.left + x));
  }

  // ---- Counting ----

  /** The index in an image of width `w` of a pixel given by coordinates from `(left, top)`. */
  function Offset(w: nat, left: nat, top: nat, p: (nat, nat)): int {
    if left <= p.0 && top <= p.1 then Area(w, p.1 - top) + (p.0 - left) else -1
  }

  lemma OffsetIsInjective(w: nat, left: nat, top: nat, p: (nat, nat), q: (nat, nat))
    requires left <= p.0 < left + w && top <= p.1 && left <= q.0 < left + w && top <= q.1
    requires Offset(w, left, top, p) == Offset(w, left, top, q)
    ensures p == q
  {
    CoordinatesAreUnique(w, p.0 - left, p.1 - top, q.0 - left, q.1 - top);
  }

  /** A position in `t` comes from a pair in `s`. */
  ghost predicate Paired(w: nat, left: nat, top: nat, s: set<(nat, nat)>, t: set<nat>, x: nat, y: nat) {
    Area(w, y) + x in t ==> (left + x, top + y) in s
  }

  lemma CountPairs(w: nat, h: nat, left: nat, top: nat, s: set<(nat, nat)>, t: set<nat>)
    requires forall p :: p in s ==> left <= p.0 < left + w && top <= p.1 && Offset(w, left, top, p) in t
    requires forall i :: i in t ==> i < Area(w, h)
    requires forall x: nat, y: nat :: x < w && y < h ==> Paired(w, left, top, s, t, x, y)
    ensures |s| == |t|
  {
    var f := (p: (nat, nat)) => Offset(w, left, top, p);
    forall p, q | p in s && q in s && f(p) == f(q) ensures p == q {
      OffsetIsInjective(w, left, top, p, q);
    }
    forall i | i in t ensures exists p :: p in s && f(p) == i {
      var x, y := Coordinates(w, h, i);
      assert Paired(w, left, top, s, t, x, y);
      assert f((left + x, top + y)) == i;
    }
    SameSize(s, t, f);
  }

  /** Cropping both images leaves exactly the differences inside the rectangle. */
  lemma CropDiffers(a: Image, g: Image, ca: Image, cg: Image, tolerance: int, c: Rect, x: nat, y: nat)
    requires Comparable(a, g) && c.left <= c.right <= a.width && c.top <= c.bottom <= a.height
    requires ca == CropImage(a, c) && cg == CropImage(g, c)
    requires x < c.right - c.left && y < c.bottom - c.top
    ensures Area(c.right - c.left, y) + x in Differing(ca.pixels, cg.pixels, tolerance)
       <==> (c.left + x, c.top + y) in DifferingIn(a, g, tolerance, c)
  {
    CropAt(a, c, x, y);
    CropAt(g, c, x, y);
    AreaGrows(c.right - c.left, y, c.bottom - c.top);
  }

  /** Comparing the crops counts the differing pixels inside the rectangle. */
  lemma CropCounts(a: Image, g: Image, tolerance: int, c: Rect)
    requires Comparable(a, g) && c.left <= c.right <= a.width && c.top <= c.bottom <= a.height
    ensures |Differing(CropImage(a, c).pixels, CropImage(g, c).pixels, tolerance)| == |DifferingIn(a, g, tolerance, c)|
  {
    var w, h, ca, cg := c.right - c.left, c.bottom - c.top, CropImage(a, c), CropImage(g, c);
    var s, t := DifferingIn(a, g, tolerance, c), Differing(ca.pixels, cg.pixels, tolerance);
    forall p | p in s ensures Offset(w, c.left, c.top, p) in t {
      CropDiffers(a, g, ca, cg, tolerance, c, p.0 - c.left, p.1 - c.top);
    }
    forall x: nat, y: nat | x < w && y < h ensures Paired(w, c.left, c.top, s, t, x, y) {
      CropDiffers(a, g, ca, cg, tolerance, c, x, y);
    }
    CountPairs(w, h, c.left, c.top, s, t);
  }

  // ---- Masking ----

  /** The rows left unmasked, as a rectangle. */
  function Unmasked(rows: int, img: Image): Rect {
    Rect(0, Max(0, Min(rows, img.height)), img.width, img.height)
  }

  lemma {:induction false} AreaMonotone(w: nat, a: nat, b: nat)
    requires a <= b
    ensures Area(w, a) <= Area(w, b)
  {
    if a < b { AreaGrows(w, a, b); }
  }

  /** Masking paints whole rows: all of them when more are asked for, none for a negative number. */
  lemma MaskPaintsRows(rows: int, img: Image)
    requires Whole(img)
    ensures MaskCount(rows, img) == Area(img.width, Unmasked(rows, img).top) <= |img.pixels|
  {
    var w := img.width;
    if rows < 0 {
      assert rows * w <= 0;
    } else {
      AreaIsProduct(w, rows);
      if rows <= img.height { AreaMonotone(w, rows, img.height); } else { AreaMonotone(w, img.height, rows); }
    }
  }

  lemma MaskedPixel(px: seq<Rgb>, n: nat, i: nat)
    requires n <= |px| && i < |px|
    ensures Masked(px, n)[i] == if i < n then HOT_PINK else px[i]
  {
  }

  function MaskImage(img: Image, rows: int): (r: Image)
    requires Whole(img)
    ensures Whole(r) && r.width == img.width && r.height == img.height
  {
    MaskPaintsRows(rows, img);
    img.(pixels := Masked(img.pixels, MaskCount(rows, img)))
  }

  /** Masking by coordinates: the rows asked for are hot pink and the others as they were. */
  lemma MaskAt(img: Image, rows: int, x: nat, y: nat)
    requires Whole(img) && Inside(img, x, y)
    ensures At(MaskImage(img, rows), x, y) == if y < rows then Rgb(255, 0, 255) else At(img, x, y)
  {
    var top := Unmasked(rows, img).top;
    MaskPaintsRows(rows, img);
    AreaGrows(img.width, y, img.height);
    MaskedPixel(img.pixels, MaskCount(rows, img), Area(img.width, y) + x);
    if y < top { AreaGrows(img.width, y, top); } else { AreaMonotone(img.width, top, y); }
  }

  function From(d: set<nat>, n: nat): set<nat> {
    set i | i in d && n <= i
  }

  lemma MaskDiffers(a: Image, g: Image, ma: Image, mg: Image, tolerance: int, rows: int, x: nat, y: nat)
    requires Comparable(a, g) && Inside(a, x, y)
    requires ma == MaskImage(a, rows) && mg == MaskImage(g, rows)
    ensures Area(a.width, y) + x in From(Differing(ma.pixels, mg.pixels, tolerance), MaskCount(rows, a))
       <==> (x, y) in DifferingIn(a, g, tolerance, Unmasked(rows, a))
  {
    var n, i := MaskCount(rows, a), Area(a.width, y) + x;
    MaskPaintsRows(rows, a);
    AreaGrows(a.width, y, a.height);
    MaskedPixel(a.pixels, n, i);
    MaskedPixel(g.pixels, n, i);
    var top := Unmasked(rows, a).top;
    if y < top { AreaGrows(a.width, y, top); } else { AreaMonotone(a.width, top, y); }
  }

  lemma UnmaskedCount(a: Image, g: Image, tolerance: int, rows: int)
    requires Comparable(a, g)
    ensures |From(Differing(MaskImage(a, rows).pixels, MaskImage(g, rows).pixels, tolerance), MaskCount(rows, a))|
         == |DifferingIn(a, g, tolerance, Unmasked(rows, a))|
  {
    var ma, mg := MaskImage(a, rows), MaskImage(g, rows);
    var s := DifferingIn(a, g, tolerance, Unmasked(rows, a));
    var t := From(Differing(ma.pixels, mg.pixels, tolerance), MaskCount(rows, a));
    forall p | p in s ensures Offset(a.width, 0, 0, p) in t {
      MaskDiffers(a, g, ma, mg, tolerance, rows, p.0, p.1);
    }
    forall x: nat, y: nat | x < a.width && y < a.height ensures Paired(a.width, 0, 0, s, t, x, y) {
      MaskDiffers(a, g, ma, mg, tolerance, rows, x, y);
    }
    CountPairs(a.width, a.height, 0, 0, s, t);
  }

  /** A masked pixel equals itself, so it differs only under a negative tolerance. */
  lemma MaskedDiffers(a: seq<Rgb>, g: seq<Rgb>, tolerance: int, n: nat)
    requires n <= |a| == |g|
    ensures var d := Differing(Masked(a, n), Masked(g, n), tolerance);
      if 0 <= tolerance || n == 0 then From(d, n) == d else 0 in d - From(d, n)
  {
  }

  lemma ProperSubsetIsSmaller(s: set<nat>, t: set<nat>, i: nat)
    requires s <= t && i in t - s
    ensures |s| < |t|
  {
    assert |t| == |s| + |t - s|;
  }

  /**
   * Comparing the masked images counts the differing pixels below the masked rows, unless a
   * negative tolerance makes even equal pixels differ and some pixels are masked.
   */
  lemma MaskCounts(a: Image, g: Image, tolerance: int, rows: int)
    requires Comparable(a, g)
    ensures |Differing(MaskImage(a, rows).pixels, MaskImage(g, rows).pixels, tolerance)|
         == |DifferingIn(a, g, tolerance, Unmasked(rows, a))|
       <==> 0 <= tolerance || MaskCount(rows, a) == 0
  {
    var n := MaskCount(rows, a);
    var d := Differing(MaskImage(a, rows).pixels, MaskImage(g, rows).pixels, tolerance);
    UnmaskedCount(a, g, tolerance, rows);
    MaskPaintsRows(rows, a);
    MaskedDiffers(a.pixels, g.pixels, tolerance, n);
    if tolerance < 0 && n > 0 { ProperSubsetIsSmaller(From(d, n), d, 0); }
  }

  // ---- From files to files ----

  /** What the comparison of two encoded images reports. */
  function CompareFiles(z: Zlib, a: Result<Bytes>, g: Result<Bytes>, tolerance: int): Result<Comparison>
    requires a.Ok? && g.Ok? && Decode(z, a.value).Ok? && Decode(z, g.value).Ok?
    requires Whole(Decode(z, a.value).value) && Whole(Decode(z, g.value).value)
  {
    Compare(z, Decode(z, a.value).value, Decode(z, g.value).value, tolerance)
  }

  lemma EncodedImageDecodes(z: Zlib, img: Image)
    requires Lawful(z) && Whole(img) && EncodeImage(z, img).Ok?
    ensures Decode(z, EncodeImage(z, img).value) == Ok(img)
  {
    RoundTrip(z, img.width, img.height, img.pixels);
    assert img.pixels[..|img.pixels|] == img.pixels;
  }

  /**
   * Cropping two screenshots of one size and comparing the files counts exactly the pixels
   * beyond the tolerance in the rectangle, and matches exactly when there are none.
   */
  lemma CropThenCompare(z: Zlib, a: Image, g: Image, tolerance: int, left: int, top: int, right: int, bottom: int)
    requires Lawful(z) && Comparable(a, g)
    ensures var c := Clamped(left, top, right, bottom, a.width, a.height);
      var ca, cg := EncodeImage(z, CropImage(a, c)), EncodeImage(z, CropImage(g, c));
      ca.Ok? && cg.Ok? ==>
        && Decode(z, ca.value) == Ok(CropImage(a, c)) && Decode(z, cg.value) == Ok(CropImage(g, c))
        && var r := CompareFiles(z, ca, cg, tolerance);
           r.Ok? ==>
             && r.value.diffCount == |DifferingIn(a, g, tolerance, c)|
             && (r.value.isMatch <==> DifferingIn(a, g, tolerance, c) == {})
  {
    var c := Clamped(left, top, right, bottom, a.width, a.height);
    var ca, cg := EncodeImage(z, CropImage(a, c)), EncodeImage(z, CropImage(g, c));
    if ca.Ok? && cg.Ok? {
      EncodedImageDecodes(z, CropImage(a, c));
      EncodedImageDecodes(z, CropImage(g, c));
      CropCounts(a, g, tolerance, c);
    }
  }

  /** The same after masking: only the rows below the mask count. */
  lemma MaskThenCompare(z: Zlib, a: Image, g: Image, tolerance: int, rows: int)
    requires Lawful(z) && Comparable(a, g) && 0 <= tolerance
    ensures var ma, mg := EncodeImage(z, MaskImage(a, rows)), EncodeImage(z, MaskImage(g, rows));
      ma.Ok? && mg.Ok? ==>
        && Decode(z, ma.value) == Ok(MaskImage(a, rows)) && Decode(z, mg.value) == Ok(MaskImage(g, rows))
        && var r := CompareFiles(z, ma, mg, tolerance);
           r.Ok? ==>
             && r.value.diffCount == |DifferingIn(a, g, tolerance, Unmasked(rows, a))|
             && (r.value.isMatch <==> DifferingIn(a, g, tolerance, Unmasked(rows, a)) == {})
  {
    var ma, mg := EncodeImage(z, MaskImage(a, rows)), EncodeImage(z, MaskImage(g, rows));
    if ma.Ok? && mg.Ok? {
      EncodedImageDecodes(z, MaskImage(a, rows));
      EncodedImageDecodes(z, MaskImage(g, rows));
      MaskCounts(a, g, tolerance, rows);
    }
  }
}
