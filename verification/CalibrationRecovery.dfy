/**
 * What the detector and the transform make of the pattern: markers shown at any size, and the
 * pattern pasted unscaled, whose rectangle is recovered.
 */
module CalibrationRecovery {
  import opened Wrappers
  import opened Events
  import opened PngCodec
  import opened Calibration

  /** The pattern by coordinates. */
  lemma PatternColors(pw: nat, ph: nat, x: nat, y: nat)
    requires 100 <= pw && 100 <= ph && x < pw && y < ph
    ensures PatternAt(pw, ph, x, y)
         == if x < 50 && y < 50 then Rgb(255, 0, 0)
            else if pw - 50 <= x && y < 50 then Rgb(0, 255, 0)
            else if x < 50 && ph - 50 <= y then Rgb(0, 0, 255)
            else if pw - 50 <= x && ph - 50 <= y then Rgb(255, 255, 0)
            else Rgb(255, 0, 255)
  {
  }

  predicate FarFromMarkers(p: Rgb) {
    !Near(p, RED) && !Near(p, GREEN) && !Near(p, BLUE) && !Near(p, YELLOW)
  }

  /** The screenshot shows the pattern, unscaled, at `(ox, oy)`, on a background far from the marker colours. */
  ghost predicate Pasted(img: array2<Rgb>, pw: nat, ph: nat, ox: nat, oy: nat)
    reads img
  {
    && 100 <= pw && 100 <= ph && ox + pw <= img.Length0 && oy + ph <= img.Length1
    && forall x, y :: 0 <= x < img.Length0 && 0 <= y < img.Length1 ==>
         if ox <= x < ox + pw && oy <= y < oy + ph then img[x, y] == PatternAt(pw, ph, x - ox, y - oy)
         else FarFromMarkers(img[x, y])
  }

  lemma Squares(n: int)
    ensures 0 <= Square(n) && (n == 255 || n == -255 ==> Square(n) == 65025)
  {
  }

  /** One channel at opposite ends is far enough. */
  lemma FarInOneChannel(p: Rgb, q: Rgb)
    requires p.r - q.r in [255, -255] || p.g - q.g in [255, -255] || p.b - q.b in [255, -255]
    ensures !Near(p, q)
  {
    Squares(p.r - q.r);
    Squares(p.g - q.g);
    Squares(p.b - q.b);
  }

  lemma ColorsAreApart(m: Marker, n: Marker)
    ensures FarFromMarkers(MAGENTA)
    ensures Near(m.Color(), n.Color()) <==> m == n
  {
    if m != n { FarInOneChannel(m.Color(), n.Color()); }
    FarInOneChannel(MAGENTA, RED);
    FarInOneChannel(MAGENTA, GREEN);
    FarInOneChannel(MAGENTA, BLUE);
    FarInOneChannel(MAGENTA, YELLOW);
  }

  /** Inside the pattern, exactly the pixels of a marker's square are near its colour. */
  lemma PatternMarker(m: Marker, pw: nat, ph: nat, x: int, y: int)
    requires 100 <= pw && 100 <= ph && 0 <= x < pw && 0 <= y < ph
    ensures Near(PatternAt(pw, ph, x, y), m.Color()) <==> InSquare(x, y, m.Left(pw), m.Top(ph))
  {
    ColorsAreApart(RedTl, m);
    ColorsAreApart(GreenTr, m);
    ColorsAreApart(BlueBl, m);
    ColorsAreApart(YellowBr, m);
  }

  // ---- Filled rectangles ----

  /** Half of the first even number from `x` on. */
  function HalfUp(x: int): (r: int)
    ensures x <= 2 * r <= x + 1
  {
    (x + 1) / 2
  }

  /** Half of the last even number up to `x`. */
  function HalfDown(x: int): (r: int)
    ensures x - 1 <= 2 * r <= x
  {
    x / 2
  }

  /** Half way between the first and the last even of `n` coordinates from `lo` on, to half a pixel their middle. */
  function EvenMiddle(lo: int, n: nat): (c: int)
    ensures 2 * lo + n - 2 <= 2 * c <= 2 * lo + n
  {
    HalfUp(lo) + HalfDown(lo + n - 1)
  }

  predicate EvenIn(left: int, top: int, w: nat, h: nat, x: int, y: int) {
    left <= x < left + w && top <= y < top + h && x % 2 == 0 && y % 2 == 0
  }

  lemma EvenAtLeast(lo: int, x: int)
    requires lo <= x && x % 2 == 0
    ensures 2 * HalfUp(lo) <= x
  {
  }

  lemma EvenAtMost(hi: int, x: int)
    requires x <= hi && x % 2 == 0
    ensures x <= 2 * HalfDown(hi)
  {
  }

  /** The matching samples are the even coordinates of a filled rectangle. */
  ghost predicate RectSampled(img: array2<Rgb>, color: Rgb, left: int, top: int, w: nat, h: nat)
    reads img
  {
    forall x, y :: Sampled(img, color, x, y) <==> EvenIn(left, top, w, h, x, y)
  }

  lemma CornersSampled(img: array2<Rgb>, color: Rgb, left: int, top: int, w: nat, h: nat, b: Box)
    requires 2 <= w && 2 <= h && Bounds(img, color, b) && RectSampled(img, color, left, top, w, h)
    ensures Within(b, 2 * HalfUp(left), 2 * HalfUp(top))
    ensures Within(b, 2 * HalfDown(left + w - 1), 2 * HalfDown(top + h - 1))
  {
    EvenCorners(left, top, w, h);
  }

  lemma EvenCorners(left: int, top: int, w: nat, h: nat)
    requires 2 <= w && 2 <= h
    ensures EvenIn(left, top, w, h, 2 * HalfUp(left), 2 * HalfUp(top))
    ensures EvenIn(left, top, w, h, 2 * HalfDown(left + w - 1), 2 * HalfDown(top + h - 1))
  {
  }

  lemma ColumnsHit(img: array2<Rgb>, color: Rgb, left: int, top: int, w: nat, h: nat, x: int)
    requires ColumnHit(img, color, x) && RectSampled(img, color, left, top, w, h)
    ensures 2 * HalfUp(left) <= x <= 2 * HalfDown(left + w - 1)
  {
    var y :| Sampled(img, color, x, y);
    assert EvenIn(left, top, w, h, x, y);
    EvenAtLeast(left, x);
    EvenAtMost(left + w - 1, x);
  }

  lemma RowsHit(img: array2<Rgb>, color: Rgb, left: int, top: int, w: nat, h: nat, y: int)
    requires RowHit(img, color, y) && RectSampled(img, color, left, top, w, h)
    ensures 2 * HalfUp(top) <= y <= 2 * HalfDown(top + h - 1)
  {
    var x :| Sampled(img, color, x, y);
    assert EvenIn(left, top, w, h, x, y);
    EvenAtLeast(top, y);
    EvenAtMost(top + h - 1, y);
  }

  /** The box of the even coordinates of a filled rectangle, whatever the parity of its corners. */
  lemma RectBox(img: array2<Rgb>, color: Rgb, left: int, top: int, w: nat, h: nat, b: Box)
    requires 2 <= w && 2 <= h && Bounds(img, color, b) && RectSampled(img, color, left, top, w, h)
    ensures b == Box(2 * HalfUp(left), 2 * HalfUp(top), 2 * HalfDown(left + w - 1), 2 * HalfDown(top + h - 1))
  {
    CornersSampled(img, color, left, top, w, h, b);
    ColumnsHit(img, color, left, top, w, h, b.minX);
    ColumnsHit(img, color, left, top, w, h, b.maxX);
    RowsHit(img, color, left, top, w, h, b.minY);
    RowsHit(img, color, left, top, w, h, b.maxY);
  }

  /** A filled rectangle of any size is found at its middle, to half a pixel. */
  lemma RectCenter(img: array2<Rgb>, color: Rgb, left: int, top: int, w: nat, h: nat, center: (int, int))
    requires 2 <= w && 2 <= h && Located(img, color, center) && RectSampled(img, color, left, top, w, h)
    ensures center == (EvenMiddle(left, w), EvenMiddle(top, h))
    ensures -1 <= 2 * center.0 - (2 * left + w - 1) <= 1 && -1 <= 2 * center.1 - (2 * top + h - 1) <= 1
  {
    var b :| Bounds(img, color, b) && center == CenterOf(b);
    RectBox(img, color, left, top, w, h, b);
    CenterOfRect(left, top, w, h);
  }

  lemma CenterOfRect(left: int, top: int, w: nat, h: nat)
    ensures CenterOf(Box(2 * HalfUp(left), 2 * HalfUp(top), 2 * HalfDown(left + w - 1), 2 * HalfDown(top + h - 1)))
         == (EvenMiddle(left, w), EvenMiddle(top, h))
  {
    BoxMiddle(left, w, 2 * HalfUp(left), 2 * HalfDown(left + w - 1));
    BoxMiddle(top, h, 2 * HalfUp(top), 2 * HalfDown(top + h - 1));
  }

  lemma BoxMiddle(lo: int, n: nat, first: int, last: int)
    requires first == 2 * HalfUp(lo) && last == 2 * HalfDown(lo + n - 1)
    ensures (first + last) / 2 == EvenMiddle(lo, n)
  {
  }

  lemma RectIsFound(img: array2<Rgb>, color: Rgb, left: int, top: int, w: nat, h: nat)
    requires 2 <= w && 2 <= h && RectSampled(img, color, left, top, w, h)
    ensures exists x, y :: Sampled(img, color, x, y)
  {
    assert EvenIn(left, top, w, h, 2 * HalfUp(left), 2 * HalfUp(top));
  }

  // ---- Markers shown at any size ----

  /** The application's rectangle in the screenshot, its markers `mw` by `mh` in the four corners. */
  datatype Shown = Shown(left: int, top: int, right: int, bottom: int, mw: nat, mh: nat) {
    function Left(m: Marker): int {
      if m.RedTl? || m.BlueBl? then left else right - mw
    }

    function Top(m: Marker): int {
      if m.RedTl? || m.GreenTr? then top else bottom - mh
    }

    function Center(m: Marker): (int, int) {
      (EvenMiddle(Left(m), mw), EvenMiddle(Top(m), mh))
    }
  }

  /** The samples near each marker's colour are those of its rectangle, as in a pattern shown at any scale. */
  ghost predicate Shows(img: array2<Rgb>, s: Shown)
    reads img
  {
    2 <= s.mw && 2 <= s.mh && forall m: Marker :: RectSampled(img, m.Color(), s.Left(m), s.Top(m), s.mw, s.mh)
  }

  function MarkersOf(s: Shown): Markers {
    Markers(s.Center(RedTl), s.Center(GreenTr), s.Center(BlueBl), s.Center(YellowBr))
  }

  lemma SameMarkers(a: Markers, b: Markers)
    requires forall m: Marker :: a.Of(m) == b.Of(m)
    ensures a == b
  {
    assert a.Of(RedTl) == b.Of(RedTl) && a.Of(GreenTr) == b.Of(GreenTr);
    assert a.Of(BlueBl) == b.Of(BlueBl) && a.Of(YellowBr) == b.Of(YellowBr);
  }

  lemma MarkersOfShown(s: Shown, m: Marker)
    ensures MarkersOf(s).Of(m) == s.Center(m)
  {
  }

  lemma LocatedMarkers(img: array2<Rgb>, s: Shown, markers: Markers)
    requires Shows(img, s) && AllLocated(img, markers)
    ensures markers == MarkersOf(s)
  {
    forall m: Marker ensures markers.Of(m) == MarkersOf(s).Of(m) {
      RectCenter(img, m.Color(), s.Left(m), s.Top(m), s.mw, s.mh, markers.Of(m));
      MarkersOfShown(s, m);
    }
    SameMarkers(markers, MarkersOf(s));
  }

  /** Detection of markers shown at any size never fails and finds each at the middle of its rectangle. */
  lemma ShownIsDetected(img: array2<Rgb>, s: Shown, r: Result<Markers>)
    requires Shows(img, s) && Detection(img, r)
    ensures r == Ok(MarkersOf(s))
  {
    if r.Err? {
      var m: Marker :| FirstMissing(img, m) && r.error == MarkerNotFound(m.Color());
      RectIsFound(img, m.Color(), s.Left(m), s.Top(m), s.mw, s.mh);
      assert false;
    } else {
      LocatedMarkers(img, s, r.value);
    }
  }

  lemma RoundDouble(k: int)
    ensures RoundHalf(k + k) == k
  {
  }

  lemma SameCenters(c: int)
    ensures LowSide(c, c) == c - 25 && HighSide(c, c) == c + 25
  {
    RoundDouble(c - 25);
    RoundDouble(c + 25);
  }

  lemma RectOfShown(s: Shown)
    ensures RectOf(MarkersOf(s))
         == AppRect(EvenMiddle(s.left, s.mw) - 25, EvenMiddle(s.top, s.mh) - 25,
                    EvenMiddle(s.right - s.mw, s.mw) + 25, EvenMiddle(s.bottom - s.mh, s.mh) + 25)
  {
    SameCenters(EvenMiddle(s.left, s.mw));
    SameCenters(EvenMiddle(s.top, s.mh));
    SameCenters(EvenMiddle(s.right - s.mw, s.mw));
    SameCenters(EvenMiddle(s.bottom - s.mh, s.mh));
  }

  /**
   * The transform takes every marker for 50 pixels wide: the rectangle it recovers lies inside
   * the shown one, on each side, by half of what the markers are wider, to a pixel.
   */
  lemma RecoveredInset(img: array2<Rgb>, s: Shown, markers: Result<Markers>)
    requires Shows(img, s) && Detection(img, markers)
    ensures markers.Ok?
    ensures var r := RectOf(markers.value);
      && s.mw - 52 <= 2 * (r.left - s.left) <= s.mw - 50 && s.mw - 50 <= 2 * (s.right - r.right) <= s.mw - 48
      && s.mh - 52 <= 2 * (r.top - s.top) <= s.mh - 50 && s.mh - 50 <= 2 * (s.bottom - r.bottom) <= s.mh - 48
  {
    ShownIsDetected(img, s, markers);
    RectOfShown(s);
  }

  lemma Inset(left: int, right: int, m: nat, l: int, r: int)
    requires m - 52 <= 2 * (l - left) <= m - 50 && m - 50 <= 2 * (right - r) <= m - 48
    ensures 49 - m <= r - l - (right - left) <= 51 - m
  {
  }

  /** So the displayed size comes out too small by what the markers are wider than 50, to a pixel. */
  lemma DisplayedSizeShrinks(img: array2<Rgb>, s: Shown, markers: Result<Markers>)
    requires Shows(img, s) && Detection(img, markers)
    ensures markers.Ok?
    ensures var r := RectOf(markers.value);
      && 49 - s.mw <= r.right - r.left - (s.right - s.left) <= 51 - s.mw
      && 49 - s.mh <= r.bottom - r.top - (s.bottom - s.top) <= 51 - s.mh
  {
    RecoveredInset(img, s, markers);
    var r := RectOf(markers.value);
    Inset(s.left, s.right, s.mw, r.left, r.right);
    Inset(s.top, s.bottom, s.mh, r.top, r.bottom);
  }

  // ---- The pattern pasted without scaling ----

  lemma SquareMiddle(lo: int, n: nat)
    requires n == 50
    ensures EvenMiddle(lo, n) == 2 * HalfUp(lo) + 24
  {
  }

  /** The only matching samples are those in the marker's own square. */
  lemma MarkerSamples(img: array2<Rgb>, pw: nat, ph: nat, ox: nat, oy: nat, m: Marker, x: int, y: int)
    requires Pasted(img, pw, ph, ox, oy)
    ensures Sampled(img, m.Color(), x, y) <==> EvenIn(ox + m.Left(pw), oy + m.Top(ph), 50, 50, x, y)
  {
    if ox <= x < ox + pw && oy <= y < oy + ph {
      PatternMarker(m, pw, ph, x - ox, y - oy);
    }
  }

  function PastedAt(pw: nat, ph: nat, ox: nat, oy: nat): Shown {
    Shown(ox, oy, ox + pw, oy + ph, 50, 50)
  }

  lemma MarkerCorner(pw: nat, ph: nat, ox: nat, oy: nat, m: Marker)
    ensures PastedAt(pw, ph, ox, oy).Left(m) == ox + m.Left(pw) && PastedAt(pw, ph, ox, oy).Top(m) == oy + m.Top(ph)
  {
  }

  lemma PastedIsShown(img: array2<Rgb>, pw: nat, ph: nat, ox: nat, oy: nat)
    requires Pasted(img, pw, ph, ox, oy)
    ensures Shows(img, PastedAt(pw, ph, ox, oy))
  {
    var s := PastedAt(pw, ph, ox, oy);
    forall m: Marker ensures RectSampled(img, m.Color(), s.Left(m), s.Top(m), s.mw, s.mh) {
      forall x, y ensures Sampled(img, m.Color(), x, y) <==> EvenIn(s.Left(m), s.Top(m), s.mw, s.mh, x, y) {
        MarkerSamples(img, pw, ph, ox, oy, m, x, y);
      }
    }
  }

  /** The coordinate itself if it is odd, and otherwise the one before it. */
  function OddSide(x: int): (r: int)
    ensures r % 2 == 1 && (r == x || r == x - 1)
  {
    2 * HalfUp(x) - 1
  }

  lemma OddMiddle(lo: int, n: nat)
    requires n == 50
    ensures EvenMiddle(lo, n) == OddSide(lo) + 25
  {
    SquareMiddle(lo, n);
  }

  /** Each marker is found, a pixel or none off the middle of its square. */
  lemma MarkerOfPasted(img: array2<Rgb>, pw: nat, ph: nat, ox: nat, oy: nat, m: Marker, center: (int, int))
    requires Pasted(img, pw, ph, ox, oy) && Located(img, m.Color(), center)
    ensures center == (OddSide(ox + m.Left(pw)) + 25, OddSide(oy + m.Top(ph)) + 25)
  {
    var s := PastedAt(pw, ph, ox, oy);
    PastedIsShown(img, pw, ph, ox, oy);
    RectCenter(img, m.Color(), s.Left(m), s.Top(m), s.mw, s.mh, center);
    PastedCenter(pw, ph, ox, oy, m, s);
  }

  lemma PastedCenter(pw: nat, ph: nat, ox: nat, oy: nat, m: Marker, s: Shown)
    requires s == PastedAt(pw, ph, ox, oy)
    ensures EvenMiddle(s.Left(m), s.mw) == OddSide(ox + m.Left(pw)) + 25
    ensures EvenMiddle(s.Top(m), s.mh) == OddSide(oy + m.Top(ph)) + 25
  {
    MarkerCorner(pw, ph, ox, oy, m);
    OddMiddle(ox + m.Left(pw), s.mw);
    OddMiddle(oy + m.Top(ph), s.mh);
  }

  lemma PastedSides(lo: int, hi: int, n: nat, low: int, high: int)
    requires n == 50 && low == EvenMiddle(lo, n) - 25 && high == EvenMiddle(hi - n, n) + 25
    ensures low == OddSide(lo) && high == OddSide(hi)
  {
    SquareMiddle(lo, n);
    SquareMiddle(hi - n, n);
  }

  lemma PastedRect(s: Shown, r: AppRect)
    requires s.mw == 50 && s.mh == 50
    requires r == AppRect(EvenMiddle(s.left, s.mw) - 25, EvenMiddle(s.top, s.mh) - 25,
                          EvenMiddle(s.right - s.mw, s.mw) + 25, EvenMiddle(s.bottom - s.mh, s.mh) + 25)
    ensures r == AppRect(OddSide(s.left), OddSide(s.top), OddSide(s.right), OddSide(s.bottom))
  {
    PastedSides(s.left, s.right, s.mw, r.left, r.right);
    PastedSides(s.top, s.bottom, s.mh, r.top, r.bottom);
  }

  lemma RectOfPasted(pw: nat, ph: nat, ox: nat, oy: nat)
    ensures RectOf(MarkersOf(PastedAt(pw, ph, ox, oy)))
         == AppRect(OddSide(ox), OddSide(oy), OddSide(ox + pw), OddSide(oy + ph))
  {
    var s := PastedAt(pw, ph, ox, oy);
    RectOfShown(s);
    PastedRect(s, RectOf(MarkersOf(s)));
  }

  /** Detection of a pasted pattern never fails. */
  lemma PastedIsDetected(img: array2<Rgb>, pw: nat, ph: nat, ox: nat, oy: nat, markers: Result<Markers>)
    requires Pasted(img, pw, ph, ox, oy) && Detection(img, markers)
    ensures markers == Ok(MarkersOf(PastedAt(pw, ph, ox, oy)))
  {
    PastedIsShown(img, pw, ph, ox, oy);
    ShownIsDetected(img, PastedAt(pw, ph, ox, oy), markers);
  }

  /**
   * The detector finds every marker of a pasted pattern, and the transform recovers the
   * rectangle with each side exact or one pixel short: it is exact at odd coordinates.
   */
  lemma DetectorUndoesGenerator(img: array2<Rgb>, pw: nat, ph: nat, ox: nat, oy: nat, markers: Result<Markers>)
    requires Pasted(img, pw, ph, ox, oy) && Detection(img, markers)
    ensures markers.Ok?
    ensures RectOf(markers.value) == AppRect(OddSide(ox), OddSide(oy), OddSide(ox + pw), OddSide(oy + ph))
  {
    PastedIsDetected(img, pw, ph, ox, oy, markers);
    RectOfPasted(pw, ph, ox, oy);
  }

  lemma SizeFromSides(o: nat, p: nat)
    ensures var d := OddSide(o + p) - OddSide(o); -1 <= d - p <= 1 && (d == p <==> p % 2 == 0)
  {
  }

  /** The displayed size is at most a pixel off, and right exactly when the pattern's is even. */
  lemma DisplayedSize(img: array2<Rgb>, pw: nat, ph: nat, ox: nat, oy: nat, markers: Result<Markers>)
    requires Pasted(img, pw, ph, ox, oy) && Detection(img, markers)
    ensures markers.Ok?
    ensures var r := RectOf(markers.value);
      && -1 <= r.right - r.left - pw <= 1 && (r.right - r.left == pw <==> pw % 2 == 0)
      && -1 <= r.bottom - r.top - ph <= 1 && (r.bottom - r.top == ph <==> ph % 2 == 0)
  {
    DetectorUndoesGenerator(img, pw, ph, ox, oy, markers);
    SizeFromSides(ox, pw);
    SizeFromSides(oy, ph);
  }
}
