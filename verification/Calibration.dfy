/** Screen calibration: the marker pattern, the sampled detector, and the transform between them. */
module Calibration {
  import opened Wrappers
  import opened Events
  import opened PngCodec

  datatype Error = MarkerNotFound(color: Rgb) | DivisionByZero | OutsideImage

  type Result<+T> = Outcome<T, Error>

  const MARKER_SIZE := 50
  const MAGENTA := Rgb(255, 0, 255)
  const GREEN := Rgb(0, 255, 0)
  const BLUE := Rgb(0, 0, 255)
  const YELLOW := Rgb(255, 255, 0)

  // ---- The pattern ----

  datatype Marker = RedTl | GreenTr | BlueBl | YellowBr {
    function Color(): Rgb {
      match this
      case RedTl => RED
      case GreenTr => GREEN
      case BlueBl => BLUE
      case YellowBr => YELLOW
    }

    /** The left edge in a pattern of width `pw`. */
    function Left(pw: nat): int {
      if RedTl? || BlueBl? then 0 else pw - MARKER_SIZE
    }

    function Top(ph: nat): int {
      if RedTl? || GreenTr? then 0 else ph - MARKER_SIZE
    }
  }

  predicate InSquare(x: int, y: int, left: int, top: int) {
    left <= x < left + MARKER_SIZE && top <= y < top + MARKER_SIZE
  }

  /** Later markers are drawn over earlier ones. */
  function PatternAt(width: nat, height: nat, x: int, y: int): Rgb {
    if InSquare(x, y, width - MARKER_SIZE, height - MARKER_SIZE) then YELLOW
    else if InSquare(x, y, 0, height - MARKER_SIZE) then BLUE
    else if InSquare(x, y, width - MARKER_SIZE, 0) then GREEN
    else if InSquare(x, y, 0, 0) then RED
    else MAGENTA
  }

  /** Coordinates `lo` up to `lo + n` select column or row `x` of `size`; negative ones count from the end. */
  predicate Covered(lo: int, n: nat, size: nat, x: int) {
    lo <= x < lo + n || lo <= x - size < lo + n
  }

  predicate InRange(lo: int, n: nat, size: nat) {
    0 <= lo + size && lo + n <= size
  }

  /** A rectangle that leaves the image on the right is given up in its first row. */
  predicate Painted(width: nat, height: nat, x: int, y: int, left: int, top: int, w: nat, h: nat) {
    && 0 <= left + width && Covered(left, w, width, x)
    && 0 <= top + height && Covered(top, if width < left + w && h > 0 then 1 else h, height, y)
  }

  /** Paints one row of a rectangle of an image indexed by column and row. */
  method FillRow(img: array2<Rgb>, left: int, py: int, w: nat, color: Rgb) returns (r: Result<()>)
    modifies img
    ensures r == if w == 0 || (InRange(left, w, img.Length0) && InRange(py, 1, img.Length1)) then Ok(())
                 else Err(OutsideImage)
    ensures forall x, y :: 0 <= x < img.Length0 && 0 <= y < img.Length1 ==>
      img[x, y] == if 0 <= left + img.Length0 && Covered(left, w, img.Length0, x) && Covered(py, 1, img.Length1, y)
                   then color else old(img[x, y])
  {
    for px := left to left + w
      invariant left < px ==> InRange(left, px - left, img.Length0) && InRange(py, 1, img.Length1)
      invariant forall x, y :: 0 <= x < img.Length0 && 0 <= y < img.Length1 ==>
        img[x, y] == if Covered(left, px - left, img.Length0, x) && Covered(py, 1, img.Length1, y)
                     then color else old(img[x, y])
    {
      if !InRange(px, 1, img.Length0) || !InRange(py, 1, img.Length1) { return Err(OutsideImage); }
      img[if px < 0 then px + img.Length0 else px, if py < 0 then py + img.Length1 else py] := color;
    }
    return Ok(());
  }

  /** Paints a rectangle, row by row, up to the first of its pixels outside the image. */
  method FillRect(img: array2<Rgb>, left: int, top: int, w: nat, h: nat, color: Rgb) returns (r: Result<()>)
    modifies img
    ensures r == if w == 0 || h == 0 || (InRange(left, w, img.Length0) && InRange(top, h, img.Length1)) then Ok(())
                 else Err(OutsideImage)
    ensures forall x, y :: 0 <= x < img.Length0 && 0 <= y < img.Length1 ==>
      img[x, y] == if Painted(img.Length0, img.Length1, x, y, left, top, w, h) then color else old(img[x, y])
  {
    for py := top to top + h
      invariant top < py && 0 < w ==> InRange(left, w, img.Length0) && InRange(top, py - top, img.Length1)
      invariant forall x, y :: 0 <= x < img.Length0 && 0 <= y < img.Length1 ==>
        img[x, y] == if Covered(left, w, img.Length0, x) && Covered(top, py - top, img.Length1, y)
                     then color else old(img[x, y])
    {
      r := FillRow(img, left, py, w, color);
      if r.Err? { return; }
    }
    return Ok(());
  }

  /** A pattern too small for a marker fails at the first of them. */
  method GeneratePattern(width: nat, height: nat) returns (r: Result<array2<Rgb>>)
    ensures r.Ok? <==> MARKER_SIZE <= width && MARKER_SIZE <= height
    ensures r.Err? ==> r.error == OutsideImage
    ensures r.Ok? ==> fresh(r.value) && r.value.Length0 == width && r.value.Length1 == height
    ensures r.Ok? ==>
      forall x, y :: 0 <= x < width && 0 <= y < height ==> r.value[x, y] == PatternAt(width, height, x, y)
  {
    var img := new Rgb[width, height]((x, y) => MAGENTA);
    var drawn := FillRect(img, 0, 0, MARKER_SIZE, MARKER_SIZE, RED);
    if drawn.Err? { return Err(drawn.error); }
    drawn := FillRect(img, width - MARKER_SIZE, 0, MARKER_SIZE, MARKER_SIZE, GREEN);
    drawn := FillRect(img, 0, height - MARKER_SIZE, MARKER_SIZE, MARKER_SIZE, BLUE);
    drawn := FillRect(img, width - MARKER_SIZE, height - MARKER_SIZE, MARKER_SIZE, MARKER_SIZE, YELLOW);
    return Ok(img);
  }

  // ---- The detector ----

  function Square(n: int): int {
    n * n
  }

  /** Nearer than 80 in Euclidean distance. */
  predicate Near(p: Rgb, q: Rgb) {
    Square(p.r - q.r) + Square(p.g - q.g) + Square(p.b - q.b) < 80 * 80
  }

  /** The pixels the scan looks at, every second one of every second row, that match. */
  ghost predicate Sampled(img: array2<Rgb>, target: Rgb, x: int, y: int)
    reads img
  {
    0 <= x < img.Length0 && 0 <= y < img.Length1 && x % 2 == 0 && y % 2 == 0 && Near(img[x, y], target)
  }

  datatype Box = Box(minX: int, minY: int, maxX: int, maxY: int)

  predicate Within(b: Box, x: int, y: int) {
    b.minX <= x <= b.maxX && b.minY <= y <= b.maxY
  }

  ghost predicate ColumnHit(img: array2<Rgb>, target: Rgb, x: int)
    reads img
  {
    exists y :: Sampled(img, target, x, y)
  }

  ghost predicate RowHit(img: array2<Rgb>, target: Rgb, y: int)
    reads img
  {
    exists x :: Sampled(img, target, x, y)
  }

  /** Every edge of the box touches a matching sample. */
  ghost predicate Tight(img: array2<Rgb>, target: Rgb, b: Box)
    reads img
  {
    && ColumnHit(img, target, b.minX) && ColumnHit(img, target, b.maxX)
    && RowHit(img, target, b.minY) && RowHit(img, target, b.maxY)
  }

  /** The smallest box around the matching samples. */
  ghost predicate Bounds(img: array2<Rgb>, target: Rgb, b: Box)
    reads img
  {
    Tight(img, target, b) && forall x, y :: Sampled(img, target, x, y) ==> Within(b, x, y)
  }

  function CenterOf(b: Box): (int, int) {
    ((b.minX + b.maxX) / 2, (b.minY + b.maxY) / 2)
  }

  /** The box after a matching sample. */
  function Extended(b: Box, x: int, y: int): Box {
    Box(if x < b.minX then x else b.minX, if y < b.minY then y else b.minY,
        if x > b.maxX then x else b.maxX, if y > b.maxY then y else b.maxY)
  }

  /** What is found of the samples before column `px` of row `py`; the starting box has its corners crossed. */
  ghost predicate Seen(img: array2<Rgb>, target: Rgb, py: int, px: int, found: bool, b: Box)
    reads img
  {
    && (forall x, y :: Sampled(img, target, x, y) && (y < py || (y == py && x < px)) ==> found && Within(b, x, y))
    && if found then Tight(img, target, b) else b == Box(img.Length0, img.Length1, 0, 0)
  }

  lemma TightExtends(img: array2<Rgb>, target: Rgb, px: int, py: int, found: bool, b: Box)
    requires Sampled(img, target, px, py)
    requires if found then Tight(img, target, b) else b == Box(img.Length0, img.Length1, 0, 0)
    ensures Tight(img, target, Extended(b, px, py))
  {
    assert ColumnHit(img, target, px) && RowHit(img, target, py);
  }

  lemma MatchSeen(img: array2<Rgb>, target: Rgb, py: int, px: int, found: bool, b: Box)
    requires Sampled(img, target, px, py) && Seen(img, target, py, px, found, b)
    ensures Seen(img, target, py, px + 2, true, Extended(b, px, py))
  {
    var b' := Extended(b, px, py);
    TightExtends(img, target, px, py, found, b);
    forall x, y | Sampled(img, target, x, y) && (y < py || (y == py && x < px + 2)) ensures Within(b', x, y) {
      if y == py { EvenNext(x, px); }
    }
  }

  lemma EvenNext(x: int, px: int)
    requires x % 2 == 0 && px % 2 == 0 && x < px + 2
    ensures x <= px
  {
  }

  lemma OtherSeen(img: array2<Rgb>, target: Rgb, py: int, px: int, found: bool, b: Box)
    requires px % 2 == 0 && !Sampled(img, target, px, py) && Seen(img, target, py, px, found, b)
    ensures Seen(img, target, py, px + 2, found, b)
  {
    forall x, y | Sampled(img, target, x, y) && (y < py || (y == py && x < px + 2))
      ensures y < py || (y == py && x < px)
    {
      if y == py { EvenNext(x, px); }
    }
  }

  lemma RowSeen(img: array2<Rgb>, target: Rgb, py: int, px: int, found: bool, b: Box)
    requires img.Length0 <= px && py % 2 == 0 && Seen(img, target, py, px, found, b)
    ensures Seen(img, target, py + 2, 0, found, b)
  {
    forall x, y | Sampled(img, target, x, y) && y < py + 2 ensures found && Within(b, x, y) {
      if y >= py { assert y == py; }
    }
  }

  lemma AllSeen(img: array2<Rgb>, target: Rgb, py: int, found: bool, b: Box)
    requires img.Length1 <= py && Seen(img, target, py, 0, found, b)
    ensures if found then Bounds(img, target, b) else forall x, y :: !Sampled(img, target, x, y)
  {
  }

  /** The inner loop: one row of the scan. */
  method ScanRow(img: array2<Rgb>, target: Rgb, py: int, found0: bool, b0: Box) returns (found: bool, b: Box)
    requires 0 <= py < img.Length1 && py % 2 == 0 && Seen(img, target, py, 0, found0, b0)
    ensures Seen(img, target, py + 2, 0, found, b)
  {
    found, b := found0, b0;
    var px := 0;
    while px < img.Length0
      invariant 0 <= px && px % 2 == 0
      invariant Seen(img, target, py, px, found, b)
    {
      if Near(img[px, py], target) {
        MatchSeen(img, target, py, px, found, b);
        found, b := true, Extended(b, px, py);
      } else {
        OtherSeen(img, target, py, px, found, b);
      }
      px := px + 2;
    }
    RowSeen(img, target, py, px, found, b);
  }

  /** Scans every second pixel of every second row for the box around the matching ones. */
  method FindMarkerCenter(img: array2<Rgb>, target: Rgb) returns (r: Result<(int, int)>)
    ensures r.Ok? ==> Located(img, target, r.value)
    ensures r.Err? ==> r.error == MarkerNotFound(target) && forall x, y :: !Sampled(img, target, x, y)
  {
    var found, b := false, Box(img.Length0, img.Length1, 0, 0);
    var py := 0;
    while py < img.Length1
      invariant 0 <= py && py % 2 == 0
      invariant Seen(img, target, py, 0, found, b)
    {
      found, b := ScanRow(img, target, py, found, b);
      py := py + 2;
    }
    AllSeen(img, target, py, found, b);
    return if found then Ok(CenterOf(b)) else Err(MarkerNotFound(target));
  }

  lemma BoundsAreUnique(img: array2<Rgb>, target: Rgb, b: Box, c: Box)
    requires Bounds(img, target, b) && Bounds(img, target, c)
    ensures b == c
  {
    SomeSampleOnEdges(img, target, b, c);
    SomeSampleOnEdges(img, target, c, b);
  }

  lemma SomeSampleOnEdges(img: array2<Rgb>, target: Rgb, b: Box, c: Box)
    requires Tight(img, target, b) && Bounds(img, target, c)
    ensures c.minX <= b.minX && b.maxX <= c.maxX && c.minY <= b.minY && b.maxY <= c.maxY
  {
    var y :| Sampled(img, target, b.minX, y);
    var y' :| Sampled(img, target, b.maxX, y');
    var x :| Sampled(img, target, x, b.minY);
    var x' :| Sampled(img, target, x', b.maxY);
    assert Within(c, b.minX, y) && Within(c, b.maxX, y') && Within(c, x, b.minY) && Within(c, x', b.maxY);
  }

  /** The centre found is the middle of the extreme samples, rounded down, whatever the box. */
  lemma CenterIsMiddle(img: array2<Rgb>, target: Rgb, center: (int, int), b: Box)
    requires Located(img, target, center) && Bounds(img, target, b)
    ensures b.minX + b.maxX - 1 <= 2 * center.0 <= b.minX + b.maxX
    ensures b.minY + b.maxY - 1 <= 2 * center.1 <= b.minY + b.maxY
  {
    var c :| Bounds(img, target, c) && center == CenterOf(c);
    BoundsAreUnique(img, target, b, c);
  }

  /** Along one channel the threshold is a distance of 80; 46 in every channel is near, and 47 is not. */
  lemma NearThreshold(p: Rgb, q: Rgb)
    ensures p.g == q.g && p.b == q.b ==> (Near(p, q) <==> -80 < p.r - q.r < 80)
    ensures p.r == q.r && p.b == q.b ==> (Near(p, q) <==> -80 < p.g - q.g < 80)
    ensures p.r == q.r && p.g == q.g ==> (Near(p, q) <==> -80 < p.b - q.b < 80)
    ensures -46 <= p.r - q.r <= 46 && -46 <= p.g - q.g <= 46 && -46 <= p.b - q.b <= 46 ==> Near(p, q)
    ensures p.r - q.r >= 47 && p.g - q.g >= 47 && p.b - q.b >= 47 ==> !Near(p, q)
  {
    SquareIsSmall(p.r - q.r);
    SquareIsSmall(p.g - q.g);
    SquareIsSmall(p.b - q.b);
  }

  lemma SquareIsSmall(n: int)
    ensures Square(n) < 80 * 80 <==> -80 < n < 80
    ensures 0 <= Square(n) && (n == 0 ==> Square(n) == 0)
    ensures -46 <= n <= 46 ==> Square(n) <= 2116
    ensures n >= 47 ==> Square(n) >= 2209
  {
  }

  datatype Markers = Markers(redTl: (int, int), greenTr: (int, int), blueBl: (int, int), yellowBr: (int, int)) {
    function Of(m: Marker): (int, int) {
      match m
      case RedTl => redTl
      case GreenTr => greenTr
      case BlueBl => blueBl
      case YellowBr => yellowBr
    }
  }

  /** The marker of this colour is found at `center`. */
  ghost predicate Located(img: array2<Rgb>, target: Rgb, center: (int, int))
    reads img
  {
    exists b :: Bounds(img, target, b) && center == CenterOf(b)
  }

  ghost predicate AllLocated(img: array2<Rgb>, markers: Markers)
    reads img
  {
    forall m: Marker :: Located(img, m.Color(), markers.Of(m))
  }

  /** No sample has the marker's colour. */
  ghost predicate Missing(img: array2<Rgb>, m: Marker)
    reads img
  {
    forall x, y :: !Sampled(img, m.Color(), x, y)
  }

  method FindMarker(img: array2<Rgb>, m: Marker) returns (r: Result<(int, int)>)
    ensures Finding(img, m, r)
  {
    r := FindMarkerCenter(img, m.Color());
  }

  /** What looking for a marker returns. */
  ghost predicate Finding(img: array2<Rgb>, m: Marker, r: Result<(int, int)>)
    reads img
  {
    if r.Ok? then Located(img, m.Color(), r.value) else Missing(img, m) && r.error == MarkerNotFound(m.Color())
  }

  /** What looking for all of them returns: the first one missing is the error. */
  ghost predicate Detection(img: array2<Rgb>, r: Result<Markers>)
    reads img
  {
    if r.Ok? then AllLocated(img, r.value)
    else exists m: Marker :: FirstMissing(img, m) && r.error == MarkerNotFound(m.Color())
  }

  /** The order in which the markers are looked for. */
  predicate Before(n: Marker, m: Marker) {
    match m
    case RedTl => false
    case GreenTr => n.RedTl?
    case BlueBl => n.RedTl? || n.GreenTr?
    case YellowBr => !n.YellowBr?
  }

  ghost predicate FirstMissing(img: array2<Rgb>, m: Marker)
    reads img
  {
    Missing(img, m) && forall n: Marker :: Before(n, m) ==> !Missing(img, n)
  }

  lemma FoundIsNotMissing(img: array2<Rgb>, m: Marker, r: Result<(int, int)>)
    requires r.Ok? && Finding(img, m, r)
    ensures !Missing(img, m)
  {
    var b :| Bounds(img, m.Color(), b) && r.value == CenterOf(b);
    var y :| Sampled(img, m.Color(), b.minX, y);
  }

  lemma MissingMarker(img: array2<Rgb>, m: Marker, r: Result<(int, int)>)
    requires r.Err? && Finding(img, m, r) && forall n: Marker :: Before(n, m) ==> !Missing(img, n)
    ensures Detection(img, Err(r.error))
  {
    assert FirstMissing(img, m);
  }

  lemma GreenMissing(img: array2<Rgb>, red: Result<(int, int)>, green: Result<(int, int)>)
    requires red.Ok? && green.Err? && Finding(img, RedTl, red) && Finding(img, GreenTr, green)
    ensures Detection(img, Err(green.error))
  {
    FoundIsNotMissing(img, RedTl, red);
    MissingMarker(img, GreenTr, green);
  }

  lemma BlueMissing(img: array2<Rgb>, red: Result<(int, int)>, green: Result<(int, int)>, blue: Result<(int, int)>)
    requires red.Ok? && green.Ok? && blue.Err?
    requires Finding(img, RedTl, red) && Finding(img, GreenTr, green) && Finding(img, BlueBl, blue)
    ensures Detection(img, Err(blue.error))
  {
    FoundIsNotMissing(img, RedTl, red);
    FoundIsNotMissing(img, GreenTr, green);
    MissingMarker(img, BlueBl, blue);
  }

  lemma YellowMissing(img: array2<Rgb>, red: Result<(int, int)>, green: Result<(int, int)>,
                      blue: Result<(int, int)>, yellow: Result<(int, int)>)
    requires red.Ok? && green.Ok? && blue.Ok? && yellow.Err?
    requires Finding(img, RedTl, red) && Finding(img, GreenTr, green)
    requires Finding(img, BlueBl, blue) && Finding(img, YellowBr, yellow)
    ensures Detection(img, Err(yellow.error))
  {
    FoundIsNotMissing(img, RedTl, red);
    FoundIsNotMissing(img, GreenTr, green);
    FoundIsNotMissing(img, BlueBl, blue);
    MissingMarker(img, YellowBr, yellow);
  }

  lemma AllFound(img: array2<Rgb>, red: Result<(int, int)>, green: Result<(int, int)>,
                 blue: Result<(int, int)>, yellow: Result<(int, int)>)
    requires red.Ok? && green.Ok? && blue.Ok? && yellow.Ok?
    requires Finding(img, RedTl, red) && Finding(img, GreenTr, green)
    requires Finding(img, BlueBl, blue) && Finding(img, YellowBr, yellow)
    ensures Detection(img, Ok(Markers(red.value, green.value, blue.value, yellow.value)))
  {
    var markers := Markers(red.value, green.value, blue.value, yellow.value);
    forall m: Marker ensures Located(img, m.Color(), markers.Of(m)) {
      match m
      case RedTl => assert Finding(img, RedTl, red);
      case GreenTr => assert Finding(img, GreenTr, green);
      case BlueBl => assert Finding(img, BlueBl, blue);
      case YellowBr => assert Finding(img, YellowBr, yellow);
    }
  }

  method DetectMarkers(img: array2<Rgb>) returns (r: Result<Markers>)
    ensures Detection(img, r)
  {
    var red := FindMarker(img, RedTl);
    if red.Err? {
      MissingMarker(img, RedTl, red);
      return Err(red.error);
    }
    var green := FindMarker(img, GreenTr);
    if green.Err? {
      GreenMissing(img, red, green);
      return Err(green.error);
    }
    var blue := FindMarker(img, BlueBl);
    if blue.Err? {
      BlueMissing(img, red, green, blue);
      return Err(blue.error);
    }
    var yellow := FindMarker(img, YellowBr);
    if yellow.Err? {
      YellowMissing(img, red, green, blue, yellow);
      return Err(yellow.error);
    }
    AllFound(img, red, green, blue, yellow);
    return Ok(Markers(red.value, green.value, blue.value, yellow.value));
  }

  // ---- The transform ----

  /** Rounds `n / 2` to the nearest integer, and a half to the even one. */
  function RoundHalf(n: int): (r: int)
    ensures n - 1 <= 2 * r <= n + 1
    ensures n % 2 == 0 ==> 2 * r == n
    ensures n % 2 == 1 ==> r % 2 == 0
  {
    var floor := n / 2;
    if n % 2 == 0 || floor % 2 == 0 then floor else floor + 1
  }

  datatype AppRect = AppRect(left: int, top: int, right: int, bottom: int)

  /** Half a marker before the average of two centres. */
  function LowSide(a: int, b: int): int {
    RoundHalf(a + b - MARKER_SIZE)
  }

  function HighSide(a: int, b: int): int {
    RoundHalf(a + b + MARKER_SIZE)
  }

  /** The application's rectangle, taken to reach half a marker beyond the markers' centres. */
  function RectOf(m: Markers): AppRect {
    AppRect(LowSide(m.redTl.0, m.blueBl.0), LowSide(m.redTl.1, m.greenTr.1),
            HighSide(m.greenTr.0, m.yellowBr.0), HighSide(m.blueBl.1, m.yellowBr.1))
  }

  datatype Transform = Transform(rect: AppRect, scaleX: real, scaleY: real)

  /** The scale factors before they are rounded to four places. */
  function ComputeTransform(m: Markers, patW: int, patH: int): Result<Transform> {
    if patW == 0 || patH == 0 then Err(DivisionByZero)
    else
      var r := RectOf(m);
      Ok(Transform(r, (r.right - r.left) as real / patW as real, (r.bottom - r.top) as real / patH as real))
  }

  /** Each side is the average of its two markers, 25 pixels further out, rounded to the nearest integer. */
  lemma RectAverages(m: Markers)
    ensures var r := RectOf(m);
      && -1 <= 2 * r.left - (m.redTl.0 + m.blueBl.0 - 50) <= 1
      && -1 <= 2 * r.top - (m.redTl.1 + m.greenTr.1 - 50) <= 1
      && -1 <= 2 * r.right - (m.greenTr.0 + m.yellowBr.0 + 50) <= 1
      && -1 <= 2 * r.bottom - (m.blueBl.1 + m.yellowBr.1 + 50) <= 1
  {
  }

  /** The scale is the rectangle's size over the pattern's, and there is none for an empty pattern. */
  lemma TransformScales(m: Markers, patW: int, patH: int)
    ensures ComputeTransform(m, patW, patH) == Err(DivisionByZero) <==> patW == 0 || patH == 0
    ensures ComputeTransform(m, patW, patH).Ok? ==>
      var t := ComputeTransform(m, patW, patH).value;
      && t.rect == RectOf(m)
      && t.scaleX * patW as real == (t.rect.right - t.rect.left) as real
      && t.scaleY * patH as real == (t.rect.bottom - t.rect.top) as real
  {
  }
}
