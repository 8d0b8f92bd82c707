/** Clamping a bounding box to an image, and growing it when it is too small, over the real numbers. */
module BoundingBox {
  import opened Reals
  import opened Options

  datatype Box = Box(left: real, top: real, right: real, bottom: real)

  const MIN_DIMENSION := 28.0

  function Width(b: Box): real {
    b.right - b.left
  }

  function Height(b: Box): real {
    b.bottom - b.top
  }

  /** `floor` and `ceil`. */
  function Floor(x: real): int {
    x.Floor
  }

  function Ceil(x: real): int {
    -((-x).Floor)
  }

  /** `_validate_bbox`. */
  predicate Valid(b: Box) {
    && b.left < b.right && b.top < b.bottom
    && Max(Height(b), Width(b)) / Min(Height(b), Width(b)) <= 100.0
  }

  /** Without the division: neither side is more than a hundred times the other. */
  lemma {:induction false} ValidMeans(b: Box)
    ensures Valid(b) <==>
              && b.left < b.right && b.top < b.bottom
              && Width(b) <= 100.0 * Height(b) && Height(b) <= 100.0 * Width(b)
  {
    if b.left < b.right && b.top < b.bottom {
      QuotientAtMost(Max(Height(b), Width(b)), Min(Height(b), Width(b)), 100.0);
    }
  }

  lemma {:induction false} QuotientAtMost(x: real, y: real, c: real)
    requires y > 0.0
    ensures x / y <= c <==> x <= c * y
  {
    var q := x / y;
    assert q * y == x;
    if q <= c {
      assert (c - q) * y >= 0.0;
    } else {
      assert (q - c) * y > 0.0;
    }
  }

  function Clamped(b: Box, width: nat, height: nat): Box {
    Box(Max(0.0, b.left), Max(0.0, b.top), Min(width as real, b.right), Min(height as real, b.bottom))
  }

  /** The points of a box. */
  predicate Covers(b: Box, x: real, y: real) {
    b.left <= x <= b.right && b.top <= y <= b.bottom
  }

  /** Clamping is intersecting with the image; a box inside the image stays as it is. */
  lemma {:induction false} ClampedMeans(b: Box, width: nat, height: nat)
    ensures forall x, y :: Covers(Clamped(b, width, height), x, y) <==>
                           Covers(b, x, y) && 0.0 <= x <= width as real && 0.0 <= y <= height as real
    ensures Inside(b, width, height) ==> Clamped(b, width, height) == b
  {
  }

  predicate Inside(b: Box, width: nat, height: nat) {
    0.0 <= b.left && 0.0 <= b.top && b.right <= width as real && b.bottom <= height as real
  }

  predicate Contains(outer: Box, inner: Box) {
    outer.left <= inner.left && outer.top <= inner.top && inner.right <= outer.right && inner.bottom <= outer.bottom
  }

  predicate BigEnough(b: Box) {
    Width(b) >= MIN_DIMENSION && Height(b) >= MIN_DIMENSION
  }

  // ------------------------------------------------------------------ the factor to grow by

  function Scaled(x: real, s: real): real {
    s * x
  }

  lemma {:induction false} ScaledLess(x: real, s: real, s': real)
    requires x > 0.0 && s <= s'
    ensures s * x <= s' * x
  {
  }

  lemma {:induction false} Rescale(x: real, s: real, down: real)
    ensures (s * x) * down == (s * down) * x
  {
  }

  /** Scaling down to the limit keeps the factor at least 1. */
  lemma {:induction false} ScaleDown(x: real, s: real, limit: real)
    requires 0.0 < x <= limit < s * x
    ensures var down := limit / (s * x);
            (s * down) * x == limit && s * down == limit / x && 1.0 <= limit / x < s
  {
    var down := limit / (s * x);
    assert down * (s * x) == limit;
    Rescale(x, s, down);
    QuotientIs(limit, x, s * down);
    QuotientAtMost(x, x, limit / x);
    var q := limit / x;
    assert q * x == limit;
    if q < 1.0 {
      ScaledLess(x, q, 1.0);
    }
    if s <= q {
      ScaledLess(x, s, q);
    }
  }

  /** One side is brought down to the limit of the image, and the other by the same factor. */
  method FitSide(side: real, other: real, limit: nat, ghost x: real, ghost y: real, ghost s: real)
    returns (side': real, other': real, ghost s': real)
    requires 0.0 < x <= limit as real && y > 0.0 && s >= 1.0
    requires side == Scaled(x, s) && other == Scaled(y, s)
    ensures side' == Scaled(x, s') && other' == Scaled(y, s')
    ensures s' == Min(s, limit as real / x) && s' >= 1.0
  {
    side', other', s' := side, other, s;
    QuotientAtMost(limit as real, x, s);
    if side > limit as real {
      ScaleDown(x, s, limit as real);
      var scaleDown := limit as real / side;
      Rescale(y, s, scaleDown);
      side' := limit as real;
      other' := other * scaleDown;
      s' := s * scaleDown;
    } else {
      AtMostQuotient(s, x, limit as real);
    }
  }

  lemma {:induction false} AtMostQuotient(s: real, x: real, limit: real)
    requires x > 0.0
    ensures Scaled(x, s) <= limit <==> s <= limit / x
    ensures Scaled(x, 1.0) == x
  {
    var q := limit / x;
    assert q * x == limit;
    if s <= q {
      ScaledLess(x, s, q);
    }
    if s > q {
      assert (s - q) * x > 0.0;
    }
  }

  /** The factor that makes the smaller side the minimum, unless the image is too small for that: then
      the largest factor that still fits. */
  function Factor(width: real, height: real, imageWidth: nat, imageHeight: nat): real
    requires width > 0.0 && height > 0.0
  {
    Min(Min(MIN_DIMENSION / Min(height, width), imageWidth as real / width), imageHeight as real / height)
  }

  lemma {:induction false} FactorFits(width: real, height: real, imageWidth: nat, imageHeight: nat)
    requires 0.0 < width <= imageWidth as real && 0.0 < height <= imageHeight as real
    requires width < MIN_DIMENSION || height < MIN_DIMENSION
    ensures Factor(width, height, imageWidth, imageHeight) >= 1.0
    ensures var s := Factor(width, height, imageWidth, imageHeight);
            && width <= Scaled(width, s) <= imageWidth as real && height <= Scaled(height, s) <= imageHeight as real
  {
    hide Scaled;
    var s := Factor(width, height, imageWidth, imageHeight);
    AtMostQuotient(s, width, imageWidth as real);
    AtMostQuotient(s, height, imageHeight as real);
    AtMostQuotient(1.0, width, imageWidth as real);
    AtMostQuotient(1.0, height, imageHeight as real);
    AtMostQuotient(1.0, Min(height, width), MIN_DIMENSION);
    ScaledUp(width, s);
    ScaledUp(height, s);
  }

  lemma {:induction false} ScaledUp(x: real, s: real)
    requires x > 0.0 && s >= 1.0
    ensures x <= Scaled(x, s)
  {
    ScaledLess(x, 1.0, s);
  }

  /** No other factor up to the minimum's own that fits the image is larger. */
  lemma {:induction false} FactorIsLargest(width: real, height: real, imageWidth: nat, imageHeight: nat, s: real)
    requires width > 0.0 && height > 0.0 && s <= MIN_DIMENSION / Min(height, width)
    requires Scaled(width, s) <= imageWidth as real && Scaled(height, s) <= imageHeight as real
    ensures s <= Factor(width, height, imageWidth, imageHeight)
  {
    AtMostQuotient(s, width, imageWidth as real);
    AtMostQuotient(s, height, imageHeight as real);
  }

  /** Growing keeps the aspect ratio. */
  lemma {:induction false} AspectKept(width: real, height: real, s: real)
    ensures Scaled(width, s) * height == Scaled(height, s) * width
  {
    Rescale(height, s, width);
    Rescale(width, s, height);
  }

  /** The size to grow to: both sides are scaled by the same factor. */
  method TargetSize(width: real, height: real, imageWidth: nat, imageHeight: nat)
    returns (targetWidth: real, targetHeight: real)
    requires 0.0 < width <= imageWidth as real && 0.0 < height <= imageHeight as real
    requires width < MIN_DIMENSION || height < MIN_DIMENSION
    ensures targetWidth == Scaled(width, Factor(width, height, imageWidth, imageHeight))
    ensures targetHeight == Scaled(height, Factor(width, height, imageWidth, imageHeight))
  {
    hide Scaled;
    var ratio := MIN_DIMENSION / Min(height, width);
    targetWidth, targetHeight := width * ratio, height * ratio;
    AtMostQuotient(1.0, Min(height, width), MIN_DIMENSION);
    Commute(width, ratio);
    Commute(height, ratio);
    ghost var scale := ratio;
    targetWidth, targetHeight, scale := FitSide(targetWidth, targetHeight, imageWidth, width, height, scale);
    targetHeight, targetWidth, scale := FitSide(targetHeight, targetWidth, imageHeight, height, width, scale);
  }

  lemma {:induction false} Commute(x: real, s: real)
    ensures x * s == Scaled(x, s)
  {
  }

  /** One axis of the shift: an interval around the same center that is moved into the image still
      covers the interval it grew from. */
  function Shifted(center: real, size: real, limit: real): real {
    var start := center - size / 2.0;
    var s := if start < 0.0 then 0.0 else start;
    if s + size > limit then limit - size else s
  }

  /** It keeps its center unless the image is in the way, and then it touches the edge. */
  lemma {:induction false} ShiftedCenters(center: real, size: real, limit: real)
    requires 0.0 <= size <= limit && 0.0 <= center <= limit
    ensures var s := Shifted(center, size, limit);
            && 0.0 <= s && s + size <= limit
            && (2.0 * center >= size && 2.0 * (limit - center) >= size ==> s + s + size == 2.0 * center)
            && (2.0 * center < size ==> s == 0.0)
            && (2.0 * (limit - center) < size ==> s + size == limit)
  {
  }

  lemma {:induction false} ShiftedCovers(low: real, high: real, size: real, limit: nat)
    requires 0.0 <= low < high <= limit as real && high - low <= size <= limit as real
    ensures var s := Shifted((low + high) / 2.0, size, limit as real);
            && 0.0 <= s <= low && high <= s + size <= limit as real
            && 0 <= Floor(s) && Floor(s) as real <= s && s + size <= Ceil(s + size) as real && Ceil(s + size) <= limit
  {
  }

  /** One axis of the result: the shifted interval, out to whole coordinates. */
  function Span(low: real, high: real, size: real, limit: nat): (real, real) {
    var s := Shifted((low + high) / 2.0, size, limit as real);
    (Floor(s) as real, Ceil(s + size) as real)
  }

  lemma {:induction false} SpanCovers(low: real, high: real, size: real, limit: nat)
    requires 0.0 <= low < high <= limit as real && high - low <= size <= limit as real
    ensures var (from, to) := Span(low, high, size, limit); 0.0 <= from <= low && high <= to <= limit as real
  {
    ShiftedCovers(low, high, size, limit);
  }

  /** The box that results when both sides are grown by the factor, around the same center as far as the
      image allows. */
  function Grown(b: Box, width: nat, height: nat): Box
    requires b.left < b.right && b.top < b.bottom
  {
    var s := Factor(Width(b), Height(b), width, height);
    var x := Span(b.left, b.right, Scaled(Width(b), s), width);
    var y := Span(b.top, b.bottom, Scaled(Height(b), s), height);
    Box(x.0, y.0, x.1, y.1)
  }

  lemma {:induction false} GrownCovers(b: Box, width: nat, height: nat)
    requires b.left < b.right && b.top < b.bottom && Inside(b, width, height) && !BigEnough(b)
    ensures Inside(Grown(b, width, height), width, height) && Contains(Grown(b, width, height), b)
  {
    hide Span, Factor, Scaled;
    var s := Factor(Width(b), Height(b), width, height);
    FactorFits(Width(b), Height(b), width, height);
    SpanCovers(b.left, b.right, Scaled(Width(b), s), width);
    SpanCovers(b.top, b.bottom, Scaled(Height(b), s), height);
  }

  method Grow(b: Box, imageWidth: nat, imageHeight: nat) returns (r: Box)
    requires b.left < b.right && b.top < b.bottom && Inside(b, imageWidth, imageHeight) && !BigEnough(b)
    ensures r == Grown(b, imageWidth, imageHeight)
  {
    hide Factor, Scaled, Floor, Ceil;
    var centerX, centerY := (b.left + b.right) / 2.0, (b.top + b.bottom) / 2.0;
    var targetWidth, targetHeight := TargetSize(Width(b), Height(b), imageWidth, imageHeight);
    var newLeft, newTop := centerX - targetWidth / 2.0, centerY - targetHeight / 2.0;
    if newLeft < 0.0 {
      newLeft := 0.0;
    }
    if newTop < 0.0 {
      newTop := 0.0;
    }
    if newLeft + targetWidth > imageWidth as real {
      newLeft := imageWidth as real - targetWidth;
    }
    if newTop + targetHeight > imageHeight as real {
      newTop := imageHeight as real - targetHeight;
    }
    assert newLeft == Shifted(centerX, targetWidth, imageWidth as real);
    assert newTop == Shifted(centerY, targetHeight, imageHeight as real);
    r := Box(Floor(newLeft) as real, Floor(newTop) as real,
             Ceil(newLeft + targetWidth) as real, Ceil(newTop + targetHeight) as real);
  }

  /** What the last check measures. */
  predicate WideEnough(b: Box) {
    && (Floor(b.bottom) - Floor(b.top)) as real >= MIN_DIMENSION
    && (Floor(b.right) - Floor(b.left)) as real >= MIN_DIMENSION
  }

  /** Over whole coordinates, and where the sides are long enough, it is no restriction. */
  lemma {:induction false} LongSidesAreWide(b: Box)
    requires BigEnough(b)
    ensures WideEnough(b)
  {
    assert Floor(b.bottom) as real > b.bottom - 1.0 && Floor(b.right) as real > b.right - 1.0;
    assert Floor(b.top) as real <= b.top && Floor(b.left) as real <= b.left;
  }

  lemma {:induction false} WholeSidesAreLong(b: Box, width: nat, height: nat)
    requires b.left < b.right && b.top < b.bottom
    requires WideEnough(Grown(b, width, height))
    ensures BigEnough(Grown(b, width, height))
  {
    hide Shifted, Factor, Scaled;
  }

  // ------------------------------------------------------------------ room to grow

  /** The image has room for the request grown until its smaller side is the minimum. */
  predicate Room(b: Box, width: nat, height: nat) {
    var least := Min(Height(b), Width(b));
    && MIN_DIMENSION * Width(b) <= width as real * least
    && MIN_DIMENSION * Height(b) <= height as real * least
  }

  lemma {:induction false} FactorWithRoom(b: Box, width: nat, height: nat)
    requires b.left < b.right && b.top < b.bottom && Room(b, width, height)
    ensures Factor(Width(b), Height(b), width, height) == MIN_DIMENSION / Min(Height(b), Width(b))
  {
    var least := Min(Height(b), Width(b));
    QuotientsCompare(MIN_DIMENSION, least, width as real, Width(b));
    QuotientsCompare(MIN_DIMENSION, least, height as real, Height(b));
  }

  lemma {:induction false} QuotientsCompare(x: real, y: real, x': real, y': real)
    requires y > 0.0 && y' > 0.0 && x * y' <= x' * y
    ensures x / y <= x' / y'
  {
    var q' := x' / y';
    assert q' * y' == x';
    Rescale(y', q', y);
    Cancel(x, q' * y, y');
    QuotientAtMost(x, y, q');
  }

  lemma {:induction false} Cancel(a: real, b: real, c: real)
    requires c > 0.0 && a * c <= b * c
    ensures a <= b
  {
  }

  lemma {:induction false} SpanLength(low: real, high: real, size: real, limit: nat)
    ensures var (from, to) := Span(low, high, size, limit); size <= to - from < size + 2.0
  {
  }

  /** The grown sides, up to rounding. */
  lemma {:induction false} GrownSides(b: Box, width: nat, height: nat)
    requires b.left < b.right && b.top < b.bottom
    ensures var s, g := Factor(Width(b), Height(b), width, height), Grown(b, width, height);
            && Scaled(Width(b), s) <= Width(g) < Scaled(Width(b), s) + 2.0
            && Scaled(Height(b), s) <= Height(g) < Scaled(Height(b), s) + 2.0
  {
    hide Span, Factor, Scaled;
    var s := Factor(Width(b), Height(b), width, height);
    SpanLength(b.left, b.right, Scaled(Width(b), s), width);
    SpanLength(b.top, b.bottom, Scaled(Height(b), s), height);
  }

  lemma {:induction false} ScaledToMinimum(x: real, least: real, most: real)
    requires 0.0 < least <= x
    ensures Scaled(x, MIN_DIMENSION / least) >= MIN_DIMENSION
    ensures MIN_DIMENSION * x <= most * least ==> Scaled(x, MIN_DIMENSION / least) <= most
  {
    var s := MIN_DIMENSION / least;
    assert s * least == MIN_DIMENSION;
    assert s > 0.0;
    ScaledMore(least, x, s);
    if MIN_DIMENSION * x <= most * least && s * x > most {
      assert (s * x - most) * least > 0.0;
      assert (s * x) * least == (s * least) * x;
      assert (s * x - most) * least == (s * x) * least - most * least;
    }
  }

  lemma {:induction false} ScaledMore(x: real, y: real, s: real)
    requires x <= y && s > 0.0
    ensures s * x <= s * y
  {
  }

  /** With room, a small request comes back with both sides long enough, unless rounding outwards pushes a
      box that is nearly a hundred times as long as wide past that ratio. */
  lemma {:induction false} RoomIsEnough(b: Box, width: nat, height: nat)
    requires b.left < b.right && b.top < b.bottom && Room(b, width, height)
    ensures BigEnough(Grown(b, width, height))
    ensures var least, most := Min(Height(b), Width(b)), Max(Height(b), Width(b));
            MIN_DIMENSION * most <= 2798.0 * least ==> Valid(Grown(b, width, height))
  {
    hide Factor, Scaled, Grown, Valid;
    var least, g := Min(Height(b), Width(b)), Grown(b, width, height);
    FactorWithRoom(b, width, height);
    GrownSides(b, width, height);
    ScaledToMinimum(Width(b), least, 2798.0);
    ScaledToMinimum(Height(b), least, 2798.0);
    ValidMeans(g);
  }

  // ------------------------------------------------------------------ what rounding refuses

  predicate Whole(x: real) {
    Floor(x) as real == x
  }

  /** When the smaller side is grown to 28, it begins at a whole coordinate, and so stays at 28, while the
      larger side is rounded outwards to more than 2800. */
  predicate RoundsPast(b: Box, width: nat, height: nat)
    requires b.left < b.right && b.top < b.bottom
  {
    var s := MIN_DIMENSION / Min(Height(b), Width(b));
    var x, y := (b.left + b.right) / 2.0, (b.top + b.bottom) / 2.0;
    if Height(b) <= Width(b) then
      var size := Scaled(Width(b), s);
      Past(Shifted(y, MIN_DIMENSION, height as real), Shifted(x, size, width as real), size)
    else
      var size := Scaled(Height(b), s);
      Past(Shifted(x, MIN_DIMENSION, width as real), Shifted(y, size, height as real), size)
  }

  predicate Past(short: real, long: real, size: real) {
    Whole(short) && Ceil(long + size) - Floor(long) > 2800
  }

  /** The short side comes to 28 or 29 whole coordinates. */
  lemma {:induction false} ShortSpan(start: real)
    ensures Ceil(start + MIN_DIMENSION) - Floor(start) == if Whole(start) then 28 else 29
  {
  }

  lemma {:induction false} LongSpan(start: real, size: real)
    requires MIN_DIMENSION <= size <= 2800.0
    ensures 28 <= Ceil(start + size) - Floor(start) <= 2801
  {
  }

  lemma {:induction false} SpanIs(low: real, high: real, size: real, limit: nat)
    ensures var start := Shifted((low + high) / 2.0, size, limit as real);
            var (from, to) := Span(low, high, size, limit);
            to - from == (Ceil(start + size) - Floor(start)) as real
  {
  }

  /** Along the short side, and along the long one. */
  lemma {:induction false} SidesFit(short: real, long: real, size: real, a: real, l: real)
    requires MIN_DIMENSION <= size <= 2800.0
    requires a == (Ceil(short + MIN_DIMENSION) - Floor(short)) as real
    requires l == (Ceil(long + size) - Floor(long)) as real
    ensures a <= 100.0 * l && a >= MIN_DIMENSION && l >= MIN_DIMENSION
    ensures l <= 100.0 * a <==> !Past(short, long, size)
  {
    hide Floor, Ceil, Whole;
    ShortSpan(short);
    LongSpan(long, size);
  }

  lemma {:induction false} LeastToMinimum(least: real)
    requires least > 0.0
    ensures Scaled(least, MIN_DIMENSION / least) == MIN_DIMENSION
  {
  }

  /** Where the image has room, both sides of the grown box are long enough, and it is valid exactly unless
      rounding breaks the ratio. */
  lemma {:induction false} RoomExactly(b: Box, width: nat, height: nat)
    requires Valid(b) && Room(b, width, height)
    ensures BigEnough(Grown(b, width, height))
    ensures Valid(Grown(b, width, height)) <==> !RoundsPast(b, width, height)
  {
    hide Factor, Scaled, Span, Shifted, Past, Valid;
    ValidMeans(b);
    var g, least := Grown(b, width, height), Min(Height(b), Width(b));
    var s := MIN_DIMENSION / least;
    var x, y := (b.left + b.right) / 2.0, (b.top + b.bottom) / 2.0;
    FactorWithRoom(b, width, height);
    LeastToMinimum(least);
    ScaledToMinimum(Width(b), least, 2800.0);
    ScaledToMinimum(Height(b), least, 2800.0);
    SpanIs(b.left, b.right, Scaled(Width(b), s), width);
    SpanIs(b.top, b.bottom, Scaled(Height(b), s), height);
    var startX := Shifted(x, Scaled(Width(b), s), width as real);
    var startY := Shifted(y, Scaled(Height(b), s), height as real);
    if Height(b) <= Width(b) {
      SidesFit(startY, startX, Scaled(Width(b), s), Height(g), Width(g));
    } else {
      SidesFit(startX, startY, Scaled(Height(b), s), Width(g), Height(g));
    }
    ValidMeans(g);
  }

  /** In an image with a side below the minimum no box is big enough. */
  lemma {:induction false} NothingInNarrowImage(b: Box, width: nat, height: nat)
    requires BigEnough(b) && Inside(b, width, height)
    ensures width >= 28 && height >= 28
  {
    assert width as real >= 28.0 && height as real >= 28.0;
  }

  /** `_maybe_resize_bbox`: a box that is returned lies in the image, has two sides of at least the
      minimum and contains the clamped request; a valid request that is big enough comes back clamped
      and otherwise as it is, and one that is too small comes back grown unless the result is not valid
      or still too small. Where the image has room, that is exactly when rounding breaks the ratio; in an
      image with a side below the minimum nothing is returned. */
  method MaybeResize(request: Box, imageWidth: nat, imageHeight: nat) returns (r: Option<Box>)
    ensures r.Some? ==>
              && Valid(r.value) && BigEnough(r.value)
              && Inside(r.value, imageWidth, imageHeight)
              && Contains(r.value, Clamped(request, imageWidth, imageHeight))
    ensures var c := Clamped(request, imageWidth, imageHeight);
            && (!Valid(c) ==> r == None)
            && (Valid(c) && BigEnough(c) ==> r == Some(c))
            && (Valid(c) && !BigEnough(c) ==>
                  var g := Grown(c, imageWidth, imageHeight);
                  r == if Valid(g) && BigEnough(g) then Some(g) else None)
            && (Valid(c) && !BigEnough(c) && Room(c, imageWidth, imageHeight) ==>
                  (r == None <==> RoundsPast(c, imageWidth, imageHeight)))
    ensures imageWidth < 28 || imageHeight < 28 ==> r == None
  {
    hide Grown, RoundsPast, Room;
    var left, top := Max(0.0, request.left), Max(0.0, request.top);
    var right, bottom := Min(imageWidth as real, request.right), Min(imageHeight as real, request.bottom);
    var current := Box(left, top, right, bottom);
    ghost var clamped := current;
    if !Valid(current) {
      return None;
    }
    if Height(current) < MIN_DIMENSION || Width(current) < MIN_DIMENSION {
      current := Grow(current, imageWidth, imageHeight);
      GrownCovers(clamped, imageWidth, imageHeight);
    }
    if !BigEnough(clamped) && Room(clamped, imageWidth, imageHeight) {
      RoomExactly(clamped, imageWidth, imageHeight);
    }
    LongSidesAreWideToo(current);
    if !Valid(current) {
      return None;
    }
    if !WideEnough(current) {
      return None;
    }
    if !BigEnough(clamped) {
      WholeSidesAreLong(clamped, imageWidth, imageHeight);
    }
    NothingInNarrowImage(current, imageWidth, imageHeight);
    r := Some(current);
  }

  lemma {:induction false} LongSidesAreWideToo(b: Box)
    ensures BigEnough(b) ==> WideEnough(b)
  {
    if BigEnough(b) {
      LongSidesAreWide(b);
    }
  }

  /** A valid request with room on all sides that is refused: exactly a hundred times as long as wide, and
      not at whole coordinates. */
  method RefusedByRounding() returns (r: Option<Box>)
    ensures var request := Box(2000.25, 99.5, 2100.25, 100.5);
            Valid(request) && Inside(request, 5000, 5000) && Room(request, 5000, 5000)
    ensures r == None
  {
    hide Grown, Valid, RoundsPast;
    var request := Box(2000.25, 99.5, 2100.25, 100.5);
    ValidMeans(request);
    LongIsRoundedUp(request);
    assert Clamped(request, 5000, 5000) == request;
    r := MaybeResize(request, 5000, 5000);
  }

  lemma {:induction false} LongIsRoundedUp(b: Box)
    requires b == Box(2000.25, 99.5, 2100.25, 100.5)
    ensures RoundsPast(b, 5000, 5000)
  {
    hide Past;
    assert Width(b) == 100.0 && Height(b) == 1.0 && Min(1.0, 100.0) == 1.0;
    assert MIN_DIMENSION / 1.0 == 28.0;
    assert Scaled(100.0, 28.0) == 2800.0;
    assert Shifted((2000.25 + 2100.25) / 2.0, 2800.0, 5000.0) == 650.25;
    assert Shifted((99.5 + 100.5) / 2.0, 28.0, 5000.0) == 86.0;
    PastThere();
  }

  lemma {:induction false} PastThere()
    ensures Past(86.0, 650.25, 2800.0)
  {
  }
}
