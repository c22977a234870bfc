/** The 2-D axis-aligned bounding box `AABB`. An object holds its two corners
    `Min` and `Max` as `Vec2` objects and updates them in place. The pure
    members are functions of the corner values, a `Box`, and the members that
    change the box are methods of class `AABB` specified by those functions. */
module Boxes {
  import opened Floats
  import opened Errors
  import VecBase
  import UtilsFloat
  import opened Vectors
  import opened RealFacts

  /** The corner values of a box: `lo` is `Min`, `hi` is `Max`. */
  datatype Box = Box(lo: seq<Float>, hi: seq<Float>) {
    predicate Planar() {
      |lo| == 2 && |hi| == 2
    }

    /** No corner component is NaN. */
    predicate Ordered() {
      Planar() && !VecBase.AnyNaN(lo) && !VecBase.AnyNaN(hi)
    }

    /** Not NaN anywhere, and `lo <= hi` on both axes. */
    predicate Proper() {
      Ordered() && Le(lo[0], hi[0]) && Le(lo[1], hi[1])
    }

    predicate Finite() {
      Planar() && VecBase.AllFinite(lo) && VecBase.AllFinite(hi)
    }
  }

  /** `SetEmpty`: inverted infinite corners, so that the first `AddPoint` sets both. */
  const EmptyBox: Box := Box([PosInf, PosInf], [NegInf, NegInf])

  /** `SetInfinity`: the whole plane. */
  const InfiniteBox: Box := Box([NegInf, NegInf], [PosInf, PosInf])

  predicate NoNaN(p: seq<Float>) {
    |p| == 2 && !IsNaN(p[0]) && !IsNaN(p[1])
  }

  // ---------------------------------------------------------------------------
  // Queries

  /** `Contains(Vec2 pos)`: none of the four rejecting comparisons holds. A NaN
      component fails every comparison, so it is never rejected. */
  predicate Includes(b: Box, p: seq<Float>)
    requires b.Planar() && |p| == 2
  {
    !Lt(p[0], b.lo[0]) && !Gt(p[0], b.hi[0]) && !Lt(p[1], b.lo[1]) && !Gt(p[1], b.hi[1])
  }

  /** `Contains(AABB aabb)`: the inner box's corners are not outside. */
  predicate Encloses(b: Box, inner: Box)
    requires b.Planar() && inner.Planar()
  {
    !Lt(inner.lo[0], b.lo[0]) && !Gt(inner.hi[0], b.hi[0]) &&
    !Lt(inner.lo[1], b.lo[1]) && !Gt(inner.hi[1], b.hi[1])
  }

  /** Without NaN, `Includes` is membership in the closed box. */
  lemma IncludesIsClosedBox(b: Box, p: seq<Float>)
    requires b.Ordered() && NoNaN(p)
    ensures Includes(b, p) <==> forall a :: 0 <= a < 2 ==> Le(b.lo[a], p[a]) && Le(p[a], b.hi[a])
  {
    OrderTotal(p[0], b.lo[0]);
    OrderTotal(p[0], b.hi[0]);
    OrderTotal(p[1], b.lo[1]);
    OrderTotal(p[1], b.hi[1]);
  }

  /** The all-NaN vector (`Vec2.NaN`) is inside every box. */
  lemma NaNPointIncluded(b: Box)
    requires b.Planar()
    ensures Includes(b, [NaN, NaN])
  {
  }

  /** The empty box holds no point without NaN; the infinite box holds every point. */
  lemma EmptyAndInfiniteBoxes(p: seq<Float>)
    requires |p| == 2
    ensures NoNaN(p) ==> !Includes(EmptyBox, p)
    ensures Includes(InfiniteBox, p)
  {
  }

  /** A point inside an enclosed box is inside the enclosing one. */
  lemma EnclosesTransfers(b: Box, inner: Box, p: seq<Float>)
    requires b.Ordered() && inner.Proper() && NoNaN(p)
    requires Encloses(b, inner) && Includes(inner, p)
    ensures Includes(b, p)
  {
    IncludesIsClosedBox(b, p);
    IncludesIsClosedBox(inner, p);
    OrderTotal(inner.lo[0], b.lo[0]);
    OrderTotal(inner.lo[1], b.lo[1]);
    OrderTotal(inner.hi[0], b.hi[0]);
    OrderTotal(inner.hi[1], b.hi[1]);
    LeTransitive(b.lo[0], inner.lo[0], p[0]);
    LeTransitive(b.lo[1], inner.lo[1], p[1]);
    LeTransitive(p[0], inner.hi[0], b.hi[0]);
    LeTransitive(p[1], inner.hi[1], b.hi[1]);
  }

  /** `OverlapsOnAxis(other, axis)`: the `Vec2` indexer rejects an axis other
      than 0 and 1; otherwise the closed intervals on that axis are not apart. */
  function OverlapsOnAxis(b: Box, other: Box, axis: int): (r: Result<bool>)
    requires b.Planar() && other.Planar()
    ensures r.IndexOutOfRange? <==> !(0 <= axis < 2)
  {
    if !(0 <= axis < 2) then IndexOutOfRange
    else Ok(!Lt(other.hi[axis], b.lo[axis]) && !Gt(other.lo[axis], b.hi[axis]))
  }

  predicate Overlaps(b: Box, other: Box)
    requires b.Planar() && other.Planar()
  {
    OverlapsOnAxis(b, other, 0) == Ok(true) && OverlapsOnAxis(b, other, 1) == Ok(true)
  }

  /** Overlap does not depend on the order of the boxes. */
  lemma OverlapsSymmetric(a: Box, b: Box)
    requires a.Planar() && b.Planar()
    ensures Overlaps(a, b) == Overlaps(b, a)
  {
  }

  /** Boxes sharing a point without NaN overlap; touching counts. */
  lemma CommonPointOverlaps(a: Box, b: Box, p: seq<Float>)
    requires a.Ordered() && b.Ordered() && NoNaN(p)
    requires Includes(a, p) && Includes(b, p)
    ensures Overlaps(a, b)
  {
    IncludesIsClosedBox(a, p);
    IncludesIsClosedBox(b, p);
    forall k | 0 <= k < 2
      ensures Le(b.lo[k], a.hi[k]) && Le(a.lo[k], b.hi[k])
    {
      LeTransitive(b.lo[k], p[k], a.hi[k]);
      LeTransitive(a.lo[k], p[k], b.hi[k]);
    }
    OrderTotal(b.hi[0], a.lo[0]);
    OrderTotal(b.hi[1], a.lo[1]);
    OrderTotal(b.lo[0], a.hi[0]);
    OrderTotal(b.lo[1], a.hi[1]);
  }

  /** `OverlapsExpandedPoint(pos, radius)`: the box against the square of
      half-width `radius` around `pos`. */
  predicate OverlapsExpandedPoint(b: Box, p: seq<Float>, radius: Float)
    requires b.Planar() && |p| == 2
  {
    !Lt(Add(p[0], radius), b.lo[0]) && !Gt(Sub(p[0], radius), b.hi[0]) &&
    !Lt(Add(p[1], radius), b.lo[1]) && !Gt(Sub(p[1], radius), b.hi[1])
  }

  /** With radius 0 the expanded point is the point itself. */
  lemma ExpandedPointOfRadiusZero(b: Box, p: seq<Float>)
    requires b.Planar() && |p| == 2
    ensures OverlapsExpandedPoint(b, p, Zero) == Includes(b, p)
  {
    AddZero(p[0]);
    AddZero(p[1]);
  }

  /** Adding or subtracting zero changes no value, special values included. */
  lemma AddZero(x: Float)
    ensures Add(x, Zero) == x && Sub(x, Zero) == x
  {
  }

  // ---------------------------------------------------------------------------
  // Distances

  /** The squared excess of `x` beyond `[lo, hi]`, added to `d` (one axis of
      `PointDistanceSquared`). */
  function AxisExcess(d: Float, x: Float, lo: Float, hi: Float): Float {
    if Lt(x, lo) then Add(d, UtilsFloat.Sqr(Sub(lo, x)))
    else if Gt(x, hi) then Add(d, UtilsFloat.Sqr(Sub(x, hi)))
    else d
  }

  /** `PointDistanceSquared(pos)`: the squared distance to the nearest point of
      the box, accumulated axis by axis from 0. */
  function PointDistanceSquared(b: Box, p: seq<Float>): (r: Float)
    requires b.Planar() && |p| == 2
    ensures !Lt(r, Zero)
    ensures Includes(b, p) ==> r == Zero
  {
    var d0 := AxisExcess(Zero, p[0], b.lo[0], b.hi[0]);
    AxisExcessNotNegative(Zero, p[0], b.lo[0], b.hi[0]);
    AxisExcessNotNegative(d0, p[1], b.lo[1], b.hi[1]);
    AxisExcess(d0, p[1], b.lo[1], b.hi[1])
  }

  lemma AxisExcessNotNegative(d: Float, x: Float, lo: Float, hi: Float)
    requires !Lt(d, Zero)
    ensures !Lt(AxisExcess(d, x, lo, hi), Zero)
  {
    if Lt(x, lo) {
      AddNotNegative(d, UtilsFloat.Sqr(Sub(lo, x)));
    } else if Gt(x, hi) {
      AddNotNegative(d, UtilsFloat.Sqr(Sub(x, hi)));
    }
  }

  /** For finite values, the distance is zero only for a point inside the box. */
  lemma PointDistanceZeroOnlyInside(b: Box, p: seq<Float>)
    requires b.Finite() && |p| == 2 && VecBase.AllFinite(p)
    ensures PointDistanceSquared(b, p) == Zero <==> Includes(b, p)
  {
    assert IsFinite(p[0]) && IsFinite(p[1]);
    assert IsFinite(b.lo[0]) && IsFinite(b.lo[1]) && IsFinite(b.hi[0]) && IsFinite(b.hi[1]);
    var d0 := AxisExcess(Zero, p[0], b.lo[0], b.hi[0]);
    AxisExcessPositive(Zero, p[0], b.lo[0], b.hi[0]);
    AxisExcessNotNegative(Zero, p[0], b.lo[0], b.hi[0]);
    AxisExcessPositive(d0, p[1], b.lo[1], b.hi[1]);
  }

  /** A finite value outside the interval adds a positive amount. */
  lemma AxisExcessPositive(d: Float, x: Float, lo: Float, hi: Float)
    requires IsFinite(d) && IsFinite(x) && IsFinite(lo) && IsFinite(hi) && !Lt(d, Zero)
    ensures IsFinite(AxisExcess(d, x, lo, hi))
    ensures (Lt(x, lo) || Gt(x, hi)) ==> Gt(AxisExcess(d, x, lo, hi), Zero)
    ensures !(Lt(x, lo) || Gt(x, hi)) ==> AxisExcess(d, x, lo, hi) == d
  {
    if Lt(x, lo) {
      SqrPositive(Sub(lo, x));
    } else if Gt(x, hi) {
      SqrPositive(Sub(x, hi));
    }
  }

  lemma SqrPositive(x: Float)
    requires IsFinite(x) && x.r > 0.0
    ensures IsFinite(UtilsFloat.Sqr(x)) && Gt(UtilsFloat.Sqr(x), Zero)
  {
    var s := UtilsFloat.Sqr(x);
    assert s == Fin(x.r * x.r);
    ProductPositive(x.r, x.r, s.r);
  }

  /** The nearer face's squared distance (one axis of the inside case of
      `PointDistanceSquaredSigned`). */
  function NearerFace(x: Float, lo: Float, hi: Float): (r: Float)
    ensures !Lt(r, Zero)
  {
    var distMin, distMax := Sub(x, lo), Sub(hi, x);
    if Lt(distMin, distMax) then UtilsFloat.Sqr(distMin) else UtilsFloat.Sqr(distMax)
  }

  /** `PointDistanceSquaredSigned(pos)`: outside, the squared distance; inside,
      minus the sum over the axes of the squared distance to the nearer face. */
  function PointDistanceSquaredSigned(b: Box, p: seq<Float>): (r: Float)
    requires b.Planar() && |p| == 2
    ensures !Includes(b, p) ==> r == PointDistanceSquared(b, p) && !Lt(r, Zero)
    ensures Includes(b, p) ==> !Gt(r, Zero)
  {
    if Includes(b, p) then
      var d0 := Sub(Zero, NearerFace(p[0], b.lo[0], b.hi[0]));
      SubNotPositive(Zero, NearerFace(p[0], b.lo[0], b.hi[0]));
      SubNotPositive(d0, NearerFace(p[1], b.lo[1], b.hi[1]));
      Sub(d0, NearerFace(p[1], b.lo[1], b.hi[1]))
    else
      PointDistanceSquared(b, p)
  }

  lemma SubNotPositive(x: Float, y: Float)
    requires !Gt(x, Zero) && !Lt(y, Zero)
    ensures !Gt(Sub(x, y), Zero)
  {
  }

  /** Inside a finite box, the signed distance is minus the sum of the squared
      distances to the nearer faces, which are the smaller of the two per axis. */
  lemma SignedDistanceInside(b: Box, p: seq<Float>)
    requires b.Finite() && |p| == 2 && VecBase.AllFinite(p) && Includes(b, p)
    ensures IsFinite(PointDistanceSquaredSigned(b, p))
    ensures PointDistanceSquaredSigned(b, p).r
      == -(NearerFace(p[0], b.lo[0], b.hi[0]).r + NearerFace(p[1], b.lo[1], b.hi[1]).r)
    ensures forall a :: 0 <= a < 2 ==>
      Le(NearerFace(p[a], b.lo[a], b.hi[a]), UtilsFloat.Sqr(Sub(p[a], b.lo[a]))) &&
      Le(NearerFace(p[a], b.lo[a], b.hi[a]), UtilsFloat.Sqr(Sub(b.hi[a], p[a])))
  {
    assert IsFinite(p[0]) && IsFinite(p[1]);
    assert IsFinite(b.lo[0]) && IsFinite(b.lo[1]) && IsFinite(b.hi[0]) && IsFinite(b.hi[1]);
    var n0, n1 := NearerFace(p[0], b.lo[0], b.hi[0]), NearerFace(p[1], b.lo[1], b.hi[1]);
    assert IsFinite(n0) && IsFinite(n1);
    assert PointDistanceSquaredSigned(b, p) == Sub(Sub(Zero, n0), n1);
    forall a | 0 <= a < 2
      ensures Le(NearerFace(p[a], b.lo[a], b.hi[a]), UtilsFloat.Sqr(Sub(p[a], b.lo[a])))
      ensures Le(NearerFace(p[a], b.lo[a], b.hi[a]), UtilsFloat.Sqr(Sub(b.hi[a], p[a])))
    {
      NearerFaceIsSmaller(p[a], b.lo[a], b.hi[a]);
    }
  }

  /** Between the faces, the nearer distance has the smaller square. */
  lemma NearerFaceIsSmaller(x: Float, lo: Float, hi: Float)
    requires IsFinite(x) && IsFinite(lo) && IsFinite(hi) && Le(lo, x) && Le(x, hi)
    ensures Le(NearerFace(x, lo, hi), UtilsFloat.Sqr(Sub(x, lo)))
    ensures Le(NearerFace(x, lo, hi), UtilsFloat.Sqr(Sub(hi, x)))
  {
    var u, v := x.r - lo.r, hi.r - x.r;
    assert Sub(x, lo) == Fin(u) && Sub(hi, x) == Fin(v);
    if u < v {
      SquareMonotone(u, v);
    } else {
      SquareMonotone(v, u);
    }
  }

  lemma SquareMonotone(u: real, v: real)
    requires 0.0 <= u <= v
    ensures u * u <= v * v
  {
    assert u * u <= u * v;
    assert u * v <= v * v;
  }

  // ---------------------------------------------------------------------------
  // Growing the box

  /** The new minimum of `AddPoint`: `x` when it is below `m`. */
  function Lower(m: Float, x: Float): (r: Float)
    ensures r == m || r == x
    ensures !Lt(m, r) && !Lt(x, r)
  {
    if Lt(x, m) then x else m
  }

  /** The new maximum of `AddPoint`: `x` when it is above `m`. */
  function Upper(m: Float, x: Float): (r: Float)
    ensures r == m || r == x
    ensures !Gt(m, r) && !Gt(x, r)
  {
    if Gt(x, m) then x else m
  }

  /** `AddPoint(pos)`: each corner component moves out to `p` where `p` lies beyond it. */
  function AddedPoint(b: Box, p: seq<Float>): (r: Box)
    requires b.Planar() && |p| == 2
    ensures r.Planar()
  {
    Box([Lower(b.lo[0], p[0]), Lower(b.lo[1], p[1])], [Upper(b.hi[0], p[0]), Upper(b.hi[1], p[1])])
  }

  /** After `AddPoint` the box holds the point and everything it held before. */
  lemma AddedPointGrows(b: Box, p: seq<Float>)
    requires b.Planar() && |p| == 2
    ensures Includes(AddedPoint(b, p), p)
    ensures Encloses(AddedPoint(b, p), b)
  {
  }

  /** `AddPoint` grows the box no further than needed: any box without NaN that
      holds the point and the old box holds the new one. */
  lemma AddedPointIsSmallest(b: Box, p: seq<Float>, c: Box)
    requires b.Planar() && c.Ordered() && NoNaN(p)
    requires Includes(c, p) && Encloses(c, b)
    ensures Encloses(c, AddedPoint(b, p))
  {
  }

  /** Starting from `SetEmpty`, the first `AddPoint` makes the box the point. */
  lemma FirstPointOfEmptyBox(p: seq<Float>)
    requires NoNaN(p)
    ensures AddedPoint(EmptyBox, p) == Box(p, p)
  {
    assert AddedPoint(EmptyBox, p).lo == p;
    assert AddedPoint(EmptyBox, p).hi == p;
  }

  /** `AddAABB(other)` on separate objects: its two corners added as points. */
  function AddedBox(b: Box, other: Box): (r: Box)
    requires b.Planar() && other.Planar()
    ensures r.Planar()
  {
    AddedPoint(AddedPoint(b, other.lo), other.hi)
  }

  // ---------------------------------------------------------------------------
  // Size and centre

  /** The `Size` property: `Max - Min`. */
  function Size(b: Box): (r: seq<Float>)
    requires b.Planar()
    ensures |r| == 2
  {
    VecBase.Minus(b.hi, b.lo)
  }

  /** `Centroid()`: `(Min + Max) * 0.5`. */
  function Centroid(b: Box): (r: seq<Float>)
    requires b.Planar()
    ensures |r| == 2
  {
    VecBase.Times(VecBase.Plus(b.lo, b.hi), Half)
  }

  /** `Centroid(axis)`: the same value on one axis; the indexer rejects any other axis. */
  function CentroidAxis(b: Box, axis: int): (r: Result<Float>)
    requires b.Planar()
    ensures r.IndexOutOfRange? <==> !(0 <= axis < 2)
    ensures r.Ok? ==> r.value == Centroid(b)[axis]
  {
    if !(0 <= axis < 2) then IndexOutOfRange
    else Ok(Mul(Add(b.lo[axis], b.hi[axis]), Half))
  }

  /** A finite box without inverted axes holds its centre. */
  lemma CentroidInside(b: Box)
    requires b.Finite() && b.Proper()
    ensures Includes(b, Centroid(b))
  {
    assert IsFinite(b.lo[0]) && IsFinite(b.lo[1]) && IsFinite(b.hi[0]) && IsFinite(b.hi[1]);
  }

  // ---------------------------------------------------------------------------
  // Extrusion, inflation, scaling, translation

  /** `ExtrudeAxis(offset, axis)`: `Min[axis] -= offset` and `Max[axis] += offset`. */
  function ExtrudedAxis(b: Box, offset: Float, axis: int): (r: Box)
    requires b.Planar() && 0 <= axis < 2
    ensures r.Planar()
    ensures r.lo[1 - axis] == b.lo[1 - axis] && r.hi[1 - axis] == b.hi[1 - axis]
  {
    Box(b.lo[axis := Sub(b.lo[axis], offset)], b.hi[axis := Add(b.hi[axis], offset)])
  }

  /** `Extrude(offset_x, offset_y)` and, with equal offsets, `Extrude(offset)`. */
  function Extruded(b: Box, offsetX: Float, offsetY: Float): (r: Box)
    requires b.Planar()
    ensures r.Planar()
  {
    ExtrudedAxis(ExtrudedAxis(b, offsetX, 0), offsetY, 1)
  }

  /** `Extrude(Vec2 offset)`: `Min - offset` and `Max + offset`. */
  function ExtrudedBy(b: Box, offset: seq<Float>): (r: Box)
    requires b.Planar() && |offset| == 2
    ensures r.Planar()
  {
    Box(VecBase.Minus(b.lo, offset), VecBase.Plus(b.hi, offset))
  }

  /** The vector overload and the two-float overload of `Extrude` agree. */
  lemma ExtrudeOverloadsAgree(b: Box, offset: seq<Float>)
    requires b.Planar() && |offset| == 2
    ensures ExtrudedBy(b, offset) == Extruded(b, offset[0], offset[1])
  {
    var l, r := ExtrudedBy(b, offset), Extruded(b, offset[0], offset[1]);
    assert l.lo[0] == r.lo[0] && l.lo[1] == r.lo[1];
    assert l.hi[0] == r.hi[0] && l.hi[1] == r.hi[1];
  }

  /** A finite extrusion by a non-negative offset keeps the old box inside and
      lengthens each axis by twice its offset. */
  lemma ExtrusionGrows(b: Box, offsetX: Float, offsetY: Float)
    requires b.Finite() && IsFinite(offsetX) && IsFinite(offsetY)
    requires offsetX.r >= 0.0 && offsetY.r >= 0.0
    ensures Extruded(b, offsetX, offsetY).Finite()
    ensures Encloses(Extruded(b, offsetX, offsetY), b)
    ensures Size(Extruded(b, offsetX, offsetY))[0].r == Size(b)[0].r + 2.0 * offsetX.r
    ensures Size(Extruded(b, offsetX, offsetY))[1].r == Size(b)[1].r + 2.0 * offsetY.r
  {
    assert IsFinite(b.lo[0]) && IsFinite(b.lo[1]) && IsFinite(b.hi[0]) && IsFinite(b.hi[1]);
  }

  /** The offset `InflateAxis` extrudes by: half the axis length times `fraction`. */
  function InflationOffset(b: Box, fraction: Float, axis: int): Float
    requires b.Planar() && 0 <= axis < 2
  {
    Mul(Mul(Sub(b.hi[axis], b.lo[axis]), Half), fraction)
  }

  /** `InflateAxis(fraction, axis)`. */
  function InflatedAxis(b: Box, fraction: Float, axis: int): (r: Box)
    requires b.Planar() && 0 <= axis < 2
    ensures r.Planar()
  {
    ExtrudedAxis(b, InflationOffset(b, fraction, axis), axis)
  }

  /** `Inflate(fraction_x, fraction_y)`; `Inflate(fraction)` and
      `Inflate(Vec2 fraction)` pass their values on to it. */
  function Inflated(b: Box, fractionX: Float, fractionY: Float): (r: Box)
    requires b.Planar()
    ensures r.Planar()
  {
    InflatedAxis(InflatedAxis(b, fractionX, 0), fractionY, 1)
  }

  /** Inflation keeps the centre of a finite box and multiplies each axis
      length by `fraction + 1`. */
  lemma InflationAroundCentre(b: Box, fractionX: Float, fractionY: Float)
    requires b.Finite() && IsFinite(fractionX) && IsFinite(fractionY)
    ensures Inflated(b, fractionX, fractionY).Finite()
    ensures Centroid(Inflated(b, fractionX, fractionY)) == Centroid(b)
    ensures Size(Inflated(b, fractionX, fractionY))[0].r == Size(b)[0].r * (fractionX.r + 1.0)
    ensures Size(Inflated(b, fractionX, fractionY))[1].r == Size(b)[1].r * (fractionY.r + 1.0)
  {
    assert IsFinite(b.lo[0]) && IsFinite(b.lo[1]) && IsFinite(b.hi[0]) && IsFinite(b.hi[1]);
    var r := Inflated(b, fractionX, fractionY);
    InflatedAxisReal(b.lo[0].r, b.hi[0].r, fractionX.r, r.lo[0].r, r.hi[0].r);
    InflatedAxisReal(b.lo[1].r, b.hi[1].r, fractionY.r, r.lo[1].r, r.hi[1].r);
    assert Centroid(r)[0] == Centroid(b)[0] && Centroid(r)[1] == Centroid(b)[1];
  }

  lemma InflatedAxisReal(lo: real, hi: real, f: real, lo': real, hi': real)
    requires lo' == lo - (hi - lo) * 0.5 * f && hi' == hi + (hi - lo) * 0.5 * f
    ensures lo' + hi' == lo + hi
    ensures hi' - lo' == (hi - lo) * (f + 1.0)
  {
  }

  /** `ScaleAxis(scale_factor, axis)`: both corner components multiplied. */
  function ScaledAxis(b: Box, factor: Float, axis: int): (r: Box)
    requires b.Planar() && 0 <= axis < 2
    ensures r.Planar()
  {
    Box(b.lo[axis := Mul(b.lo[axis], factor)], b.hi[axis := Mul(b.hi[axis], factor)])
  }

  /** `Scale(scale_factor_x, scale_factor_y)` and, with equal factors, `Scale(scale_factor)`. */
  function Scaled(b: Box, factorX: Float, factorY: Float): (r: Box)
    requires b.Planar()
    ensures r.Planar()
  {
    ScaledAxis(ScaledAxis(b, factorX, 0), factorY, 1)
  }

  /** Scaling a finite box multiplies each axis length by its factor. */
  lemma ScalingMultipliesSize(b: Box, factorX: Float, factorY: Float)
    requires b.Finite() && IsFinite(factorX) && IsFinite(factorY)
    ensures Scaled(b, factorX, factorY).Finite()
    ensures Size(Scaled(b, factorX, factorY))[0].r == Size(b)[0].r * factorX.r
    ensures Size(Scaled(b, factorX, factorY))[1].r == Size(b)[1].r * factorY.r
  {
    assert IsFinite(b.lo[0]) && IsFinite(b.lo[1]) && IsFinite(b.hi[0]) && IsFinite(b.hi[1]);
    var r := Scaled(b, factorX, factorY);
    ScaledAxisReal(b.lo[0].r, b.hi[0].r, factorX.r, r.lo[0].r, r.hi[0].r);
    ScaledAxisReal(b.lo[1].r, b.hi[1].r, factorY.r, r.lo[1].r, r.hi[1].r);
  }

  lemma ScaledAxisReal(lo: real, hi: real, s: real, lo': real, hi': real)
    requires lo' == lo * s && hi' == hi * s
    ensures hi' - lo' == (hi - lo) * s
  {
  }

  /** As the comments of `Inflate` say: for a finite box centred on the origin,
      inflating by `fraction` is scaling by `fraction + 1`. */
  lemma InflationIsScalingAtOrigin(b: Box, fractionX: Float, fractionY: Float)
    requires b.Finite() && IsFinite(fractionX) && IsFinite(fractionY)
    requires b.lo[0].r == -b.hi[0].r && b.lo[1].r == -b.hi[1].r
    ensures Inflated(b, fractionX, fractionY) == Scaled(b, Fin(fractionX.r + 1.0), Fin(fractionY.r + 1.0))
  {
    assert IsFinite(b.lo[0]) && IsFinite(b.lo[1]) && IsFinite(b.hi[0]) && IsFinite(b.hi[1]);
    var l, r := Inflated(b, fractionX, fractionY), Scaled(b, Fin(fractionX.r + 1.0), Fin(fractionY.r + 1.0));
    CentredAxisReal(b.hi[0].r, fractionX.r, l.lo[0].r, l.hi[0].r, r.lo[0].r, r.hi[0].r);
    CentredAxisReal(b.hi[1].r, fractionY.r, l.lo[1].r, l.hi[1].r, r.lo[1].r, r.hi[1].r);
    assert l.lo[0] == r.lo[0] && l.lo[1] == r.lo[1];
    assert l.hi[0] == r.hi[0] && l.hi[1] == r.hi[1];
  }

  lemma CentredAxisReal(h: real, f: real, lo: real, hi: real, lo': real, hi': real)
    requires lo == -h - (h - -h) * 0.5 * f && hi == h + (h - -h) * 0.5 * f
    requires lo' == -h * (f + 1.0) && hi' == h * (f + 1.0)
    ensures lo == lo' && hi == hi'
  {
  }

  /** `Scale(Vec2 scale_factor)` as written: it calls `Inflate` with the factors. */
  function ScaledByAsWritten(b: Box, factor: seq<Float>): (r: Box)
    requires b.Planar() && |factor| == 2
    ensures r.Planar()
  {
    Inflated(b, factor[0], factor[1])
  }

  /** `Scale(Vec2 scale_factor)` as its comment describes it: the factors applied as in `Scale(x, y)`. */
  function ScaledBy(b: Box, factor: seq<Float>): (r: Box)
    requires b.Planar() && |factor| == 2
    ensures r.Planar()
  {
    Scaled(b, factor[0], factor[1])
  }

  /** Scaling [1,3] x [1,3] by (2, 2) should double the size to (4, 4); the
      code as written inflates it to [-1,5] x [-1,5] instead. */
  lemma ScaleByVectorInflates()
    ensures var b := Box([Fin(1.0), Fin(1.0)], [Fin(3.0), Fin(3.0)]);
      ScaledByAsWritten(b, [Fin(2.0), Fin(2.0)]) == Box([Fin(-1.0), Fin(-1.0)], [Fin(5.0), Fin(5.0)]) &&
      Size(ScaledByAsWritten(b, [Fin(2.0), Fin(2.0)])) == [Fin(6.0), Fin(6.0)] &&
      Size(ScaledBy(b, [Fin(2.0), Fin(2.0)])) == [Fin(4.0), Fin(4.0)]
  {
    var b, two := Box([Fin(1.0), Fin(1.0)], [Fin(3.0), Fin(3.0)]), Fin(2.0);
    assert InflationOffset(b, two, 0) == two;
    var b1 := InflatedAxis(b, two, 0);
    assert b1 == Box([Fin(-1.0), Fin(1.0)], [Fin(5.0), Fin(3.0)]);
    assert InflationOffset(b1, two, 1) == two;
    var w := InflatedAxis(b1, two, 1);
    assert w == Box([Fin(-1.0), Fin(-1.0)], [Fin(5.0), Fin(5.0)]);
    assert Size(w)[0] == Fin(6.0) && Size(w)[1] == Fin(6.0);
    var c := ScaledBy(b, [two, two]);
    assert c.lo == [two, two] && c.hi == [Fin(6.0), Fin(6.0)];
    assert Size(c)[0] == Fin(4.0) && Size(c)[1] == Fin(4.0);
  }

  /** The corrected `Scale(Vec2)` multiplies each axis length of a finite box by its factor. */
  lemma ScaledByMultipliesSize(b: Box, factor: seq<Float>)
    requires b.Finite() && |factor| == 2 && IsFinite(factor[0]) && IsFinite(factor[1])
    ensures ScaledBy(b, factor).Finite()
    ensures Size(ScaledBy(b, factor))[0].r == Size(b)[0].r * factor[0].r
    ensures Size(ScaledBy(b, factor))[1].r == Size(b)[1].r * factor[1].r
  {
    ScalingMultipliesSize(b, factor[0], factor[1]);
  }

  /** `TranslateAxis(offset, axis)`: both corner components shifted. */
  function TranslatedAxis(b: Box, offset: Float, axis: int): (r: Box)
    requires b.Planar() && 0 <= axis < 2
    ensures r.Planar()
  {
    Box(b.lo[axis := Add(b.lo[axis], offset)], b.hi[axis := Add(b.hi[axis], offset)])
  }

  /** `Translate(Vec2 offset)`: the two axes shifted one after the other. */
  function Translated(b: Box, offset: seq<Float>): (r: Box)
    requires b.Planar() && |offset| == 2
    ensures r.Planar()
  {
    TranslatedAxis(TranslatedAxis(b, offset[0], 0), offset[1], 1)
  }

  /** A finite translation keeps the size, moves the centre by the offset, and
      moves exactly the points shifted by it into the box. */
  lemma TranslationMovesRigidly(b: Box, offset: seq<Float>, p: seq<Float>)
    requires b.Finite() && |offset| == 2 && VecBase.AllFinite(offset)
    requires |p| == 2 && VecBase.AllFinite(p)
    ensures Translated(b, offset).Finite()
    ensures Size(Translated(b, offset)) == Size(b)
    ensures Centroid(Translated(b, offset)) == VecBase.Plus(Centroid(b), offset)
    ensures Includes(Translated(b, offset), VecBase.Plus(p, offset)) <==> Includes(b, p)
  {
    assert IsFinite(b.lo[0]) && IsFinite(b.lo[1]) && IsFinite(b.hi[0]) && IsFinite(b.hi[1]);
    assert IsFinite(offset[0]) && IsFinite(offset[1]) && IsFinite(p[0]) && IsFinite(p[1]);
    var t := Translated(b, offset);
    assert Size(t)[0] == Size(b)[0] && Size(t)[1] == Size(b)[1];
    var c, c' := Centroid(t), VecBase.Plus(Centroid(b), offset);
    assert c[0] == c'[0] && c[1] == c'[1];
  }

  // ---------------------------------------------------------------------------
  // Boolean union and intersection

  /** `operator +` as written: the minimum corner takes the smaller values, but
      the maximum corner is assigned `bbA.Max` back to itself. */
  function UnionAsWritten(a: Box, b: Box): (r: Box)
    requires a.Planar() && b.Planar()
    ensures r.Planar()
  {
    Box([Lower(a.lo[0], b.lo[0]), Lower(a.lo[1], b.lo[1])], a.hi)
  }

  /** `operator +` as intended: the smallest box holding both. */
  function Union(a: Box, b: Box): (r: Box)
    requires a.Planar() && b.Planar()
    ensures r.Planar()
    ensures Encloses(r, a) && Encloses(r, b)
  {
    Box([Lower(a.lo[0], b.lo[0]), Lower(a.lo[1], b.lo[1])],
        [Upper(a.hi[0], b.hi[0]), Upper(a.hi[1], b.hi[1])])
  }

  /** Any box without NaN that holds both boxes holds their union. */
  lemma UnionIsSmallest(a: Box, b: Box, c: Box)
    requires a.Planar() && b.Planar() && c.Ordered()
    requires Encloses(c, a) && Encloses(c, b)
    ensures Encloses(c, Union(a, b))
  {
  }

  /** [0,1]^2 + [0,2]^2 as written is [0,1]^2, which does not hold [0,2]^2. */
  lemma UnionAsWrittenLosesMaximum()
    ensures var a, b := Box([Zero, Zero], [One, One]), Box([Zero, Zero], [Fin(2.0), Fin(2.0)]);
      UnionAsWritten(a, b) == a && !Encloses(UnionAsWritten(a, b), b)
  {
    var a, b := Box([Zero, Zero], [One, One]), Box([Zero, Zero], [Fin(2.0), Fin(2.0)]);
    assert UnionAsWritten(a, b).lo == a.lo;
  }

  /** Adding a box whose corners are in order, with `AddAABB`, is the union. */
  lemma AddedBoxIsUnion(b: Box, other: Box)
    requires b.Ordered() && other.Proper()
    ensures AddedBox(b, other) == Union(b, other)
  {
    var l, r := AddedBox(b, other), Union(b, other);
    assert l.lo[0] == r.lo[0] && l.lo[1] == r.lo[1];
    assert l.hi[0] == r.hi[0] && l.hi[1] == r.hi[1];
  }

  /** `operator *`: the larger minimum and the smaller maximum on each axis. */
  function Intersection(a: Box, b: Box): (r: Box)
    requires a.Planar() && b.Planar()
    ensures r.Planar()
  {
    Box([Upper(a.lo[0], b.lo[0]), Upper(a.lo[1], b.lo[1])],
        [Lower(a.hi[0], b.hi[0]), Lower(a.hi[1], b.hi[1])])
  }

  /** Without NaN, a point is in the intersection exactly when it is in both boxes. */
  lemma IntersectionHoldsCommonPoints(a: Box, b: Box, p: seq<Float>)
    requires a.Ordered() && b.Ordered() && NoNaN(p)
    ensures Includes(Intersection(a, b), p) <==> Includes(a, p) && Includes(b, p)
  {
    OrderTotal(a.lo[0], b.lo[0]);
    OrderTotal(a.lo[1], b.lo[1]);
    OrderTotal(a.hi[0], b.hi[0]);
    OrderTotal(a.hi[1], b.hi[1]);
  }

  /** Two boxes with their corners in order overlap exactly when their
      intersection has its corners in order. */
  lemma OverlapsIffIntersectionProper(a: Box, b: Box)
    requires a.Proper() && b.Proper()
    ensures Overlaps(a, b) <==> Intersection(a, b).Proper()
  {
    assert !IsNaN(a.lo[0]) && !IsNaN(a.lo[1]) && !IsNaN(a.hi[0]) && !IsNaN(a.hi[1]);
    assert !IsNaN(b.lo[0]) && !IsNaN(b.lo[1]) && !IsNaN(b.hi[0]) && !IsNaN(b.hi[1]);
    AxisOverlapIffOrdered(a.lo[0], a.hi[0], b.lo[0], b.hi[0]);
    AxisOverlapIffOrdered(a.lo[1], a.hi[1], b.lo[1], b.hi[1]);
  }

  /** One axis of `OverlapsIffIntersectionProper`. */
  lemma AxisOverlapIffOrdered(alo: Float, ahi: Float, blo: Float, bhi: Float)
    requires !IsNaN(alo) && !IsNaN(ahi) && !IsNaN(blo) && !IsNaN(bhi)
    requires Le(alo, ahi) && Le(blo, bhi)
    ensures (!Lt(bhi, alo) && !Gt(blo, ahi)) <==> Le(Upper(alo, blo), Lower(ahi, bhi))
  {
    OrderTotal(alo, bhi);
    OrderTotal(blo, ahi);
  }

  /** A box that holds another box with its corners in order overlaps it. */
  lemma EnclosedBoxOverlaps(a: Box, b: Box)
    requires a.Ordered() && b.Proper() && Encloses(a, b)
    ensures Overlaps(a, b)
  {
    OrderTotal(a.lo[0], b.lo[0]);
    OrderTotal(a.lo[1], b.lo[1]);
    OrderTotal(b.hi[0], a.hi[0]);
    OrderTotal(b.hi[1], a.hi[1]);
    LeTransitive(a.lo[0], b.lo[0], b.hi[0]);
    LeTransitive(a.lo[1], b.lo[1], b.hi[1]);
    LeTransitive(b.lo[0], b.hi[0], a.hi[0]);
    LeTransitive(b.lo[1], b.hi[1], a.hi[1]);
  }

  /** Inflating a finite box by 0 leaves it as it was. */
  lemma InflationByZero(b: Box)
    requires b.Finite()
    ensures Inflated(b, Zero, Zero) == b
  {
    assert IsFinite(b.lo[0]) && IsFinite(b.lo[1]) && IsFinite(b.hi[0]) && IsFinite(b.hi[1]);
    var r := Inflated(b, Zero, Zero);
    assert r.lo[0] == b.lo[0] && r.lo[1] == b.lo[1];
    assert r.hi[0] == b.hi[0] && r.hi[1] == b.hi[1];
  }

  // ---------------------------------------------------------------------------
  // Vertices

  /** `GetVertex(vtx_idx)` for an index in range: counter-clockwise from `Min`. */
  function Vertex(b: Box, i: int): (r: seq<Float>)
    requires b.Planar() && 0 <= i < 4
    ensures |r| == 2
  {
    if i == 0 then b.lo
    else if i == 1 then [b.hi[0], b.lo[1]]
    else if i == 2 then b.hi
    else [b.lo[0], b.hi[1]]
  }

  /** Each vertex takes each coordinate from one of the corners, so a box with
      its corners in order holds its vertices. */
  lemma VerticesInside(b: Box, i: int)
    requires b.Proper() && 0 <= i < 4
    ensures Includes(b, Vertex(b, i))
  {
  }

  /** Consecutive vertices share one coordinate: the edges are axis-aligned. */
  lemma EdgesAxisAligned(b: Box, e: int)
    requires b.Planar() && 0 <= e < 4
    ensures Vertex(b, e)[0] == Vertex(b, (e + 1) % 4)[0] || Vertex(b, e)[1] == Vertex(b, (e + 1) % 4)[1]
  {
  }

  // ---------------------------------------------------------------------------
  // Circle test

  /** What `OverlapsCircle(centre, radius)` tests: some vertex lies within
      `radius` of the centre. */
  predicate VertexInCircle(b: Box, centre: seq<Float>, radius: Float)
    requires b.Planar() && |centre| == 2
  {
    exists i :: 0 <= i < 4 && Le(VecBase.SquaredDistance(Vertex(b, i), centre), Mul(radius, radius))
  }

  /** The vertex test does not answer true wrongly: for a finite box with its
      corners in order, a vertex within the radius means the nearest point of
      the box is within it too. */
  lemma VertexInCircleIsSound(b: Box, centre: seq<Float>, radius: Float)
    requires b.Finite() && b.Proper() && |centre| == 2 && VecBase.AllFinite(centre) && IsFinite(radius)
    requires VertexInCircle(b, centre, radius)
    ensures Le(PointDistanceSquared(b, centre), Mul(radius, radius))
  {
    var i :| 0 <= i < 4 && Le(VecBase.SquaredDistance(Vertex(b, i), centre), Mul(radius, radius));
    NearestPointNoFartherThanVertex(b, centre, i);
    LeTransitive(PointDistanceSquared(b, centre), VecBase.SquaredDistance(Vertex(b, i), centre), Mul(radius, radius));
  }

  /** The test only looks at the vertices: a small circle in the middle of a
      large box is not reported, although its centre is inside. */
  lemma CircleInsideBoxNotDetected()
    ensures var b := Box([Zero, Zero], [Fin(10.0), Fin(10.0)]);
      Includes(b, [Fin(5.0), Fin(5.0)]) && !VertexInCircle(b, [Fin(5.0), Fin(5.0)], One)
  {
    var b, c := Box([Zero, Zero], [Fin(10.0), Fin(10.0)]), [Fin(5.0), Fin(5.0)];
    forall i | 0 <= i < 4
      ensures VecBase.SquaredDistance(Vertex(b, i), c) == Fin(50.0)
    {
      var v := Vertex(b, i);
      assert VecBase.SquaredDistance(v[..1], c[..1]) == Fin(25.0);
    }
  }

  /** The squared distance to the nearest point of a finite box with its
      corners in order is at most the squared distance to any vertex. */
  lemma NearestPointNoFartherThanVertex(b: Box, p: seq<Float>, i: int)
    requires b.Finite() && b.Proper() && |p| == 2 && VecBase.AllFinite(p) && 0 <= i < 4
    ensures Le(PointDistanceSquared(b, p), VecBase.SquaredDistance(Vertex(b, i), p))
  {
    assert IsFinite(b.lo[0]) && IsFinite(b.lo[1]) && IsFinite(b.hi[0]) && IsFinite(b.hi[1]);
    assert IsFinite(p[0]) && IsFinite(p[1]);
    var v := Vertex(b, i);
    var d0 := AxisExcess(Zero, p[0], b.lo[0], b.hi[0]);
    AxisExcessAtMostFace(p[0], b.lo[0], b.hi[0], v[0]);
    AxisExcessAtMostFace(p[1], b.lo[1], b.hi[1], v[1]);
    AxisExcessAccumulates(Zero, p[0], b.lo[0], b.hi[0]);
    AxisExcessAccumulates(d0, p[1], b.lo[1], b.hi[1]);
    SquaredDistanceOfPair(v, p);
  }

  /** Starting from a finite `d`, `AxisExcess` adds the excess it finds from zero. */
  lemma AxisExcessAccumulates(d: Float, x: Float, lo: Float, hi: Float)
    requires IsFinite(d) && IsFinite(x) && IsFinite(lo) && IsFinite(hi)
    ensures IsFinite(AxisExcess(Zero, x, lo, hi)) && IsFinite(AxisExcess(d, x, lo, hi))
    ensures AxisExcess(d, x, lo, hi).r == d.r + AxisExcess(Zero, x, lo, hi).r
  {
  }

  /** On one axis of a finite interval, the excess is at most the squared
      distance to either bound. */
  lemma AxisExcessAtMostFace(x: Float, lo: Float, hi: Float, v: Float)
    requires IsFinite(x) && IsFinite(lo) && IsFinite(hi) && Le(lo, hi) && (v == lo || v == hi)
    ensures IsFinite(AxisExcess(Zero, x, lo, hi)) && IsFinite(Mul(Sub(v, x), Sub(v, x)))
    ensures AxisExcess(Zero, x, lo, hi).r <= Mul(Sub(v, x), Sub(v, x)).r
  {
    var m := SquaredGap(v, x);
    if Lt(x, lo) {
      var e := SquaredGap(lo, x);
      AxisExcessAtMost(x.r, lo.r, hi.r, v.r, e);
    } else if Gt(x, hi) {
      var e := SquaredGap(x, hi);
      AxisExcessAtMost(x.r, lo.r, hi.r, v.r, e);
    } else {
      AxisExcessAtMost(x.r, lo.r, hi.r, v.r, 0.0);
    }
  }

  /** The square of the difference of two finite values, over the reals. */
  lemma SquaredGap(a: Float, b: Float) returns (m: real)
    requires IsFinite(a) && IsFinite(b)
    ensures UtilsFloat.Sqr(Sub(a, b)) == Mul(Sub(a, b), Sub(a, b)) == Fin(m)
    ensures m == (a.r - b.r) * (a.r - b.r)
  {
    m := (a.r - b.r) * (a.r - b.r);
    MulFinite(a.r - b.r, a.r - b.r);
  }

  /** `SquaredDistance` of two planar points, unfolded. */
  lemma SquaredDistanceOfPair(a: seq<Float>, b: seq<Float>)
    requires |a| == 2 && |b| == 2
    ensures VecBase.SquaredDistance(a, b)
      == Add(Add(Zero, Mul(Sub(a[0], b[0]), Sub(a[0], b[0]))), Mul(Sub(a[1], b[1]), Sub(a[1], b[1])))
  {
    var a1, b1 := a[..1], b[..1];
    assert a1[..0] == [] && b1[..0] == [];
    assert VecBase.SquaredDistance(a1[..0], b1[..0]) == Zero;
    assert VecBase.SquaredDistance(a1, b1) == Add(Zero, Mul(Sub(a[0], b[0]), Sub(a[0], b[0])));
    assert a[..|a| - 1] == a1 && b[..|b| - 1] == b1;
  }

  /** One axis of `NearestPointNoFartherThanVertex`, over the reals: `e` is the
      squared excess of `x` beyond `[lo, hi]` and `v` is one of the bounds. */
  lemma AxisExcessAtMost(x: real, lo: real, hi: real, v: real, e: real)
    requires lo <= hi && (v == lo || v == hi)
    requires e == if x < lo then (lo - x) * (lo - x) else if x > hi then (x - hi) * (x - hi) else 0.0
    ensures e <= (v - x) * (v - x)
  {
    if x < lo {
      SquareMonotone(lo - x, v - x);
    } else if x > hi {
      SquareMonotone(x - hi, x - v);
      assert (x - v) * (x - v) == (v - x) * (v - x);
    } else {
      SquareNotNegative(v - x, (v - x) * (v - x));
    }
  }

  // ---------------------------------------------------------------------------
  // End to end

  /** From `SetEmpty`, adding (0,0) and then (4,4) gives the box [0,4] x [0,4],
      centred on (2,2), and (6,2) lies at squared distance 4 from it. */
  lemma EmptyBoxThroughTwoPoints()
    ensures var b := AddedPoint(AddedPoint(EmptyBox, [Zero, Zero]), [Fin(4.0), Fin(4.0)]);
      b == Box([Zero, Zero], [Fin(4.0), Fin(4.0)]) &&
      Centroid(b) == [Fin(2.0), Fin(2.0)] &&
      PointDistanceSquared(b, [Fin(6.0), Fin(2.0)]) == Fin(4.0)
  {
    FirstPointOfEmptyBox([Zero, Zero]);
    var b := AddedPoint(Box([Zero, Zero], [Zero, Zero]), [Fin(4.0), Fin(4.0)]);
    assert b.lo == [Zero, Zero] && b.hi == [Fin(4.0), Fin(4.0)];
    var c := Centroid(b);
    assert c[0] == Fin(2.0) && c[1] == Fin(2.0);
  }

  // ---------------------------------------------------------------------------
  // The class

  class AABB {
    var Min: Vec2
    var Max: Vec2

    /** Both corners hold two components, in separate objects: no member of the
        class ever makes `Min` and `Max` share storage. */
    predicate Valid()
      reads this
    {
      Min.Valid() && Max.Valid() && Min.m_v != Max.m_v
    }

    function Bounds(): Box
      reads this, Min.m_v, Max.m_v
    {
      Box(Min.Value(), Max.Value())
    }

    /** `AABB()`: an empty box, as `SetEmpty` makes it. */
    constructor ()
      ensures Valid() && Bounds() == EmptyBox
      ensures fresh(Min) && fresh(Min.m_v) && fresh(Max) && fresh(Max.m_v)
    {
      Min := new Vec2.Of(PosInf, PosInf);
      Max := new Vec2.Of(NegInf, NegInf);
    }

    /** `AABB(Vec2 pos)`: the box of one point, as `Init(pos)` makes it. */
    constructor OfPoint(pos: Vec2)
      requires pos.Valid()
      ensures Valid() && Bounds() == Box(pos.Value(), pos.Value())
      ensures fresh(Min) && fresh(Min.m_v) && fresh(Max) && fresh(Max.m_v)
    {
      Min := new Vec2.CopyOf(pos);
      Max := new Vec2.CopyOf(pos);
    }

    /** `AABB(Vec2 bb_min, Vec2 bb_max)`: copies of the two corners. */
    constructor OfCorners(bbMin: Vec2, bbMax: Vec2)
      requires bbMin.Valid() && bbMax.Valid()
      ensures Valid() && Bounds() == Box(bbMin.Value(), bbMax.Value())
      ensures fresh(Min) && fresh(Min.m_v) && fresh(Max) && fresh(Max.m_v)
    {
      Min := new Vec2.CopyOf(bbMin);
      Max := new Vec2.CopyOf(bbMax);
    }

    /** `CopyFrom(other)`: a deep copy, sharing no storage with `other`. */
    static method CopyFrom(other: AABB) returns (r: AABB)
      requires other.Valid()
      ensures fresh(r) && fresh(r.Min) && fresh(r.Min.m_v) && fresh(r.Max) && fresh(r.Max.m_v)
      ensures r.Valid() && r.Bounds() == other.Bounds()
    {
      var bbMin := other.Min.Copy();
      var bbMax := other.Max.Copy();
      r := new AABB.OfCorners(bbMin, bbMax);
    }

    method Copy() returns (r: AABB)
      requires Valid()
      ensures fresh(r) && fresh(r.Min) && fresh(r.Min.m_v) && fresh(r.Max) && fresh(r.Max.m_v)
      ensures r.Valid() && r.Bounds() == Bounds()
    {
      r := CopyFrom(this);
    }

    method SetEmpty()
      modifies this
      ensures Valid() && Bounds() == EmptyBox
      ensures fresh(Min) && fresh(Min.m_v) && fresh(Max) && fresh(Max.m_v)
    {
      Min := new Vec2.Of(PosInf, PosInf);
      Max := new Vec2.Of(NegInf, NegInf);
    }

    method SetInfinity()
      modifies this
      ensures Valid() && Bounds() == InfiniteBox
      ensures fresh(Min) && fresh(Min.m_v) && fresh(Max) && fresh(Max.m_v)
    {
      Min := new Vec2.Of(NegInf, NegInf);
      Max := new Vec2.Of(PosInf, PosInf);
    }

    method Init(pos: Vec2)
      requires pos.Valid()
      modifies this
      ensures Valid() && Bounds() == Box(old(pos.Value()), old(pos.Value()))
      ensures fresh(Min) && fresh(Min.m_v) && fresh(Max) && fresh(Max.m_v)
    {
      Min := new Vec2.CopyOf(pos);
      Max := new Vec2.CopyOf(pos);
    }

    /** `AddPoint(pos)`; `pos` may be one of this box's own corners. */
    method AddPoint(pos: Vec2)
      requires Valid() && pos.Valid()
      modifies Min.m_v, Max.m_v
      ensures Valid() && Bounds() == AddedPoint(old(Bounds()), old(pos.Value()))
    {
      if Lt(pos.X(), Min.X()) {
        Min.SetX(pos.X());
      }
      if Gt(pos.X(), Max.X()) {
        Max.SetX(pos.X());
      }
      if Lt(pos.Y(), Min.Y()) {
        Min.SetY(pos.Y());
      }
      if Gt(pos.Y(), Max.Y()) {
        Max.SetY(pos.Y());
      }
    }

    /** `AddAABB(other)`: its `Min` and then its `Max` added as points. When
        `other.Max` is one of this box's own corners, the first step may already
        have moved it. */
    method AddAABB(other: AABB)
      requires Valid() && other.Valid()
      modifies Min.m_v, Max.m_v
      ensures Valid()
      ensures var mid := AddedPoint(old(Bounds()), old(other.Min.Value()));
        Bounds() == AddedPoint(mid,
          if other.Max.m_v == Max.m_v then mid.hi
          else if other.Max.m_v == Min.m_v then mid.lo
          else old(other.Max.Value()))
    {
      AddPoint(other.Min);
      AddPoint(other.Max);
    }

    /** The `Size` property: a fresh `Max - Min`. */
    method GetSize() returns (r: Vec2)
      requires Valid()
      ensures fresh(r) && fresh(r.m_v) && r.Valid() && r.Value() == Size(Bounds())
    {
      r := Vec2.Minus(Max, Min);
    }

    /** `Centroid(axis)`. */
    method CentroidOnAxis(axis: int) returns (r: Result<Float>)
      requires Valid()
      ensures r == CentroidAxis(Bounds(), axis)
    {
      var lo := VecBase.Get(Min.m_v, axis);
      if lo.IndexOutOfRange? {
        return IndexOutOfRange;
      }
      var hi := VecBase.Get(Max.m_v, axis);
      r := Ok(Mul(Add(lo.value, hi.value), Half));
    }

    /** `Centroid()`: a fresh `(Min + Max) * 0.5`. */
    method GetCentroid() returns (r: Vec2)
      requires Valid()
      ensures fresh(r) && fresh(r.m_v) && r.Valid() && r.Value() == Centroid(Bounds())
    {
      var sum := Vec2.Plus(Min, Max);
      r := Vec2.Times(sum, Half);
    }
  
    /** `ExtrudeAxis(offset, axis)`. The indexer rejects an axis other than 0
        and 1 before anything is written. */
    method ExtrudeAxis(offset: Float, axis: int) returns (res: Result<()>)
      requires Valid()
      modifies Min.m_v, Max.m_v
      ensures Valid()
      ensures res.IndexOutOfRange? <==> !(0 <= axis < 2)
      ensures res.Ok? ==> Bounds() == ExtrudedAxis(old(Bounds()), offset, axis)
      ensures res.IndexOutOfRange? ==> Bounds() == old(Bounds())
    {
      if !(0 <= axis < 2) {
        return IndexOutOfRange;
      }
      Min.m_v[axis] := Sub(Min.m_v[axis], offset);
      Max.m_v[axis] := Add(Max.m_v[axis], offset);
      res := Ok(());
    }

    /** `Extrude(offset_x, offset_y)`. */
    method ExtrudeXY(offsetX: Float, offsetY: Float)
      requires Valid()
      modifies Min.m_v, Max.m_v
      ensures Valid() && Bounds() == Extruded(old(Bounds()), offsetX, offsetY)
    {
      var _ := ExtrudeAxis(offsetX, 0);
      var _ := ExtrudeAxis(offsetY, 1);
    }

    /** `Extrude(offset)`. */
    method Extrude(offset: Float)
      requires Valid()
      modifies Min.m_v, Max.m_v
      ensures Valid() && Bounds() == Extruded(old(Bounds()), offset, offset)
    {
      ExtrudeXY(offset, offset);
    }

    /** `Extrude(Vec2 offset)`: the corners are replaced by fresh vectors. */
    method ExtrudeBy(offset: Vec2)
      requires Valid() && offset.Valid()
      modifies this
      ensures Valid() && Bounds() == ExtrudedBy(old(Bounds()), old(offset.Value()))
      ensures fresh(Min) && fresh(Min.m_v) && fresh(Max) && fresh(Max.m_v)
    {
      Min := Vec2.Minus(Min, offset);
      Max := Vec2.Plus(Max, offset);
    }

    /** `InflateAxis(fraction, axis)`. */
    method InflateAxis(fraction: Float, axis: int) returns (res: Result<()>)
      requires Valid()
      modifies Min.m_v, Max.m_v
      ensures Valid()
      ensures res.IndexOutOfRange? <==> !(0 <= axis < 2)
      ensures res.Ok? ==> Bounds() == InflatedAxis(old(Bounds()), fraction, axis)
      ensures res.IndexOutOfRange? ==> Bounds() == old(Bounds())
    {
      var hi := VecBase.Get(Max.m_v, axis);
      if hi.IndexOutOfRange? {
        return IndexOutOfRange;
      }
      var lo := VecBase.Get(Min.m_v, axis);
      var offset := Mul(Mul(Sub(hi.value, lo.value), Half), fraction);
      res := ExtrudeAxis(offset, axis);
    }

    /** `Inflate(fraction_x, fraction_y)`. */
    method InflateXY(fractionX: Float, fractionY: Float)
      requires Valid()
      modifies Min.m_v, Max.m_v
      ensures Valid() && Bounds() == Inflated(old(Bounds()), fractionX, fractionY)
    {
      var _ := InflateAxis(fractionX, 0);
      var _ := InflateAxis(fractionY, 1);
    }

    /** `Inflate(fraction)`. */
    method Inflate(fraction: Float)
      requires Valid()
      modifies Min.m_v, Max.m_v
      ensures Valid() && Bounds() == Inflated(old(Bounds()), fraction, fraction)
    {
      InflateXY(fraction, fraction);
    }

    /** `Inflate(Vec2 fraction)`: both components are read before the box changes. */
    method InflateBy(fraction: Vec2)
      requires Valid() && fraction.Valid()
      modifies Min.m_v, Max.m_v
      ensures Valid() && Bounds() == Inflated(old(Bounds()), old(fraction.X()), old(fraction.Y()))
    {
      InflateXY(fraction.X(), fraction.Y());
    }

    /** `ScaleAxis(scale_factor, axis)`. */
    method ScaleAxis(factor: Float, axis: int) returns (res: Result<()>)
      requires Valid()
      modifies Min.m_v, Max.m_v
      ensures Valid()
      ensures res.IndexOutOfRange? <==> !(0 <= axis < 2)
      ensures res.Ok? ==> Bounds() == ScaledAxis(old(Bounds()), factor, axis)
      ensures res.IndexOutOfRange? ==> Bounds() == old(Bounds())
    {
      if !(0 <= axis < 2) {
        return IndexOutOfRange;
      }
      Min.m_v[axis] := Mul(Min.m_v[axis], factor);
      Max.m_v[axis] := Mul(Max.m_v[axis], factor);
      res := Ok(());
    }

    /** `Scale(scale_factor_x, scale_factor_y)`. */
    method ScaleXY(factorX: Float, factorY: Float)
      requires Valid()
      modifies Min.m_v, Max.m_v
      ensures Valid() && Bounds() == Scaled(old(Bounds()), factorX, factorY)
    {
      var _ := ScaleAxis(factorX, 0);
      var _ := ScaleAxis(factorY, 1);
    }

    /** `Scale(scale_factor)`. */
    method Scale(factor: Float)
      requires Valid()
      modifies Min.m_v, Max.m_v
      ensures Valid() && Bounds() == Scaled(old(Bounds()), factor, factor)
    {
      ScaleXY(factor, factor);
    }

    /** `Scale(Vec2 scale_factor)` as written: it inflates. */
    method ScaleByAsWritten(factor: Vec2)
      requires Valid() && factor.Valid()
      modifies Min.m_v, Max.m_v
      ensures Valid() && Bounds() == ScaledByAsWritten(old(Bounds()), old(factor.Value()))
    {
      InflateXY(factor.X(), factor.Y());
    }

    /** `Scale(Vec2 scale_factor)` corrected: it scales like `Scale(x, y)`. */
    method ScaleBy(factor: Vec2)
      requires Valid() && factor.Valid()
      modifies Min.m_v, Max.m_v
      ensures Valid() && Bounds() == ScaledBy(old(Bounds()), old(factor.Value()))
    {
      ScaleXY(factor.X(), factor.Y());
    }

    /** `TranslateAxis(offset, axis)`. */
    method TranslateAxis(offset: Float, axis: int) returns (res: Result<()>)
      requires Valid()
      modifies Min.m_v, Max.m_v
      ensures Valid()
      ensures res.IndexOutOfRange? <==> !(0 <= axis < 2)
      ensures res.Ok? ==> Bounds() == TranslatedAxis(old(Bounds()), offset, axis)
      ensures res.IndexOutOfRange? ==> Bounds() == old(Bounds())
    {
      if !(0 <= axis < 2) {
        return IndexOutOfRange;
      }
      Min.m_v[axis] := Add(Min.m_v[axis], offset);
      Max.m_v[axis] := Add(Max.m_v[axis], offset);
      res := Ok(());
    }

    /** `Translate(Vec2 offset)`: `offset[1]` is read after axis 0 moved, which
        matters only when `offset` is one of the corners, and then it is unchanged. */
    method Translate(offset: Vec2)
      requires Valid() && offset.Valid()
      modifies Min.m_v, Max.m_v
      ensures Valid() && Bounds() == Translated(old(Bounds()), old(offset.Value()))
    {
      var _ := TranslateAxis(offset.X(), 0);
      var _ := TranslateAxis(offset.Y(), 1);
    }
  
    /** `operator +` as written: a copy of `a` whose `Min` takes `b`'s smaller
        components, and whose `Max` is assigned `a`'s own components. */
    static method UniteAsWritten(a: AABB, b: AABB) returns (r: AABB)
      requires a.Valid() && b.Valid()
      ensures fresh(r) && fresh(r.Min) && fresh(r.Min.m_v) && fresh(r.Max) && fresh(r.Max.m_v)
      ensures r.Valid() && r.Bounds() == UnionAsWritten(a.Bounds(), b.Bounds())
    {
      r := a.Copy();
      LowerComponents(r.Min, b.Min);
      if Lt(r.Max.X(), b.Max.X()) {
        r.Max.SetX(a.Max.X());
      }
      if Lt(r.Max.Y(), b.Max.Y()) {
        r.Max.SetY(a.Max.Y());
      }
    }

    /** `operator +` corrected: `Max` takes `b`'s larger components. */
    static method Unite(a: AABB, b: AABB) returns (r: AABB)
      requires a.Valid() && b.Valid()
      ensures fresh(r) && fresh(r.Min) && fresh(r.Min.m_v) && fresh(r.Max) && fresh(r.Max.m_v)
      ensures r.Valid() && r.Bounds() == Union(a.Bounds(), b.Bounds())
    {
      r := a.Copy();
      LowerComponents(r.Min, b.Min);
      RaiseComponents(r.Max, b.Max);
    }

    /** `operator *`. */
    static method Intersect(a: AABB, b: AABB) returns (r: AABB)
      requires a.Valid() && b.Valid()
      ensures fresh(r) && fresh(r.Min) && fresh(r.Min.m_v) && fresh(r.Max) && fresh(r.Max.m_v)
      ensures r.Valid() && r.Bounds() == Intersection(a.Bounds(), b.Bounds())
    {
      r := a.Copy();
      RaiseComponents(r.Min, b.Min);
      LowerComponents(r.Max, b.Max);
    }

    /** `GetVertex(vtx_idx)`: vertices 0 and 2 are the corner objects themselves,
        1 and 3 fresh vectors; any other index gives the shared `Vec2.NaN`
        object, passed in as `nan`. */
    method GetVertex(i: int, nan: Vec2) returns (r: Vec2)
      requires Valid() && nan.Valid()
      ensures r.Valid()
      ensures 0 <= i < 4 ==> r.Value() == Vertex(Bounds(), i)
      ensures i == 0 ==> r == Min
      ensures i == 2 ==> r == Max
      ensures (i == 1 || i == 3) ==> fresh(r) && fresh(r.m_v)
      ensures !(0 <= i < 4) ==> r == nan
    {
      if i == 0 {
        r := Min;
      } else if i == 1 {
        r := new Vec2.Of(Max.X(), Min.Y());
      } else if i == 2 {
        r := Max;
      } else if i == 3 {
        r := new Vec2.Of(Min.X(), Max.Y());
      } else {
        r := nan;
      }
    }

    /** `GetEdgeVertex0(edge_idx)`: the first vertex of edge `e`, with the
        sharing of `GetVertex`: edges 0 and 2 hand out the corner objects. */
    method GetEdgeVertex0(e: int, nan: Vec2) returns (r: Vec2)
      requires Valid() && nan.Valid()
      ensures r.Valid()
      ensures 0 <= e < 4 ==> r.Value() == Vertex(Bounds(), e)
      ensures e == 0 ==> r == Min
      ensures e == 2 ==> r == Max
      ensures (e == 1 || e == 3) ==> fresh(r) && fresh(r.m_v)
      ensures !(0 <= e < 4) ==> r == nan
    {
      if 0 <= e < 4 {
        r := GetVertex(e, nan);
      } else {
        r := nan;
      }
    }

    /** `GetEdgeVertex1(edge_idx)`: the second vertex of edge `e`, the next one
        round; edges 3 and 1 hand out the corner objects. */
    method GetEdgeVertex1(e: int, nan: Vec2) returns (r: Vec2)
      requires Valid() && nan.Valid()
      ensures r.Valid()
      ensures 0 <= e < 4 ==> r.Value() == Vertex(Bounds(), (e + 1) % 4)
      ensures e == 3 ==> r == Min
      ensures e == 1 ==> r == Max
      ensures (e == 0 || e == 2) ==> fresh(r) && fresh(r.m_v)
      ensures !(0 <= e < 4) ==> r == nan
    {
      if 0 <= e < 4 {
        r := GetVertex((e + 1) % 4, nan);
      } else {
        r := nan;
      }
    }

    /** `OverlapsCircle(circle_centre, circle_radius)`: the vertices are tried in
        order and the first within the radius answers true. */
    method OverlapsCircle(centre: Vec2, radius: Float, nan: Vec2) returns (r: bool)
      requires Valid() && centre.Valid() && nan.Valid()
      ensures r <==> VertexInCircle(Bounds(), centre.Value(), radius)
    {
      ghost var box, c := Bounds(), centre.Value();
      var radiusSq := Mul(radius, radius);
      var k := 0;
      while k < 4
        invariant 0 <= k <= 4
        invariant Valid() && Bounds() == box && centre.Value() == c
        invariant forall j :: 0 <= j < k ==> !Le(VecBase.SquaredDistance(Vertex(box, j), c), radiusSq)
      {
        var v := GetVertex(k, nan);
        var d := Vec2.DistanceSquared(v, centre);
        assert d == VecBase.SquaredDistance(Vertex(box, k), c);
        if Le(d, radiusSq) {
          return true;
        }
        k := k + 1;
      }
      return false;
    }
  }

  /** `if (v[k] > w[k]) v[k] = w[k]` for both axes, on separate vectors. */
  method LowerComponents(v: Vec2, w: Vec2)
    requires v.Valid() && w.Valid() && v.m_v != w.m_v
    modifies v.m_v
    ensures v.Value() == [Lower(old(v.X()), w.X()), Lower(old(v.Y()), w.Y())]
  {
    if Gt(v.X(), w.X()) {
      v.SetX(w.X());
    }
    if Gt(v.Y(), w.Y()) {
      v.SetY(w.Y());
    }
  }

  /** `if (v[k] < w[k]) v[k] = w[k]` for both axes, on separate vectors. */
  method RaiseComponents(v: Vec2, w: Vec2)
    requires v.Valid() && w.Valid() && v.m_v != w.m_v
    modifies v.m_v
    ensures v.Value() == [Upper(old(v.X()), w.X()), Upper(old(v.Y()), w.Y())]
  {
    if Lt(v.X(), w.X()) {
      v.SetX(w.X());
    }
    if Lt(v.Y(), w.Y()) {
      v.SetY(w.Y());
    }
  }
}
