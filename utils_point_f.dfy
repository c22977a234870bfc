/** `UtilsPointF`: static helpers on `System.Drawing.PointF`, a pair of
    floats, ending in the squared distance from a point to a segment. */
module UtilsPointF {
  import opened Floats
  import opened RealFacts
  import UtilsFloat

  datatype PointF = PointF(x: Float, y: Float)

  /** The finite point with real coordinates `(x, y)`. */
  function Pt(x: real, y: real): PointF {
    PointF(Fin(x), Fin(y))
  }

  predicate IsFinitePoint(p: PointF) {
    IsFinite(p.x) && IsFinite(p.y)
  }

  function Dot(a: PointF, b: PointF): Float {
    Add(Mul(a.x, b.x), Mul(a.y, b.y))
  }

  function Plus(a: PointF, b: PointF): PointF {
    PointF(Add(a.x, b.x), Add(a.y, b.y))
  }

  function Minus(a: PointF, b: PointF): PointF {
    PointF(Sub(a.x, b.x), Sub(a.y, b.y))
  }

  /** `Mul(PointF pA, float s)`: both coordinates times `s`. */
  function Times(a: PointF, s: Float): PointF {
    PointF(Mul(a.x, s), Mul(a.y, s))
  }

  function LengthSquared(v: PointF): Float {
    Dot(v, v)
  }

  function DistanceSquared(a: PointF, b: PointF): Float {
    LengthSquared(Minus(a, b))
  }

  /** `(1 - t) a + t b`, computed as `a * (1 - t) + b * t`. */
  function Lerp(t: Float, a: PointF, b: PointF): PointF {
    Plus(Times(a, Sub(One, t)), Times(b, t))
  }

  /** The parameter `t` of the projection of `p` on the line through `a`
      and `b`: `(p - a) . (b - a) / |b - a|^2`. */
  function ProjectionParameter(p: PointF, a: PointF, b: PointF): Float {
    Div(Dot(Minus(p, a), Minus(b, a)), LengthSquared(Minus(b, a)))
  }

  /** `PointLineSegDistanceSquared(p, pSegA, pSegB)` as written: the squared
      distance to `a` when `t <= 0`, to `b` when `t >= 1`, and to the
      projection `Lerp(t, a, b)` otherwise. */
  function SegmentDistanceSquaredAsWritten(p: PointF, a: PointF, b: PointF): Float {
    var t := ProjectionParameter(p, a, b);
    if Le(t, Zero) then DistanceSquared(p, a)
    else if Ge(t, One) then DistanceSquared(p, b)
    else DistanceSquared(p, Lerp(t, a, b))
  }

  /** The same computation with a segment of length zero treated as the
      point it is. */
  function SegmentDistanceSquared(p: PointF, a: PointF, b: PointF): Float {
    if LengthSquared(Minus(b, a)) == Zero then DistanceSquared(p, a)
    else SegmentDistanceSquaredAsWritten(p, a, b)
  }

  /** The parameter of the nearest point of the segment: the projection
      parameter clamped to `[0, 1]`. */
  function NearestParameter(p: PointF, a: PointF, b: PointF): Float {
    UtilsFloat.Clamp(ProjectionParameter(p, a, b), Zero, One)
  }

  // ---------------------------------------------------------------------------
  // Properties of the point operations

  /** `Dot` is symmetric, special values included. */
  lemma DotSymmetric(a: PointF, b: PointF)
    ensures Dot(a, b) == Dot(b, a)
  {
  }

  /** A squared length is never below zero, and it is a number unless a
      coordinate is NaN. */
  lemma LengthSquaredNotNegative(v: PointF)
    ensures !Lt(LengthSquared(v), Zero)
    ensures !IsNaN(v.x) && !IsNaN(v.y) ==> Ge(LengthSquared(v), Zero)
  {
    MulSelfNotNegative(v.x);
    MulSelfNotNegative(v.y);
    AddNotNegative(Mul(v.x, v.x), Mul(v.y, v.y));
  }

  /** Subtracting `b` undoes adding it, for finite points. */
  lemma MinusUndoesPlus(a: PointF, b: PointF)
    requires IsFinitePoint(a) && IsFinitePoint(b)
    ensures Minus(Plus(a, b), b) == a
  {
  }

  /** The squared distance is symmetric, special values included. */
  lemma DistanceSquaredSymmetric(a: PointF, b: PointF)
    ensures DistanceSquared(a, b) == DistanceSquared(b, a)
  {
    SubAntisymmetric(a.x, b.x);
    SubAntisymmetric(a.y, b.y);
    MulNeg(Sub(a.x, b.x));
    MulNeg(Sub(a.y, b.y));
  }

  /** Scaling a finite point by 1 keeps it, and by 0 gives the origin. */
  lemma TimesUnitAndZero(a: PointF)
    requires IsFinitePoint(a)
    ensures Times(a, One) == a
    ensures Times(a, Zero) == Pt(0.0, 0.0)
  {
  }

  /** `Lerp` starts at `a` and ends at `b`, for finite points. */
  lemma LerpEndpoints(a: PointF, b: PointF)
    requires IsFinitePoint(a) && IsFinitePoint(b)
    ensures Lerp(Zero, a, b) == a
    ensures Lerp(One, a, b) == b
  {
  }

  // ---------------------------------------------------------------------------
  // The distance to a segment

  /** The real squared length of `(u, v)`. */
  function Quad(u: real, v: real): real {
    u * u + v * v
  }

  /** A segment whose ends coincide makes `t` the quotient 0 / 0, which is
      NaN; NaN fails both comparisons and the result is NaN instead of the
      squared distance to that point. */
  lemma DegenerateSegmentGivesNaN(p: PointF, a: PointF)
    requires IsFinitePoint(p) && IsFinitePoint(a)
    ensures IsNaN(SegmentDistanceSquaredAsWritten(p, a, a))
    ensures IsFinite(SegmentDistanceSquared(p, a, a))
  {
    var t := ProjectionParameter(p, a, a);
    assert Minus(a, a) == Pt(0.0, 0.0);
    assert LengthSquared(Minus(a, a)) == Zero;
    assert t == NaN;
  }

  /** Over finite points the squared distance from `p` to `Lerp(s, a, b)`
      is the quadratic `q - 2 s d + s^2 l` in `s`, with `q = |p - a|^2`,
      `d = (p - a) . (b - a)` and `l = |b - a|^2`. */
  lemma DistanceToLerp(p0: real, p1: real, a0: real, a1: real, b0: real, b1: real, s: real,
                       q: real, d: real, l: real)
    requires q == Quad(p0 - a0, p1 - a1)
    requires d == (p0 - a0) * (b0 - a0) + (p1 - a1) * (b1 - a1)
    requires l == Quad(b0 - a0, b1 - a1)
    ensures DistanceSquared(Pt(p0, p1), Lerp(Fin(s), Pt(a0, a1), Pt(b0, b1))) == Fin(q - 2.0 * s * d + s * s * l)
  {
    var w := 1.0 + -s;
    var c0, c1 := a0 * w + b0 * s, a1 * w + b1 * s;
    var e0, e1 := (p0 - a0) - s * (b0 - a0), (p1 - a1) - s * (b1 - a1);
    LerpOf(a0, a1, b0, b1, s, w);
    LerpOffset(p0, a0, b0, s, w);
    LerpOffset(p1, a1, b1, s, w);
    MinusOf(p0, p1, c0, c1);
    assert p0 + -c0 == e0 && p1 + -c1 == e1;
    LengthSquaredOf(e0, e1);
    Expansion(p0 - a0, p1 - a1, b0 - a0, b1 - a1, s, e0, e1, q, d, l);
  }

  lemma LerpOf(a0: real, a1: real, b0: real, b1: real, s: real, w: real)
    requires w == 1.0 + -s
    ensures Lerp(Fin(s), Pt(a0, a1), Pt(b0, b1)) == Pt(a0 * w + b0 * s, a1 * w + b1 * s)
  {
    assert Sub(One, Fin(s)) == Fin(w);
    TimesOf(a0, a1, w);
    TimesOf(b0, b1, s);
  }

  lemma TimesOf(u0: real, u1: real, k: real)
    ensures Times(Pt(u0, u1), Fin(k)) == Pt(u0 * k, u1 * k)
  {
    MulFinite(u0, k);
    MulFinite(u1, k);
  }

  lemma MinusOf(u0: real, u1: real, v0: real, v1: real)
    ensures Minus(Pt(u0, u1), Pt(v0, v1)) == Pt(u0 + -v0, u1 + -v1)
  {
  }

  lemma LengthSquaredOf(u: real, v: real)
    ensures LengthSquared(Pt(u, v)) == Fin(Quad(u, v))
  {
    MulFinite(u, u);
    MulFinite(v, v);
  }

  lemma LerpOffset(p: real, a: real, b: real, s: real, w: real)
    requires w == 1.0 + -s
    ensures p + -(a * w + b * s) == (p - a) - s * (b - a)
  {
  }

  lemma Expansion(u: real, v: real, w: real, z: real, s: real, e0: real, e1: real, q: real, d: real, l: real)
    requires e0 == u - s * w && e1 == v - s * z
    requires q == Quad(u, v) && d == u * w + v * z && l == Quad(w, z)
    ensures Quad(e0, e1) == q - 2.0 * s * d + s * s * l
  {
  }

  lemma QuadPositive(u: real, v: real)
    requires u != 0.0 || v != 0.0
    ensures Quad(u, v) > 0.0
  {
    SquareNotNegative(u, u * u);
    SquareNotNegative(v, v * v);
    if u != 0.0 {
      SquarePositive(u, u * u);
    } else {
      SquarePositive(v, v * v);
    }
  }

  /** With `t <= 0` the nearest point of the segment is its start. */
  lemma NearestBelow(q: real, d: real, l: real, s: real, t: real)
    requires l > 0.0 && t == d / l && t <= 0.0 && 0.0 <= s <= 1.0
    ensures q <= q - 2.0 * s * d + s * s * l
  {
    assert d == t * l;
    ProductNotNegative(s, -d, s * -d);
    ProductNotNegative(s * s, l, s * s * l);
  }

  /** With `t >= 1` the nearest point of the segment is its end. */
  lemma NearestAbove(q: real, d: real, l: real, s: real, t: real)
    requires l > 0.0 && t == d / l && t >= 1.0 && 0.0 <= s <= 1.0
    ensures q - 2.0 * d + l <= q - 2.0 * s * d + s * s * l
  {
    assert d == t * l;
    assert d >= l by {
      ProductNotNegative(t - 1.0, l, (t - 1.0) * l);
    }
    var g := 2.0 * d - l * (1.0 + s);
    assert g >= l * (1.0 - s) by {
      assert g - l * (1.0 - s) == 2.0 * (d - l);
    }
    ProductNotNegative(l, 1.0 - s, l * (1.0 - s));
    ProductNotNegative(1.0 - s, g, (1.0 - s) * g);
    assert (q - 2.0 * s * d + s * s * l) - (q - 2.0 * d + l) == (1.0 - s) * g;
  }

  /** Between the ends the projection is nearest: the quadratic in `s` is
      smallest at `t = d / l`. */
  lemma NearestBetween(q: real, d: real, l: real, s: real, t: real)
    requires l > 0.0 && t == d / l
    ensures q - 2.0 * t * d + t * t * l <= q - 2.0 * s * d + s * s * l
  {
    assert d == t * l;
    var e := s - t;
    SquareNotNegative(e, e * e);
    ProductNotNegative(l, e * e, l * (e * e));
    assert (q - 2.0 * s * d + s * s * l) - (q - 2.0 * t * d + t * t * l) == l * (e * e);
  }

  lemma DotOf(u0: real, u1: real, v0: real, v1: real, d: real)
    requires d == u0 * v0 + u1 * v1
    ensures Dot(Pt(u0, u1), Pt(v0, v1)) == Fin(d)
  {
    MulFinite(u0, v0);
    MulFinite(u1, v1);
  }

  /** For a segment of positive length `l` the projection parameter is the
      real quotient `d / l`. */
  lemma ProjectionOf(p0: real, p1: real, a0: real, a1: real, b0: real, b1: real, d: real, l: real)
    requires d == (p0 - a0) * (b0 - a0) + (p1 - a1) * (b1 - a1)
    requires l == Quad(b0 - a0, b1 - a1) && l > 0.0
    ensures ProjectionParameter(Pt(p0, p1), Pt(a0, a1), Pt(b0, b1)) == Fin(d / l)
  {
    var u0, u1, v0, v1 := p0 - a0, p1 - a1, b0 - a0, b1 - a1;
    MinusOf(p0, p1, a0, a1);
    MinusOf(b0, b1, a0, a1);
    assert Minus(Pt(p0, p1), Pt(a0, a1)) == Pt(u0, u1);
    assert Minus(Pt(b0, b1), Pt(a0, a1)) == Pt(v0, v1);
    DotOf(u0, u1, v0, v1, d);
    LengthSquaredOf(v0, v1);
    assert Div(Fin(d), Fin(l)) == Fin(d / l);
  }

  /** The real quantities of a finite configuration with distinct ends:
      `q = |p - a|^2`, `d = (p - a) . (b - a)` and `l = |b - a|^2 > 0`, and
      the squared distances to the ends and to the points at `s` and `u`. */
  lemma SegmentQuantities(p: PointF, a: PointF, b: PointF, s: real, u: real)
    returns (q: real, d: real, l: real)
    requires IsFinitePoint(p) && IsFinitePoint(a) && IsFinitePoint(b) && a != b
    ensures l > 0.0 && LengthSquared(Minus(b, a)) == Fin(l)
    ensures ProjectionParameter(p, a, b) == Fin(d / l)
    ensures DistanceSquared(p, a) == Fin(q)
    ensures DistanceSquared(p, b) == Fin(q - 2.0 * d + l)
    ensures DistanceSquared(p, Lerp(Fin(s), a, b)) == Fin(q - 2.0 * s * d + s * s * l)
    ensures DistanceSquared(p, Lerp(Fin(u), a, b)) == Fin(q - 2.0 * u * d + u * u * l)
  {
    var p0, p1, a0, a1, b0, b1 := p.x.r, p.y.r, a.x.r, a.y.r, b.x.r, b.y.r;
    assert p == Pt(p0, p1) && a == Pt(a0, a1) && b == Pt(b0, b1);
    q := Quad(p0 - a0, p1 - a1);
    d := (p0 - a0) * (b0 - a0) + (p1 - a1) * (b1 - a1);
    l := Quad(b0 - a0, b1 - a1);
    QuadPositive(b0 - a0, b1 - a1);
    ProjectionOf(p0, p1, a0, a1, b0, b1, d, l);
    MinusOf(b0, b1, a0, a1);
    LengthSquaredOf(b0 + -a0, b1 + -a1);
    LerpEndpoints(a, b);
    DistanceToLerp(p0, p1, a0, a1, b0, b1, 0.0, q, d, l);
    DistanceToLerp(p0, p1, a0, a1, b0, b1, 1.0, q, d, l);
    DistanceToLerp(p0, p1, a0, a1, b0, b1, s, q, d, l);
    DistanceToLerp(p0, p1, a0, a1, b0, b1, u, q, d, l);
  }

  /** Over a segment with distinct finite ends, the value is no larger
      than the squared distance from `p` to any point of the segment. */
  lemma SegmentDistanceIsMinimal(p: PointF, a: PointF, b: PointF, s: Float)
    requires IsFinitePoint(p) && IsFinitePoint(a) && IsFinitePoint(b) && a != b
    requires IsFinite(s) && Le(Zero, s) && Le(s, One)
    ensures Le(SegmentDistanceSquaredAsWritten(p, a, b), DistanceSquared(p, Lerp(s, a, b)))
  {
    var t := ProjectionParameter(p, a, b);
    if Le(t, Zero) {
      NearestIsStart(p, a, b, s.r);
    } else if Ge(t, One) {
      NearestIsEnd(p, a, b, s.r);
    } else {
      NearestIsProjection(p, a, b, s.r);
    }
  }

  lemma NearestIsStart(p: PointF, a: PointF, b: PointF, s: real)
    requires IsFinitePoint(p) && IsFinitePoint(a) && IsFinitePoint(b) && a != b
    requires 0.0 <= s <= 1.0 && Le(ProjectionParameter(p, a, b), Zero)
    ensures Le(DistanceSquared(p, a), DistanceSquared(p, Lerp(Fin(s), a, b)))
  {
    var q, d, l := SegmentQuantities(p, a, b, s, s);
    NearestBelow(q, d, l, s, d / l);
  }

  lemma NearestIsEnd(p: PointF, a: PointF, b: PointF, s: real)
    requires IsFinitePoint(p) && IsFinitePoint(a) && IsFinitePoint(b) && a != b
    requires 0.0 <= s <= 1.0 && Ge(ProjectionParameter(p, a, b), One)
    ensures Le(DistanceSquared(p, b), DistanceSquared(p, Lerp(Fin(s), a, b)))
  {
    var q, d, l := SegmentQuantities(p, a, b, s, s);
    NearestAbove(q, d, l, s, d / l);
  }

  lemma NearestIsProjection(p: PointF, a: PointF, b: PointF, s: real)
    requires IsFinitePoint(p) && IsFinitePoint(a) && IsFinitePoint(b) && a != b
    ensures var t := ProjectionParameter(p, a, b);
      Le(DistanceSquared(p, Lerp(t, a, b)), DistanceSquared(p, Lerp(Fin(s), a, b)))
  {
    var q, d, l := SegmentQuantities(p, a, b, s, 0.0);
    var t := d / l;
    var q', d', l' := SegmentQuantities(p, a, b, s, t);
    assert q' == q && l' == l && d' == d;
    NearestBetween(q, d, l, s, t);
  }

  /** Over a segment with distinct finite ends, the value is the squared
      distance to the point at `NearestParameter`, which lies in `[0, 1]`. */
  lemma SegmentDistanceIsAttained(p: PointF, a: PointF, b: PointF)
    requires IsFinitePoint(p) && IsFinitePoint(a) && IsFinitePoint(b) && a != b
    ensures var s := NearestParameter(p, a, b);
      IsFinite(s) && Le(Zero, s) && Le(s, One) &&
      SegmentDistanceSquaredAsWritten(p, a, b) == DistanceSquared(p, Lerp(s, a, b))
  {
    var q, d, l := SegmentQuantities(p, a, b, 0.0, 0.0);
    LerpEndpoints(a, b);
  }

  lemma Distribute(x: real, w: real, s: real)
    requires w == 1.0 + -s
    ensures x * w + x * s == x
  {
  }

  /** A segment whose ends coincide is the single point `a`. */
  lemma LerpDegenerate(s: Float, a: PointF)
    requires IsFinite(s) && IsFinitePoint(a)
    ensures Lerp(s, a, a) == a
  {
    var a0, a1, sr := a.x.r, a.y.r, s.r;
    assert a == Pt(a0, a1) && s == Fin(sr);
    LerpOf(a0, a1, a0, a1, sr, 1.0 + -sr);
    Distribute(a0, 1.0 + -sr, sr);
    Distribute(a1, 1.0 + -sr, sr);
  }

  /** The squared distance between finite points is a finite value at
      least zero. */
  lemma DistanceSquaredFinite(p: PointF, a: PointF)
    requires IsFinitePoint(p) && IsFinitePoint(a)
    ensures IsFinite(DistanceSquared(p, a)) && Ge(DistanceSquared(p, a), Zero)
  {
    var u0, u1 := p.x.r + -a.x.r, p.y.r + -a.y.r;
    assert Minus(p, a) == Pt(u0, u1);
    LengthSquaredOf(u0, u1);
    LengthSquaredNotNegative(Minus(p, a));
  }

  /** A segment has squared length zero exactly when its finite ends
      coincide. */
  lemma SegmentLengthZero(a: PointF)
    requires IsFinitePoint(a)
    ensures LengthSquared(Minus(a, a)) == Zero
  {
    assert Minus(a, a) == Pt(0.0, 0.0);
    LengthSquaredOf(0.0, 0.0);
  }

  lemma SegmentLengthPositive(a: PointF, b: PointF)
    requires IsFinitePoint(a) && IsFinitePoint(b) && a != b
    ensures LengthSquared(Minus(b, a)) != Zero
  {
    var a0, a1, b0, b1 := a.x.r, a.y.r, b.x.r, b.y.r;
    assert a == Pt(a0, a1) && b == Pt(b0, b1);
    var u0, u1 := b0 + -a0, b1 + -a1;
    assert u0 != 0.0 || u1 != 0.0;
    MinusOf(b0, b1, a0, a1);
    LengthSquaredOf(u0, u1);
    QuadPositive(u0, u1);
  }

  /** For all finite inputs, the corrected value is no larger than the
      squared distance from `p` to any point of the segment. */
  lemma SegmentDistanceSquaredIsMinimal(p: PointF, a: PointF, b: PointF, s: Float)
    requires IsFinitePoint(p) && IsFinitePoint(a) && IsFinitePoint(b)
    requires IsFinite(s) && Le(Zero, s) && Le(s, One)
    ensures Le(SegmentDistanceSquared(p, a, b), DistanceSquared(p, Lerp(s, a, b)))
  {
    if a == b {
      SegmentLengthZero(a);
      LerpDegenerate(s, a);
      DistanceSquaredFinite(p, a);
    } else {
      SegmentLengthPositive(a, b);
      SegmentDistanceIsMinimal(p, a, b, s);
    }
  }

  /** For all finite inputs, the corrected value is finite, at least zero,
      and the squared distance to some point of the segment. */
  lemma SegmentDistanceSquaredIsAttained(p: PointF, a: PointF, b: PointF)
    requires IsFinitePoint(p) && IsFinitePoint(a) && IsFinitePoint(b)
    ensures IsFinite(SegmentDistanceSquared(p, a, b)) && Ge(SegmentDistanceSquared(p, a, b), Zero)
    ensures exists s :: (IsFinite(s) && Le(Zero, s) && Le(s, One) &&
      SegmentDistanceSquared(p, a, b) == DistanceSquared(p, Lerp(s, a, b)))
  {
    var s;
    if a == b {
      SegmentLengthZero(a);
      s := Zero;
      LerpDegenerate(s, a);
    } else {
      SegmentLengthPositive(a, b);
      s := NearestParameter(p, a, b);
      SegmentDistanceIsAttained(p, a, b);
    }
    assert IsFinitePoint(Lerp(s, a, b)) by {
      var s0, a0, a1, b0, b1 := s.r, a.x.r, a.y.r, b.x.r, b.y.r;
      assert s == Fin(s0) && a == Pt(a0, a1) && b == Pt(b0, b1);
      LerpOf(a0, a1, b0, b1, s0, 1.0 + -s0);
    }
    DistanceSquaredFinite(p, Lerp(s, a, b));
  }
}
