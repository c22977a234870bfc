/** The vector classes `Vec2`, `Vec3` and `Vec4`. Each object owns a fixed-size
    component array `m_v` (VecBase's field); the members a class inherits from
    VecBase (indexer, `SetZero`, `Clamp`, `LengthSquared`, the `IsAny*` tests,
    `ToString`) are the array methods of module `VecBase` applied to `m_v`.
    The three classes refer to one another, so they share one module. */
module Vectors {
  import opened Floats
  import VecBase
  import Complexes

  // ---------------------------------------------------------------------------
  // Values behind the cross products

  /** `v` followed by zeros up to `n` components: a vector read in a larger space. */
  function Widened(v: seq<Float>, n: nat): (r: seq<Float>)
    requires |v| <= n
    ensures |r| == n && r[..|v|] == v
    ensures forall i :: |v| <= i < n ==> r[i] == Zero
  {
    v + VecBase.Zeros(n - |v|)
  }

  /** The cross product of two 3-component vectors, as `Vec3.Cross(Vec3, Vec3)` computes it. */
  function CrossProduct(a: seq<Float>, b: seq<Float>): (r: seq<Float>)
    requires |a| == 3 && |b| == 3
    ensures |r| == 3
  {
    [Sub(Mul(a[1], b[2]), Mul(b[1], a[2])),
     Sub(Mul(a[2], b[0]), Mul(b[2], a[0])),
     Sub(Mul(a[0], b[1]), Mul(b[0], a[1]))]
  }

  /** `Vec3.Cross(Vec3 a, Vec2 b)`: the planar operand's missing z is taken as 0
      and the terms it would zero are dropped. */
  function CrossWithPlanar(a: seq<Float>, b: seq<Float>): (r: seq<Float>)
    requires |a| == 3 && |b| == 2
    ensures |r| == 3
  {
    [Mul(Neg(b[1]), a[2]),
     Mul(a[2], b[0]),
     Sub(Mul(a[0], b[1]), Mul(b[0], a[1]))]
  }

  /** `Vec3.Cross(Vec2 a, Vec3 b)`, simplified in the same way. */
  function PlanarCrossWith(a: seq<Float>, b: seq<Float>): (r: seq<Float>)
    requires |a| == 2 && |b| == 3
    ensures |r| == 3
  {
    [Mul(a[1], b[2]),
     Mul(Neg(b[2]), a[0]),
     Sub(Mul(a[0], b[1]), Mul(b[0], a[1]))]
  }

  /** Swapping the operands negates the cross product, special values included. */
  lemma CrossAnticommutes(a: seq<Float>, b: seq<Float>)
    requires |a| == 3 && |b| == 3
    ensures CrossProduct(b, a) == VecBase.Negate(CrossProduct(a, b))
  {
    var c, d := CrossProduct(a, b), CrossProduct(b, a);
    SubAntisymmetric(Mul(a[1], b[2]), Mul(b[1], a[2]));
    SubAntisymmetric(Mul(a[2], b[0]), Mul(b[2], a[0]));
    SubAntisymmetric(Mul(a[0], b[1]), Mul(b[0], a[1]));
    assert d == [Neg(c[0]), Neg(c[1]), Neg(c[2])];
  }

  /** A finite vector crossed with itself is the zero vector. */
  lemma CrossSelfIsZero(a: seq<Float>)
    requires |a| == 3 && VecBase.AllFinite(a)
    ensures CrossProduct(a, a) == VecBase.Zeros(3)
  {
    assert IsFinite(a[0]) && IsFinite(a[1]) && IsFinite(a[2]);
    assert CrossProduct(a, a) == [Zero, Zero, Zero];
  }

  /** The dot product of two 3-component vectors, written out in loop order. */
  lemma DotProduct3(a: seq<Float>, b: seq<Float>)
    requires |a| == 3 && |b| == 3
    ensures VecBase.DotProduct(a, b) == Add(Add(Add(Zero, Mul(a[0], b[0])), Mul(a[1], b[1])), Mul(a[2], b[2]))
  {
    assert a[..2][..1] == a[..1] && b[..2][..1] == b[..1];
    assert a[..1][..0] == [] && b[..1][..0] == [];
    assert VecBase.DotProduct(a[..1], b[..1]) == Add(Zero, Mul(a[0], b[0]));
    assert VecBase.DotProduct(a[..2], b[..2]) == Add(VecBase.DotProduct(a[..1], b[..1]), Mul(a[1], b[1]));
  }

  /** The cross product is orthogonal to both finite operands. */
  lemma CrossOrthogonal(a: seq<Float>, b: seq<Float>)
    requires |a| == 3 && |b| == 3 && VecBase.AllFinite(a) && VecBase.AllFinite(b)
    ensures VecBase.DotProduct(a, CrossProduct(a, b)) == Zero
    ensures VecBase.DotProduct(b, CrossProduct(a, b)) == Zero
  {
    assert IsFinite(a[0]) && IsFinite(a[1]) && IsFinite(a[2]);
    assert IsFinite(b[0]) && IsFinite(b[1]) && IsFinite(b[2]);
    var x0, x1, x2, y0, y1, y2 := a[0].r, a[1].r, a[2].r, b[0].r, b[1].r, b[2].r;
    assert a == [Fin(x0), Fin(x1), Fin(x2)] && b == [Fin(y0), Fin(y1), Fin(y2)];
    FirstOrthogonal(x0, x1, x2, y0, y1, y2);
    SecondOrthogonal(x0, x1, x2, y0, y1, y2);
  }

  /** The cross product of finite vectors, on the real parts. */
  lemma CrossOfFinite(x0: real, x1: real, x2: real, y0: real, y1: real, y2: real)
    ensures CrossProduct([Fin(x0), Fin(x1), Fin(x2)], [Fin(y0), Fin(y1), Fin(y2)])
         == [Fin(x1 * y2 + -(y1 * x2)), Fin(x2 * y0 + -(y2 * x0)), Fin(x0 * y1 + -(y0 * x1))]
  {
    MulFinite(x1, y2); MulFinite(y1, x2);
    MulFinite(x2, y0); MulFinite(y2, x0);
    MulFinite(x0, y1); MulFinite(y0, x1);
  }

  /** The dot product of two finite 3-component vectors, on the real parts. */
  lemma DotOfFinite(x0: real, x1: real, x2: real, c0: real, c1: real, c2: real)
    ensures VecBase.DotProduct([Fin(x0), Fin(x1), Fin(x2)], [Fin(c0), Fin(c1), Fin(c2)])
         == Fin(0.0 + x0 * c0 + x1 * c1 + x2 * c2)
  {
    DotProduct3([Fin(x0), Fin(x1), Fin(x2)], [Fin(c0), Fin(c1), Fin(c2)]);
  }

  lemma FirstOrthogonal(x0: real, x1: real, x2: real, y0: real, y1: real, y2: real)
    ensures VecBase.DotProduct([Fin(x0), Fin(x1), Fin(x2)],
                               CrossProduct([Fin(x0), Fin(x1), Fin(x2)], [Fin(y0), Fin(y1), Fin(y2)])) == Zero
  {
    CrossOfFinite(x0, x1, x2, y0, y1, y2);
    DotOfFinite(x0, x1, x2, x1 * y2 + -(y1 * x2), x2 * y0 + -(y2 * x0), x0 * y1 + -(y0 * x1));
    TripleProductVanishes(x0, x1, x2, y0, y1, y2);
  }

  lemma SecondOrthogonal(x0: real, x1: real, x2: real, y0: real, y1: real, y2: real)
    ensures VecBase.DotProduct([Fin(y0), Fin(y1), Fin(y2)],
                               CrossProduct([Fin(x0), Fin(x1), Fin(x2)], [Fin(y0), Fin(y1), Fin(y2)])) == Zero
  {
    CrossOfFinite(x0, x1, x2, y0, y1, y2);
    DotOfFinite(y0, y1, y2, x1 * y2 + -(y1 * x2), x2 * y0 + -(y2 * x0), x0 * y1 + -(y0 * x1));
    TripleProductVanishes(x0, x1, x2, y0, y1, y2);
  }

  /** The two triple products behind `CrossOrthogonal`, on the real parts. */
  lemma TripleProductVanishes(x0: real, x1: real, x2: real, y0: real, y1: real, y2: real)
    ensures 0.0 + x0 * (x1 * y2 + -(y1 * x2)) + x1 * (x2 * y0 + -(y2 * x0)) + x2 * (x0 * y1 + -(y0 * x1)) == 0.0
    ensures 0.0 + y0 * (x1 * y2 + -(y1 * x2)) + y1 * (x2 * y0 + -(y2 * x0)) + y2 * (x0 * y1 + -(y0 * x1)) == 0.0
  {
  }

  /** `Vec3.Cross(Vec3, Vec2)` is the full cross product with the planar operand
      widened by a zero z, for finite components. */
  lemma CrossWithPlanarIsWidened(a: seq<Float>, b: seq<Float>)
    requires |a| == 3 && |b| == 2 && VecBase.AllFinite(a) && VecBase.AllFinite(b)
    ensures CrossWithPlanar(a, b) == CrossProduct(a, Widened(b, 3))
  {
    assert IsFinite(a[0]) && IsFinite(a[1]) && IsFinite(a[2]);
    assert IsFinite(b[0]) && IsFinite(b[1]);
    var w := Widened(b, 3);
    assert w == [b[0], b[1], Zero];
    DroppedTerms(a[1].r, b[1].r, a[2].r);
    DroppedTerms(a[0].r, b[0].r, a[2].r);
    var l, r := CrossWithPlanar(a, b), CrossProduct(a, w);
    assert l[0] == r[0];
    assert l[1] == r[1];
    assert l[2] == r[2];
  }

  /** `Vec3.Cross(Vec2, Vec3)` is the full cross product with the planar operand
      widened by a zero z, for finite components. */
  lemma PlanarCrossWithIsWidened(a: seq<Float>, b: seq<Float>)
    requires |a| == 2 && |b| == 3 && VecBase.AllFinite(a) && VecBase.AllFinite(b)
    ensures PlanarCrossWith(a, b) == CrossProduct(Widened(a, 3), b)
  {
    assert IsFinite(a[0]) && IsFinite(a[1]);
    assert IsFinite(b[0]) && IsFinite(b[1]) && IsFinite(b[2]);
    var w := Widened(a, 3);
    assert w == [a[0], a[1], Zero];
    DroppedTerms(b[1].r, a[1].r, b[2].r);
    DroppedTerms(b[0].r, a[0].r, b[2].r);
    var l, r := PlanarCrossWith(a, b), CrossProduct(w, b);
    assert l[0] == r[0];
    assert l[1] == r[1];
    assert l[2] == r[2];
  }

  /** A product with a zero factor drops out of a difference. */
  lemma DroppedTerms(x: real, y: real, z: real)
    ensures x * 0.0 + -(y * z) == (-y) * z
    ensures z * y + -(0.0 * x) == z * y
    ensures y * z + -(x * 0.0) == y * z
    ensures 0.0 * x + -(z * y) == (-z) * y
  {
  }

  // ---------------------------------------------------------------------------
  // Vec2

  class Vec2 {
    const m_v: array<Float>

    /** The component array always holds exactly two values. */
    predicate Valid() {
      m_v.Length == 2
    }

    function Value(): seq<Float>
      reads m_v
    {
      m_v[..]
    }

    function X(): Float
      requires Valid()
      reads m_v
    {
      m_v[0]
    }

    function Y(): Float
      requires Valid()
      reads m_v
    {
      m_v[1]
    }

    /** `Vec2()`: a fresh array, cleared by `SetZero`. */
    constructor ()
      ensures Valid() && fresh(m_v) && Value() == VecBase.Zeros(2)
    {
      m_v := new Float[2];
      new;
      VecBase.SetZero(m_v);
    }

    /** `Vec2(float all)`. */
    constructor Fill(all: Float)
      ensures Valid() && fresh(m_v) && Value() == [all, all]
    {
      m_v := new Float[] [all, all];
    }

    /** `Vec2(float x, float y)`. */
    constructor Of(x: Float, y: Float)
      ensures Valid() && fresh(m_v) && Value() == [x, y]
    {
      m_v := new Float[] [x, y];
    }

    /** `Vec2(Vec2 v)`: a copy that shares no storage with `v`. */
    constructor CopyOf(v: Vec2)
      requires v.Valid()
      ensures Valid() && fresh(m_v) && Value() == v.Value()
    {
      m_v := new Float[] [v.m_v[0], v.m_v[1]];
    }

    /** `Vec2(Vec3 v)`: the first two components. */
    constructor FromVec3(v: Vec3)
      requires v.Valid()
      ensures Valid() && fresh(m_v) && Value() == v.Value()[..2]
    {
      m_v := new Float[] [v.m_v[0], v.m_v[1]];
    }

    /** `Vec2(Vec4 v)`: the first two components. */
    constructor FromVec4(v: Vec4)
      requires v.Valid()
      ensures Valid() && fresh(m_v) && Value() == v.Value()[..2]
    {
      m_v := new Float[] [v.m_v[0], v.m_v[1]];
    }

    /** `Vec2(Complex z)`: the real part as x, the imaginary part as y. */
    constructor FromComplex(z: Complexes.Complex)
      ensures Valid() && fresh(m_v) && Value() == [z.Real, z.Imaginary]
    {
      m_v := new Float[] [z.Real, z.Imaginary];
    }

    /** `Set(float all)`. */
    method SetAll(all: Float)
      requires Valid()
      modifies m_v
      ensures Value() == [all, all]
    {
      m_v[0] := all;
      m_v[1] := all;
    }

    /** `Set(float x, float y)`. */
    method SetXY(x: Float, y: Float)
      requires Valid()
      modifies m_v
      ensures Value() == [x, y]
    {
      m_v[0] := x;
      m_v[1] := y;
    }

    /** `Set(Vec2 v)`: copies the components; `v` may be this very vector. */
    method SetFrom(v: Vec2)
      requires Valid() && v.Valid()
      modifies m_v
      ensures Value() == old(v.Value())
    {
      var x, y := v.m_v[0], v.m_v[1];
      m_v[0] := x;
      m_v[1] := y;
    }

    /** The setter of property `X`. */
    method SetX(value: Float)
      requires Valid()
      modifies m_v
      ensures Value() == old(Value())[0 := value]
    {
      m_v[0] := value;
    }

    /** The setter of property `Y`. */
    method SetY(value: Float)
      requires Valid()
      modifies m_v
      ensures Value() == old(Value())[1 := value]
    {
      m_v[1] := value;
    }

    /** Unary `+` returns its operand itself, not a copy. */
    static method Identity(v: Vec2) returns (r: Vec2)
      ensures r == v
    {
      r := v;
    }

    static method Plus(a: Vec2, b: Vec2) returns (r: Vec2)
      requires a.Valid() && b.Valid()
      ensures fresh(r) && fresh(r.m_v) && r.Valid()
      ensures r.Value() == VecBase.Plus(a.Value(), b.Value())
    {
      r := new Vec2.Of(Add(a.X(), b.X()), Add(a.Y(), b.Y()));
    }

    static method Negate(v: Vec2) returns (r: Vec2)
      requires v.Valid()
      ensures fresh(r) && fresh(r.m_v) && r.Valid()
      ensures r.Value() == VecBase.Negate(v.Value())
    {
      r := new Vec2.Of(Neg(v.X()), Neg(v.Y()));
    }

    static method Minus(a: Vec2, b: Vec2) returns (r: Vec2)
      requires a.Valid() && b.Valid()
      ensures fresh(r) && fresh(r.m_v) && r.Valid()
      ensures r.Value() == VecBase.Minus(a.Value(), b.Value())
    {
      r := new Vec2.Of(Sub(a.X(), b.X()), Sub(a.Y(), b.Y()));
    }

    /** `v * s`. */
    static method Times(v: Vec2, s: Float) returns (r: Vec2)
      requires v.Valid()
      ensures fresh(r) && fresh(r.m_v) && r.Valid()
      ensures r.Value() == VecBase.Times(v.Value(), s)
    {
      r := new Vec2.Of(Mul(v.X(), s), Mul(v.Y(), s));
    }

    /** `s * v`. */
    static method TimesLeft(s: Float, v: Vec2) returns (r: Vec2)
      requires v.Valid()
      ensures fresh(r) && fresh(r.m_v) && r.Valid()
      ensures r.Value() == VecBase.TimesLeft(s, v.Value())
    {
      r := new Vec2.Of(Mul(s, v.X()), Mul(s, v.Y()));
    }

    /** `v / s`. */
    static method Over(v: Vec2, s: Float) returns (r: Vec2)
      requires v.Valid()
      ensures fresh(r) && fresh(r.m_v) && r.Valid()
      ensures r.Value() == VecBase.Over(v.Value(), s)
    {
      r := new Vec2.Of(Div(v.X(), s), Div(v.Y(), s));
    }

    static method Dot(a: Vec2, b: Vec2) returns (r: Float)
      requires a.Valid() && b.Valid()
      ensures r == VecBase.DotProduct(a.Value(), b.Value())
    {
      r := VecBase.Dot(a.m_v, b.m_v);
    }

    /** The signed area spanned by `a` and `b`: the z of their cross product. */
    static function RotDir(a: Vec2, b: Vec2): Float
      requires a.Valid() && b.Valid()
      reads a.m_v, b.m_v
    {
      Sub(Mul(a.X(), b.Y()), Mul(b.X(), a.Y()))
    }

    /** The planar cross product: a 3-D vector along z. */
    static method Cross(a: Vec2, b: Vec2) returns (r: Vec3)
      requires a.Valid() && b.Valid()
      ensures fresh(r) && fresh(r.m_v) && r.Valid()
      ensures r.Value() == [Zero, Zero, RotDir(a, b)]
    {
      r := new Vec3.Of(Zero, Zero, RotDir(a, b));
    }

    static method DistanceSquared(a: Vec2, b: Vec2) returns (r: Float)
      requires a.Valid() && b.Valid()
      ensures r == VecBase.SquaredDistance(a.Value(), b.Value())
    {
      r := VecBase.DistanceSquared(a.m_v, b.m_v);
    }

    /** Scales the vector in place by 1 / length; `sqrt` is the square root
        the library takes from `System.Math`. */
    method Normalize(sqrt: Float -> Float)
      requires Valid()
      modifies m_v
      ensures Value() == VecBase.Times(old(Value()), Div(One, sqrt(VecBase.DotProduct(old(Value()), old(Value())))))
    {
      var lengthSquared := VecBase.LengthSquared(m_v);
      var factor := Div(One, sqrt(lengthSquared));
      m_v[0] := Mul(m_v[0], factor);
      m_v[1] := Mul(m_v[1], factor);
    }

    /** A fresh vector: this one divided by its length. */
    method GetNormalized(sqrt: Float -> Float) returns (r: Vec2)
      requires Valid()
      ensures fresh(r) && fresh(r.m_v) && r.Valid()
      ensures r.Value() == VecBase.Over(Value(), sqrt(VecBase.DotProduct(Value(), Value())))
    {
      var lengthSquared := VecBase.LengthSquared(m_v);
      r := Over(this, sqrt(lengthSquared));
    }

    method Copy() returns (r: Vec2)
      requires Valid()
      ensures fresh(r) && fresh(r.m_v) && r.Valid() && r.Value() == Value()
    {
      r := new Vec2.CopyOf(this);
    }
  }

  /** Swapping the operands of `RotDir` negates it, special values included. */
  lemma RotDirAntisymmetric(a: Vec2, b: Vec2)
    requires a.Valid() && b.Valid()
    ensures Vec2.RotDir(b, a) == Neg(Vec2.RotDir(a, b))
  {
    SubAntisymmetric(Mul(a.X(), b.Y()), Mul(b.X(), a.Y()));
  }

  /** A finite vector has no rotation relative to itself. */
  lemma RotDirOfSelf(a: Vec2)
    requires a.Valid() && VecBase.AllFinite(a.Value())
    ensures Vec2.RotDir(a, a) == Zero
  {
    assert IsFinite(a.X()) && IsFinite(a.Y());
  }

  /** `Vec2.Cross` is the 3-D cross product of the operands widened by a zero z,
      for finite components. */
  lemma PlanarCrossIsWidened(a: Vec2, b: Vec2)
    requires a.Valid() && b.Valid() && VecBase.AllFinite(a.Value()) && VecBase.AllFinite(b.Value())
    ensures CrossProduct(Widened(a.Value(), 3), Widened(b.Value(), 3)) == [Zero, Zero, Vec2.RotDir(a, b)]
  {
    assert IsFinite(a.X()) && IsFinite(a.Y()) && IsFinite(b.X()) && IsFinite(b.Y());
    var u, w := Widened(a.Value(), 3), Widened(b.Value(), 3);
    assert u == [a.X(), a.Y(), Zero] && w == [b.X(), b.Y(), Zero];
    ZeroProducts(a.Y().r, b.Y().r);
    ZeroProducts(b.X().r, a.X().r);
    var c := CrossProduct(u, w);
    assert c[0] == Zero;
    assert c[1] == Zero;
  }

  /** Products with a zero factor cancel in a difference. */
  lemma ZeroProducts(x: real, y: real)
    ensures x * 0.0 + -(y * 0.0) == 0.0
    ensures 0.0 * x + -(0.0 * y) == 0.0
  {
  }

  // ---------------------------------------------------------------------------
  // Vec3

  class Vec3 {
    const m_v: array<Float>

    /** The component array always holds exactly three values. */
    predicate Valid() {
      m_v.Length == 3
    }

    function Value(): seq<Float>
      reads m_v
    {
      m_v[..]
    }

    function X(): Float
      requires Valid()
      reads m_v
    {
      m_v[0]
    }

    function Y(): Float
      requires Valid()
      reads m_v
    {
      m_v[1]
    }

    function Z(): Float
      requires Valid()
      reads m_v
    {
      m_v[2]
    }

    /** `Vec3()`: a fresh array, cleared by `SetZero`. */
    constructor ()
      ensures Valid() && fresh(m_v) && Value() == VecBase.Zeros(3)
    {
      m_v := new Float[3];
      new;
      VecBase.SetZero(m_v);
    }

    /** `Vec3(float all)`. */
    constructor Fill(all: Float)
      ensures Valid() && fresh(m_v) && Value() == [all, all, all]
    {
      m_v := new Float[] [all, all, all];
    }

    /** `Vec3(float x, float y, float z)`. */
    constructor Of(x: Float, y: Float, z: Float)
      ensures Valid() && fresh(m_v) && Value() == [x, y, z]
    {
      m_v := new Float[] [x, y, z];
    }

    /** `Vec3(Vec2 v)`: z becomes 0. */
    constructor FromVec2(v: Vec2)
      requires v.Valid()
      ensures Valid() && fresh(m_v) && Value() == Widened(v.Value(), 3)
    {
      m_v := new Float[] [v.m_v[0], v.m_v[1], Zero];
    }

    /** `Vec3(Vec3 v)`: a copy that shares no storage with `v`. */
    constructor CopyOf(v: Vec3)
      requires v.Valid()
      ensures Valid() && fresh(m_v) && Value() == v.Value()
    {
      m_v := new Float[] [v.m_v[0], v.m_v[1], v.m_v[2]];
    }

    /** `Vec3(Vec4 v)`: the first three components. */
    constructor FromVec4(v: Vec4)
      requires v.Valid()
      ensures Valid() && fresh(m_v) && Value() == v.Value()[..3]
    {
      m_v := new Float[] [v.m_v[0], v.m_v[1], v.m_v[2]];
    }

    /** `Set(float all)`. */
    method SetAll(all: Float)
      requires Valid()
      modifies m_v
      ensures Value() == [all, all, all]
    {
      m_v[0] := all;
      m_v[1] := all;
      m_v[2] := all;
    }

    /** `Set(float x, float y, float z)`. */
    method SetXYZ(x: Float, y: Float, z: Float)
      requires Valid()
      modifies m_v
      ensures Value() == [x, y, z]
    {
      m_v[0] := x;
      m_v[1] := y;
      m_v[2] := z;
    }

    /** `Set(Vec3 v)`: copies the components; `v` may be this very vector. */
    method SetFrom(v: Vec3)
      requires Valid() && v.Valid()
      modifies m_v
      ensures Value() == old(v.Value())
    {
      var x, y, z := v.m_v[0], v.m_v[1], v.m_v[2];
      m_v[0] := x;
      m_v[1] := y;
      m_v[2] := z;
    }

    /** The setter of property `X`. */
    method SetX(value: Float)
      requires Valid()
      modifies m_v
      ensures Value() == old(Value())[0 := value]
    {
      m_v[0] := value;
    }

    /** The setter of property `Y`. */
    method SetY(value: Float)
      requires Valid()
      modifies m_v
      ensures Value() == old(Value())[1 := value]
    {
      m_v[1] := value;
    }

    /** The setter of property `Z`. */
    method SetZ(value: Float)
      requires Valid()
      modifies m_v
      ensures Value() == old(Value())[2 := value]
    {
      m_v[2] := value;
    }

    /** Unary `+` returns its operand itself, not a copy. */
    static method Identity(v: Vec3) returns (r: Vec3)
      ensures r == v
    {
      r := v;
    }

    static method Plus(a: Vec3, b: Vec3) returns (r: Vec3)
      requires a.Valid() && b.Valid()
      ensures fresh(r) && fresh(r.m_v) && r.Valid()
      ensures r.Value() == VecBase.Plus(a.Value(), b.Value())
    {
      r := new Vec3.Of(Add(a.X(), b.X()), Add(a.Y(), b.Y()), Add(a.Z(), b.Z()));
    }

    static method Negate(v: Vec3) returns (r: Vec3)
      requires v.Valid()
      ensures fresh(r) && fresh(r.m_v) && r.Valid()
      ensures r.Value() == VecBase.Negate(v.Value())
    {
      r := new Vec3.Of(Neg(v.X()), Neg(v.Y()), Neg(v.Z()));
    }

    static method Minus(a: Vec3, b: Vec3) returns (r: Vec3)
      requires a.Valid() && b.Valid()
      ensures fresh(r) && fresh(r.m_v) && r.Valid()
      ensures r.Value() == VecBase.Minus(a.Value(), b.Value())
    {
      r := new Vec3.Of(Sub(a.X(), b.X()), Sub(a.Y(), b.Y()), Sub(a.Z(), b.Z()));
    }

    /** `v * s`. */
    static method Times(v: Vec3, s: Float) returns (r: Vec3)
      requires v.Valid()
      ensures fresh(r) && fresh(r.m_v) && r.Valid()
      ensures r.Value() == VecBase.Times(v.Value(), s)
    {
      r := new Vec3.Of(Mul(v.X(), s), Mul(v.Y(), s), Mul(v.Z(), s));
    }

    /** `s * v`. */
    static method TimesLeft(s: Float, v: Vec3) returns (r: Vec3)
      requires v.Valid()
      ensures fresh(r) && fresh(r.m_v) && r.Valid()
      ensures r.Value() == VecBase.TimesLeft(s, v.Value())
    {
      r := new Vec3.Of(Mul(s, v.X()), Mul(s, v.Y()), Mul(s, v.Z()));
    }

    /** `v / s`. */
    static method Over(v: Vec3, s: Float) returns (r: Vec3)
      requires v.Valid()
      ensures fresh(r) && fresh(r.m_v) && r.Valid()
      ensures r.Value() == VecBase.Over(v.Value(), s)
    {
      r := new Vec3.Of(Div(v.X(), s), Div(v.Y(), s), Div(v.Z(), s));
    }

    static method Dot(a: Vec3, b: Vec3) returns (r: Float)
      requires a.Valid() && b.Valid()
      ensures r == VecBase.DotProduct(a.Value(), b.Value())
    {
      r := VecBase.Dot(a.m_v, b.m_v);
    }

    static method Cross(a: Vec3, b: Vec3) returns (r: Vec3)
      requires a.Valid() && b.Valid()
      ensures fresh(r) && fresh(r.m_v) && r.Valid()
      ensures r.Value() == CrossProduct(a.Value(), b.Value())
    {
      r := new Vec3.Of(
        Sub(Mul(a.Y(), b.Z()), Mul(b.Y(), a.Z())),
        Sub(Mul(a.Z(), b.X()), Mul(b.Z(), a.X())),
        Sub(Mul(a.X(), b.Y()), Mul(b.X(), a.Y())));
    }

    /** `Cross(Vec3 a, Vec2 b)`. */
    static method CrossVec3Vec2(a: Vec3, b: Vec2) returns (r: Vec3)
      requires a.Valid() && b.Valid()
      ensures fresh(r) && fresh(r.m_v) && r.Valid()
      ensures r.Value() == CrossWithPlanar(a.Value(), b.Value())
    {
      r := new Vec3.Of(
        Mul(Neg(b.Y()), a.Z()),
        Mul(a.Z(), b.X()),
        Sub(Mul(a.X(), b.Y()), Mul(b.X(), a.Y())));
    }

    /** `Cross(Vec2 a, Vec3 b)`. */
    static method CrossVec2Vec3(a: Vec2, b: Vec3) returns (r: Vec3)
      requires a.Valid() && b.Valid()
      ensures fresh(r) && fresh(r.m_v) && r.Valid()
      ensures r.Value() == PlanarCrossWith(a.Value(), b.Value())
    {
      r := new Vec3.Of(
        Mul(a.Y(), b.Z()),
        Mul(Neg(b.Z()), a.X()),
        Sub(Mul(a.X(), b.Y()), Mul(b.X(), a.Y())));
    }

    static method DistanceSquared(a: Vec3, b: Vec3) returns (r: Float)
      requires a.Valid() && b.Valid()
      ensures r == VecBase.SquaredDistance(a.Value(), b.Value())
    {
      r := VecBase.DistanceSquared(a.m_v, b.m_v);
    }

    /** Scales the vector in place by 1 / length; `sqrt` is the square root
        the library takes from `System.Math`. */
    method Normalize(sqrt: Float -> Float)
      requires Valid()
      modifies m_v
      ensures Value() == VecBase.Times(old(Value()), Div(One, sqrt(VecBase.DotProduct(old(Value()), old(Value())))))
    {
      var lengthSquared := VecBase.LengthSquared(m_v);
      var factor := Div(One, sqrt(lengthSquared));
      m_v[0] := Mul(m_v[0], factor);
      m_v[1] := Mul(m_v[1], factor);
      m_v[2] := Mul(m_v[2], factor);
    }

    /** A fresh vector: this one divided by its length. */
    method GetNormalized(sqrt: Float -> Float) returns (r: Vec3)
      requires Valid()
      ensures fresh(r) && fresh(r.m_v) && r.Valid()
      ensures r.Value() == VecBase.Over(Value(), sqrt(VecBase.DotProduct(Value(), Value())))
    {
      var lengthSquared := VecBase.LengthSquared(m_v);
      r := Over(this, sqrt(lengthSquared));
    }

    method Copy() returns (r: Vec3)
      requires Valid()
      ensures fresh(r) && fresh(r.m_v) && r.Valid() && r.Value() == Value()
    {
      r := new Vec3.CopyOf(this);
    }
  }

  // ---------------------------------------------------------------------------
  // Vec4

  class Vec4 {
    const m_v: array<Float>

    /** The component array always holds exactly four values. */
    predicate Valid() {
      m_v.Length == 4
    }

    function Value(): seq<Float>
      reads m_v
    {
      m_v[..]
    }

    function X(): Float
      requires Valid()
      reads m_v
    {
      m_v[0]
    }

    function Y(): Float
      requires Valid()
      reads m_v
    {
      m_v[1]
    }

    function Z(): Float
      requires Valid()
      reads m_v
    {
      m_v[2]
    }

    function W(): Float
      requires Valid()
      reads m_v
    {
      m_v[3]
    }

    /** `Vec4()`: a fresh array, cleared by `SetZero`. */
    constructor ()
      ensures Valid() && fresh(m_v) && Value() == VecBase.Zeros(4)
    {
      m_v := new Float[4];
      new;
      VecBase.SetZero(m_v);
    }

    /** `Vec4(float all)`. */
    constructor Fill(all: Float)
      ensures Valid() && fresh(m_v) && Value() == [all, all, all, all]
    {
      m_v := new Float[] [all, all, all, all];
    }

    /** `Vec4(float x, float y, float z, float w)`. */
    constructor Of(x: Float, y: Float, z: Float, w: Float)
      ensures Valid() && fresh(m_v) && Value() == [x, y, z, w]
    {
      m_v := new Float[] [x, y, z, w];
    }

    /** `Vec4(Vec2 v)`: z and w become 0. */
    constructor FromVec2(v: Vec2)
      requires v.Valid()
      ensures Valid() && fresh(m_v) && Value() == Widened(v.Value(), 4)
    {
      m_v := new Float[] [v.m_v[0], v.m_v[1], Zero, Zero];
    }

    /** `Vec4(Vec3 v)`: w becomes 0. */
    constructor FromVec3(v: Vec3)
      requires v.Valid()
      ensures Valid() && fresh(m_v) && Value() == Widened(v.Value(), 4)
    {
      m_v := new Float[] [v.m_v[0], v.m_v[1], v.m_v[2], Zero];
    }

    /** `Vec4(Vec4 v)`: a copy that shares no storage with `v`. */
    constructor CopyOf(v: Vec4)
      requires v.Valid()
      ensures Valid() && fresh(m_v) && Value() == v.Value()
    {
      m_v := new Float[] [v.m_v[0], v.m_v[1], v.m_v[2], v.m_v[3]];
    }

    /** `Set(float all)` as the library writes it: index 1 is assigned twice
        and index 3 never, so w keeps its old value. */
    method SetAllAsWritten(all: Float)
      requires Valid()
      modifies m_v
      ensures Value() == old(Value())[0 := all][1 := all][1 := all][2 := all]
    {
      m_v[0] := all;
      m_v[1] := all;
      m_v[1] := all;
      m_v[2] := all;
    }

    /** `Set(float all)` as intended: every component becomes `all`. */
    method SetAll(all: Float)
      requires Valid()
      modifies m_v
      ensures Value() == [all, all, all, all]
    {
      m_v[0] := all;
      m_v[1] := all;
      m_v[2] := all;
      m_v[3] := all;
    }

    /** `Set(float x, float y, float z, float w)` as the library writes it:
        `w` overwrites `z` at index 2 and index 3 is never assigned. */
    method SetXYZWAsWritten(x: Float, y: Float, z: Float, w: Float)
      requires Valid()
      modifies m_v
      ensures Value() == old(Value())[0 := x][1 := y][2 := z][2 := w]
    {
      m_v[0] := x;
      m_v[1] := y;
      m_v[2] := z;
      m_v[2] := w;
    }

    /** `Set(float x, float y, float z, float w)` as intended. */
    method SetXYZW(x: Float, y: Float, z: Float, w: Float)
      requires Valid()
      modifies m_v
      ensures Value() == [x, y, z, w]
    {
      m_v[0] := x;
      m_v[1] := y;
      m_v[2] := z;
      m_v[3] := w;
    }

    /** `Set(Vec4 v)`: copies the components; `v` may be this very vector. */
    method SetFrom(v: Vec4)
      requires Valid() && v.Valid()
      modifies m_v
      ensures Value() == old(v.Value())
    {
      var x, y, z, w := v.m_v[0], v.m_v[1], v.m_v[2], v.m_v[3];
      m_v[0] := x;
      m_v[1] := y;
      m_v[2] := z;
      m_v[3] := w;
    }

    /** The setter of property `X`. */
    method SetX(value: Float)
      requires Valid()
      modifies m_v
      ensures Value() == old(Value())[0 := value]
    {
      m_v[0] := value;
    }

    /** The setter of property `Y`. */
    method SetY(value: Float)
      requires Valid()
      modifies m_v
      ensures Value() == old(Value())[1 := value]
    {
      m_v[1] := value;
    }

    /** The setter of property `Z`. */
    method SetZ(value: Float)
      requires Valid()
      modifies m_v
      ensures Value() == old(Value())[2 := value]
    {
      m_v[2] := value;
    }

    /** The setter of property `W`. */
    method SetW(value: Float)
      requires Valid()
      modifies m_v
      ensures Value() == old(Value())[3 := value]
    {
      m_v[3] := value;
    }

    /** Unary `+` returns its operand itself, not a copy. */
    static method Identity(v: Vec4) returns (r: Vec4)
      ensures r == v
    {
      r := v;
    }

    static method Plus(a: Vec4, b: Vec4) returns (r: Vec4)
      requires a.Valid() && b.Valid()
      ensures fresh(r) && fresh(r.m_v) && r.Valid()
      ensures r.Value() == VecBase.Plus(a.Value(), b.Value())
    {
      r := new Vec4.Of(Add(a.X(), b.X()), Add(a.Y(), b.Y()), Add(a.Z(), b.Z()), Add(a.W(), b.W()));
    }

    static method Negate(v: Vec4) returns (r: Vec4)
      requires v.Valid()
      ensures fresh(r) && fresh(r.m_v) && r.Valid()
      ensures r.Value() == VecBase.Negate(v.Value())
    {
      r := new Vec4.Of(Neg(v.X()), Neg(v.Y()), Neg(v.Z()), Neg(v.W()));
    }

    static method Minus(a: Vec4, b: Vec4) returns (r: Vec4)
      requires a.Valid() && b.Valid()
      ensures fresh(r) && fresh(r.m_v) && r.Valid()
      ensures r.Value() == VecBase.Minus(a.Value(), b.Value())
    {
      r := new Vec4.Of(Sub(a.X(), b.X()), Sub(a.Y(), b.Y()), Sub(a.Z(), b.Z()), Sub(a.W(), b.W()));
    }

    /** `v * s`. */
    static method Times(v: Vec4, s: Float) returns (r: Vec4)
      requires v.Valid()
      ensures fresh(r) && fresh(r.m_v) && r.Valid()
      ensures r.Value() == VecBase.Times(v.Value(), s)
    {
      r := new Vec4.Of(Mul(v.X(), s), Mul(v.Y(), s), Mul(v.Z(), s), Mul(v.W(), s));
    }

    /** `s * v`. */
    static method TimesLeft(s: Float, v: Vec4) returns (r: Vec4)
      requires v.Valid()
      ensures fresh(r) && fresh(r.m_v) && r.Valid()
      ensures r.Value() == VecBase.TimesLeft(s, v.Value())
    {
      r := new Vec4.Of(Mul(s, v.X()), Mul(s, v.Y()), Mul(s, v.Z()), Mul(s, v.W()));
    }

    /** `v / s`. */
    static method Over(v: Vec4, s: Float) returns (r: Vec4)
      requires v.Valid()
      ensures fresh(r) && fresh(r.m_v) && r.Valid()
      ensures r.Value() == VecBase.Over(v.Value(), s)
    {
      r := new Vec4.Of(Div(v.X(), s), Div(v.Y(), s), Div(v.Z(), s), Div(v.W(), s));
    }

    static method Dot(a: Vec4, b: Vec4) returns (r: Float)
      requires a.Valid() && b.Valid()
      ensures r == VecBase.DotProduct(a.Value(), b.Value())
    {
      r := VecBase.Dot(a.m_v, b.m_v);
    }

    static method DistanceSquared(a: Vec4, b: Vec4) returns (r: Float)
      requires a.Valid() && b.Valid()
      ensures r == VecBase.SquaredDistance(a.Value(), b.Value())
    {
      r := VecBase.DistanceSquared(a.m_v, b.m_v);
    }

    /** Scales the vector in place by 1 / length; `sqrt` is the square root
        the library takes from `System.Math`. */
    method Normalize(sqrt: Float -> Float)
      requires Valid()
      modifies m_v
      ensures Value() == VecBase.Times(old(Value()), Div(One, sqrt(VecBase.DotProduct(old(Value()), old(Value())))))
    {
      var lengthSquared := VecBase.LengthSquared(m_v);
      var factor := Div(One, sqrt(lengthSquared));
      m_v[0] := Mul(m_v[0], factor);
      m_v[1] := Mul(m_v[1], factor);
      m_v[2] := Mul(m_v[2], factor);
      m_v[3] := Mul(m_v[3], factor);
    }

    /** A fresh vector: this one divided by its length. */
    method GetNormalized(sqrt: Float -> Float) returns (r: Vec4)
      requires Valid()
      ensures fresh(r) && fresh(r.m_v) && r.Valid()
      ensures r.Value() == VecBase.Over(Value(), sqrt(VecBase.DotProduct(Value(), Value())))
    {
      var lengthSquared := VecBase.LengthSquared(m_v);
      r := Over(this, sqrt(lengthSquared));
    }

    method Copy() returns (r: Vec4)
      requires Valid()
      ensures fresh(r) && fresh(r.m_v) && r.Valid() && r.Value() == Value()
    {
      r := new Vec4.CopyOf(this);
    }
  }

  /** The as-written `Vec4.Set(float all)` leaves w behind: from any vector whose
      w differs from `all`, the result is not the all-`all` vector. */
  lemma SetAllAsWrittenKeepsW(v: seq<Float>, all: Float)
    requires |v| == 4 && v[3] != all
    ensures v[0 := all][1 := all][1 := all][2 := all] != [all, all, all, all]
    ensures v[0 := all][1 := all][1 := all][2 := all][3] == v[3]
  {
    assert v[0 := all][1 := all][1 := all][2 := all][3] == v[3];
  }

  /** The as-written `Vec4.Set(x, y, z, w)` stores `w` where `z` belongs and keeps
      the old w: from zero, `Set(1, 2, 3, 4)` gives (1, 2, 4, 0). */
  lemma SetXYZWAsWrittenMisplacesW()
    ensures VecBase.Zeros(4)[0 := Fin(1.0)][1 := Fin(2.0)][2 := Fin(3.0)][2 := Fin(4.0)]
      == [Fin(1.0), Fin(2.0), Fin(4.0), Zero]
    ensures [Fin(1.0), Fin(2.0), Fin(4.0), Zero] != [Fin(1.0), Fin(2.0), Fin(3.0), Fin(4.0)]
  {
    var z := VecBase.Zeros(4);
    assert z == [Zero, Zero, Zero, Zero];
  }

  /** `Complex(Vec2 v)`: x becomes the real part and y the imaginary part. The
      constructor lives here because module `Complexes` cannot see the vectors. */
  method ComplexOfVec2(v: Vec2) returns (z: Complexes.Complex)
    requires v.Valid()
    ensures fresh(z) && z.Value() == Complexes.ComplexValue(v.X(), v.Y())
  {
    z := new Complexes.Complex.Of(v.m_v[0], v.m_v[1]);
  }

  // ---------------------------------------------------------------------------
  // Round trips through the conversions

  /** A `Vec2` read as a complex number and back is the same vector. */
  method Vec2ThroughComplex(v: Vec2) returns (w: Vec2)
    requires v.Valid()
    ensures fresh(w) && w.Valid() && w.Value() == v.Value()
  {
    var z := ComplexOfVec2(v);
    w := new Vec2.FromComplex(z);
  }

  /** Widening a `Vec2` to a `Vec3` or a `Vec4` and narrowing it back restores it. */
  method Vec2ThroughLargerVectors(v: Vec2) returns (w3: Vec2, w4: Vec2)
    requires v.Valid()
    ensures fresh(w3) && w3.Valid() && w3.Value() == v.Value()
    ensures fresh(w4) && w4.Valid() && w4.Value() == v.Value()
  {
    var v3 := new Vec3.FromVec2(v);
    w3 := new Vec2.FromVec3(v3);
    var v4 := new Vec4.FromVec2(v);
    w4 := new Vec2.FromVec4(v4);
  }

  /** Widening a `Vec3` to a `Vec4` and narrowing it back restores it. */
  method Vec3ThroughVec4(v: Vec3) returns (w: Vec3)
    requires v.Valid()
    ensures fresh(w) && w.Valid() && w.Value() == v.Value()
  {
    var v4 := new Vec4.FromVec3(v);
    w := new Vec3.FromVec4(v4);
  }

  // ---------------------------------------------------------------------------
  // Normalization

  /** The dot product of finite vectors is finite. */
  lemma {:induction false} FiniteDotProduct(a: seq<Float>, b: seq<Float>)
    requires |a| == |b| && VecBase.AllFinite(a) && VecBase.AllFinite(b)
    ensures IsFinite(VecBase.DotProduct(a, b))
    decreases |a|
  {
    if |a| > 0 {
      var n := |a|;
      assert VecBase.AllFinite(a[..n - 1]) && VecBase.AllFinite(b[..n - 1]);
      FiniteDotProduct(a[..n - 1], b[..n - 1]);
      assert IsFinite(a[n - 1]) && IsFinite(b[n - 1]);
    }
  }

  /** The real values of a finite vector's components. */
  function Parts(v: seq<Float>): (r: seq<real>)
    requires VecBase.AllFinite(v)
    ensures |r| == |v| && forall i :: 0 <= i < |v| ==> v[i] == Fin(r[i])
  {
    seq(|v|, i requires 0 <= i < |v| => v[i].r)
  }

  /** Each of `xs` divided by `s`. */
  function Divided(xs: seq<real>, s: real): (r: seq<real>)
    requires s != 0.0
    ensures |r| == |xs|
  {
    seq(|xs|, i requires 0 <= i < |xs| => xs[i] / s)
  }

  /** The sum of the squares, accumulated from the front as `DotProduct` does. */
  function SumOfSquares(xs: seq<real>): real {
    if |xs| == 0 then 0.0 else SumOfSquares(xs[..|xs| - 1]) + xs[|xs| - 1] * xs[|xs| - 1]
  }

  /** The squared length of a finite vector is the sum of the squares of its parts. */
  lemma {:induction false} SelfDotIsSumOfSquares(v: seq<Float>)
    requires VecBase.AllFinite(v)
    ensures VecBase.DotProduct(v, v) == Fin(SumOfSquares(Parts(v)))
  {
    if |v| > 0 {
      var n := |v|;
      var u := v[..n - 1];
      assert VecBase.AllFinite(u);
      assert Parts(u) == Parts(v)[..n - 1];
      SelfDotIsSumOfSquares(u);
      assert v[n - 1] == Fin(Parts(v)[n - 1]);
      MulFinite(Parts(v)[n - 1], Parts(v)[n - 1]);
    }
  }

  /** Dividing a finite vector by a finite non-zero `s` divides each part by `s`. */
  lemma OverParts(v: seq<Float>, s: real)
    requires VecBase.AllFinite(v) && s != 0.0
    ensures VecBase.AllFinite(VecBase.Over(v, Fin(s)))
    ensures Parts(VecBase.Over(v, Fin(s))) == Divided(Parts(v), s)
  {
    var o := VecBase.Over(v, Fin(s));
    assert forall i :: 0 <= i < |v| ==> o[i] == Fin(v[i].r / s);
  }

  /** Dividing every part by `s` divides the sum of squares by `m = s * s`. */
  lemma {:induction false} SumOfSquaresDivided(xs: seq<real>, s: real, m: real)
    requires s != 0.0 && m == s * s
    ensures SumOfSquares(Divided(xs, s)) * m == SumOfSquares(xs)
  {
    if |xs| > 0 {
      var n := |xs|;
      var ys := Divided(xs, s);
      assert ys[..n - 1] == Divided(xs[..n - 1], s);
      SumOfSquaresDivided(xs[..n - 1], s, m);
      var q, x := ys[n - 1], xs[n - 1];
      assert q == x / s;
      var d', d := SumOfSquares(Divided(xs[..n - 1], s)), SumOfSquares(xs[..n - 1]);
      var qq, xx := q * q, x * x;
      assert SumOfSquares(ys) == d' + qq;
      ScaleStep(SumOfSquares(ys), SumOfSquares(xs), d', d, q, qq, x, xx, s, m);
    }
  }

  /** Dividing a finite vector by `s` divides its squared length by `s * s`. */
  lemma OverScalesSquaredLength(v: seq<Float>, s: real, m: real)
    requires VecBase.AllFinite(v) && s != 0.0 && m == s * s
    ensures IsFinite(VecBase.DotProduct(v, v))
    ensures IsFinite(VecBase.DotProduct(VecBase.Over(v, Fin(s)), VecBase.Over(v, Fin(s))))
    ensures VecBase.DotProduct(VecBase.Over(v, Fin(s)), VecBase.Over(v, Fin(s))).r * m
      == VecBase.DotProduct(v, v).r
  {
    var o := VecBase.Over(v, Fin(s));
    OverParts(v, s);
    ghost var xs := Parts(v);
    SelfDotIsSumOfSquares(v);
    SelfDotIsSumOfSquares(o);
    SumOfSquaresDivided(xs, s, m);
    assert VecBase.DotProduct(o, o) == Fin(SumOfSquares(Divided(xs, s)));
    assert VecBase.DotProduct(v, v) == Fin(SumOfSquares(xs));
  }

  lemma ScaleStep(e': real, e: real, d': real, d: real, q: real, qq: real, x: real, xx: real, s: real, m: real)
    requires s != 0.0 && m == s * s && d' * m == d && q == x / s && qq == q * q && xx == x * x
    requires e' == d' + qq && e == d + xx
    ensures e' * m == e
  {
    assert q * s == x;
    assert (q * q) * (s * s) == (q * s) * (q * s);
  }

  /** When `len` is the square root of the squared length of a finite vector
      whose squared length is positive, the vector divided by `len` (what
      `GetNormalized` returns, and what `Normalize` leaves behind, see
      `VecBase.TimesReciprocalIsOver`) has squared length 1. */
  lemma NormalizedHasUnitLength(v: seq<Float>, len: Float)
    requires VecBase.AllFinite(v) && IsFinite(len)
    requires Gt(VecBase.DotProduct(v, v), Zero) && VecBase.DotProduct(v, v) == Fin(len.r * len.r)
    ensures VecBase.DotProduct(VecBase.Over(v, len), VecBase.Over(v, len)) == One
  {
    var l := VecBase.DotProduct(v, v).r;
    assert len == Fin(len.r);
    OverScalesSquaredLength(v, len.r, l);
    var d := VecBase.DotProduct(VecBase.Over(v, Fin(len.r)), VecBase.Over(v, Fin(len.r))).r;
    UnitFactor(d, l, VecBase.DotProduct(v, v).r);
  }

  lemma UnitFactor(d: real, m: real, n: real)
    requires m > 0.0 && d * m == n && n == m
    ensures d == 1.0
  {
    assert (d - 1.0) * m == 0.0;
  }

  // ---------------------------------------------------------------------------
  // The library's own usage example

  /** (-1, 3) - (1, 2) is (-2, 1), and the dot product of (-1, 3) and (1, 2) is 5. */
  lemma UsageExample()
    ensures VecBase.Minus([Fin(-1.0), Fin(3.0)], [Fin(1.0), Fin(2.0)]) == [Fin(-2.0), Fin(1.0)]
    ensures VecBase.DotProduct([Fin(-1.0), Fin(3.0)], [Fin(1.0), Fin(2.0)]) == Fin(5.0)
  {
    var a, b := [Fin(-1.0), Fin(3.0)], [Fin(1.0), Fin(2.0)];
    assert Sub(a[0], b[0]) == Fin(-2.0);
    assert Sub(a[1], b[1]) == Fin(1.0);
    assert a[..1] == [Fin(-1.0)] && b[..1] == [Fin(1.0)];
    assert a[..1][..0] == [] && b[..1][..0] == [];
    assert VecBase.DotProduct(a[..1], b[..1]) == Fin(-1.0);
  }
}
