/** Barycentric coordinates on lines, triangles and tetrahedra: building a
    coordinate from a point, clamping a coordinate into its simplex, and
    interpolating vertex values with a coordinate. The routines over vectors
    are functions of the vectors' values; the N-vertex interpolations and the
    clamps, which update local vectors step by step, are methods. */
module Barycentric {
  import opened Floats
  import opened Errors
  import VecBase
  import UtilsFloat
  import opened Vectors
  import opened RealFacts

  // ---------------------------------------------------------------------------
  // Coordinates from parameters

  /** `U2Bary(u)`: the line coordinate `(1 - u, u)`. */
  function U2Bary(u: Float): (r: seq<Float>)
    ensures |r| == 2 && r[1] == u
    ensures IsFinite(u) ==> VecBase.AllFinite(r) && r[0].r + r[1].r == 1.0
  {
    [Sub(One, u), u]
  }

  /** `UV2Bary(u, v)`: the triangle coordinate `(1 - u - v, u, v)`. */
  function UV2Bary(u: Float, v: Float): (r: seq<Float>)
    ensures |r| == 3 && r[1] == u && r[2] == v
    ensures IsFinite(u) && IsFinite(v) ==> VecBase.AllFinite(r) && r[0].r + r[1].r + r[2].r == 1.0
  {
    [Sub(Sub(One, u), v), u, v]
  }

  /** `UVW2Bary(u, v, w)`: the tetrahedron coordinate `(1 - u - v - w, u, v, w)`. */
  function UVW2Bary(u: Float, v: Float, w: Float): (r: seq<Float>)
    ensures |r| == 4 && r[1] == u && r[2] == v && r[3] == w
    ensures IsFinite(u) && IsFinite(v) && IsFinite(w) ==>
      VecBase.AllFinite(r) && r[0].r + r[1].r + r[2].r + r[3].r == 1.0
  {
    [Sub(Sub(Sub(One, u), v), w), u, v, w]
  }

  // ---------------------------------------------------------------------------
  // Interpolation with a fixed number of vertices

  /** `BaryInterpolate(Vec2 bc, v0, v1)` for vertices of any one arity:
      `bc[0] * v0 + bc[1] * v1`. */
  function InterpolateLine(bc: seq<Float>, v0: seq<Float>, v1: seq<Float>): (r: seq<Float>)
    requires |bc| == 2 && |v0| == |v1|
    ensures |r| == |v0|
  {
    VecBase.Plus(VecBase.TimesLeft(bc[0], v0), VecBase.TimesLeft(bc[1], v1))
  }

  /** `BaryInterpolate(Vec2 bc, float v0, float v1)`. */
  function InterpolateLineScalar(bc: seq<Float>, v0: Float, v1: Float): Float
    requires |bc| == 2
  {
    Add(Mul(bc[0], v0), Mul(bc[1], v1))
  }

  /** `BaryInterpolate(Vec3 bc, v0, v1, v2)` for vertices of any one arity. */
  function InterpolateTriangle(bc: seq<Float>, v0: seq<Float>, v1: seq<Float>, v2: seq<Float>): (r: seq<Float>)
    requires |bc| == 3 && |v0| == |v1| == |v2|
    ensures |r| == |v0|
  {
    VecBase.Plus(VecBase.Plus(VecBase.TimesLeft(bc[0], v0), VecBase.TimesLeft(bc[1], v1)),
                 VecBase.TimesLeft(bc[2], v2))
  }

  /** `BaryInterpolate(Vec3 bc, float v0, float v1, float v2)`. */
  function InterpolateTriangleScalar(bc: seq<Float>, v0: Float, v1: Float, v2: Float): Float
    requires |bc| == 3
  {
    Add(Add(Mul(bc[0], v0), Mul(bc[1], v1)), Mul(bc[2], v2))
  }

  /** `BaryInterpolate(Vec4 bc, v0, v1, v2, v3)` for vertices of any one arity. */
  function InterpolateTetra(bc: seq<Float>, v0: seq<Float>, v1: seq<Float>, v2: seq<Float>, v3: seq<Float>): (r: seq<Float>)
    requires |bc| == 4 && |v0| == |v1| == |v2| == |v3|
    ensures |r| == |v0|
  {
    VecBase.Plus(VecBase.Plus(VecBase.Plus(VecBase.TimesLeft(bc[0], v0), VecBase.TimesLeft(bc[1], v1)),
                              VecBase.TimesLeft(bc[2], v2)),
                 VecBase.TimesLeft(bc[3], v3))
  }

  /** `BaryInterpolate(Vec4 bc, float v0, float v1, float v2, float v3)`. */
  function InterpolateTetraScalar(bc: seq<Float>, v0: Float, v1: Float, v2: Float, v3: Float): Float
    requires |bc| == 4
  {
    Add(Add(Add(Mul(bc[0], v0), Mul(bc[1], v1)), Mul(bc[2], v2)), Mul(bc[3], v3))
  }

  // ---------------------------------------------------------------------------
  // Interpolation with any number of vertices

  predicate SameArity(vs: seq<seq<Float>>, n: nat) {
    forall i :: 0 <= i < |vs| ==> |vs[i]| == n
  }

  /** `sum bc[i] * vs[i]`, accumulated from the zero vector in index order, as
      the N-vertex `BaryInterpolate` loops do. */
  function WeightedSum(bc: seq<Float>, vs: seq<seq<Float>>, n: nat): (r: seq<Float>)
    requires |bc| == |vs| && SameArity(vs, n)
    ensures |r| == n
  {
    if |bc| == 0 then VecBase.Zeros(n)
    else VecBase.Plus(WeightedSum(bc[..|bc| - 1], vs[..|vs| - 1], n),
                      VecBase.TimesLeft(bc[|bc| - 1], vs[|vs| - 1]))
  }

  /** The scalar `sum bc[i] * vs[i]`, accumulated from 0 in index order. */
  function WeightedSumScalar(bc: seq<Float>, vs: seq<Float>): Float
    requires |bc| == |vs|
  {
    if |bc| == 0 then Zero
    else Add(WeightedSumScalar(bc[..|bc| - 1], vs[..|vs| - 1]), Mul(bc[|bc| - 1], vs[|vs| - 1]))
  }

  lemma AddZeroLeft(x: Float)
    ensures Add(Zero, x) == x
  {
  }

  lemma PlusZerosLeft(x: seq<Float>)
    ensures VecBase.Plus(VecBase.Zeros(|x|), x) == x
  {
    forall i | 0 <= i < |x|
      ensures VecBase.Plus(VecBase.Zeros(|x|), x)[i] == x[i]
    {
      AddZeroLeft(x[i]);
    }
  }

  /** The first step of the loop adds `bc[0] * vs[0]` to the zero vector. */
  lemma FirstTerm(bc: seq<Float>, vs: seq<seq<Float>>, n: nat)
    requires |bc| == |vs| >= 1 && SameArity(vs, n)
    ensures WeightedSum(bc[..1], vs[..1], n) == VecBase.TimesLeft(bc[0], vs[0])
  {
    var b, v := bc[..1], vs[..1];
    assert b[..0] == [] && v[..0] == [];
    assert b[0] == bc[0] && v[0] == vs[0];
    PlusZerosLeft(VecBase.TimesLeft(bc[0], vs[0]));
  }

  lemma FirstTermScalar(bc: seq<Float>, vs: seq<Float>)
    requires |bc| == |vs| >= 1
    ensures WeightedSumScalar(bc[..1], vs[..1]) == Mul(bc[0], vs[0])
  {
    var b, v := bc[..1], vs[..1];
    assert b[..0] == [] && v[..0] == [];
    assert b[0] == bc[0] && v[0] == vs[0];
    AddZeroLeft(Mul(bc[0], vs[0]));
  }

  /** One more step of the loop adds `bc[k] * vs[k]`. */
  lemma NextTerm(bc: seq<Float>, vs: seq<seq<Float>>, n: nat, k: nat)
    requires |bc| == |vs| && SameArity(vs, n) && k < |bc|
    ensures WeightedSum(bc[..k + 1], vs[..k + 1], n)
      == VecBase.Plus(WeightedSum(bc[..k], vs[..k], n), VecBase.TimesLeft(bc[k], vs[k]))
  {
    var b, v := bc[..k + 1], vs[..k + 1];
    assert b[..k] == bc[..k] && v[..k] == vs[..k];
    assert b[k] == bc[k] && v[k] == vs[k];
  }

  lemma NextTermScalar(bc: seq<Float>, vs: seq<Float>, k: nat)
    requires |bc| == |vs| && k < |bc|
    ensures WeightedSumScalar(bc[..k + 1], vs[..k + 1])
      == Add(WeightedSumScalar(bc[..k], vs[..k]), Mul(bc[k], vs[k]))
  {
    var b, v := bc[..k + 1], vs[..k + 1];
    assert b[..k] == bc[..k] && v[..k] == vs[..k];
    assert b[k] == bc[k] && v[k] == vs[k];
  }

  /** The two-vertex overload computes what the N-vertex loop computes. */
  lemma LineAgreesWithLoop(bc: seq<Float>, v0: seq<Float>, v1: seq<Float>)
    requires |bc| == 2 && |v0| == |v1|
    ensures InterpolateLine(bc, v0, v1) == WeightedSum(bc, [v0, v1], |v0|)
  {
    var vs := [v0, v1];
    FirstTerm(bc, vs, |v0|);
    NextTerm(bc, vs, |v0|, 1);
    assert bc[..2] == bc && vs[..2] == vs;
  }

  lemma TriangleAgreesWithLoop(bc: seq<Float>, v0: seq<Float>, v1: seq<Float>, v2: seq<Float>)
    requires |bc| == 3 && |v0| == |v1| == |v2|
    ensures InterpolateTriangle(bc, v0, v1, v2) == WeightedSum(bc, [v0, v1, v2], |v0|)
  {
    var vs := [v0, v1, v2];
    FirstTerm(bc, vs, |v0|);
    NextTerm(bc, vs, |v0|, 1);
    NextTerm(bc, vs, |v0|, 2);
    assert bc[..3] == bc && vs[..3] == vs;
  }

  lemma TetraAgreesWithLoop(bc: seq<Float>, v0: seq<Float>, v1: seq<Float>, v2: seq<Float>, v3: seq<Float>)
    requires |bc| == 4 && |v0| == |v1| == |v2| == |v3|
    ensures InterpolateTetra(bc, v0, v1, v2, v3) == WeightedSum(bc, [v0, v1, v2, v3], |v0|)
  {
    var vs := [v0, v1, v2, v3];
    FirstTerm(bc, vs, |v0|);
    NextTerm(bc, vs, |v0|, 1);
    NextTerm(bc, vs, |v0|, 2);
    NextTerm(bc, vs, |v0|, 3);
    assert bc[..4] == bc && vs[..4] == vs;
  }

  lemma LineAgreesWithLoopScalar(bc: seq<Float>, v0: Float, v1: Float)
    requires |bc| == 2
    ensures InterpolateLineScalar(bc, v0, v1) == WeightedSumScalar(bc, [v0, v1])
  {
    var vs := [v0, v1];
    FirstTermScalar(bc, vs);
    NextTermScalar(bc, vs, 1);
    assert bc[..2] == bc && vs[..2] == vs;
  }

  lemma TriangleAgreesWithLoopScalar(bc: seq<Float>, v0: Float, v1: Float, v2: Float)
    requires |bc| == 3
    ensures InterpolateTriangleScalar(bc, v0, v1, v2) == WeightedSumScalar(bc, [v0, v1, v2])
  {
    var vs := [v0, v1, v2];
    FirstTermScalar(bc, vs);
    NextTermScalar(bc, vs, 1);
    NextTermScalar(bc, vs, 2);
    assert bc[..3] == bc && vs[..3] == vs;
  }

  lemma TetraAgreesWithLoopScalar(bc: seq<Float>, v0: Float, v1: Float, v2: Float, v3: Float)
    requires |bc| == 4
    ensures InterpolateTetraScalar(bc, v0, v1, v2, v3) == WeightedSumScalar(bc, [v0, v1, v2, v3])
  {
    var vs := [v0, v1, v2, v3];
    FirstTermScalar(bc, vs);
    NextTermScalar(bc, vs, 1);
    NextTermScalar(bc, vs, 2);
    NextTermScalar(bc, vs, 3);
    assert bc[..4] == bc && vs[..4] == vs;
  }

  predicate AllFiniteVectors(vs: seq<seq<Float>>) {
    forall i :: 0 <= i < |vs| ==> VecBase.AllFinite(vs[i])
  }

  /** Interpolating with the unit coordinate of vertex `i` gives that vertex,
      when the vertices are finite (`0 * infinity` would be NaN). */
  lemma {:induction false} UnitCoordinateSelectsVertex(bc: seq<Float>, vs: seq<seq<Float>>, n: nat, i: int)
    requires |bc| == |vs| && SameArity(vs, n) && AllFiniteVectors(vs)
    requires 0 <= i < |bc| && bc[i] == One
    requires forall j :: 0 <= j < |bc| && j != i ==> bc[j] == Zero
    ensures WeightedSum(bc, vs, n) == vs[i]
  {
    var k := |bc| - 1;
    var last := VecBase.TimesLeft(bc[k], vs[k]);
    if k == i {
      ZeroWeightsGiveZero(bc[..k], vs[..k], n);
      assert last == vs[k];
      PlusZerosLeft(vs[k]);
    } else {
      UnitCoordinateSelectsVertex(bc[..k], vs[..k], n, i);
      assert last == VecBase.Zeros(n);
      assert VecBase.Plus(vs[i], last) == vs[i];
    }
  }

  lemma {:induction false} ZeroWeightsGiveZero(bc: seq<Float>, vs: seq<seq<Float>>, n: nat)
    requires |bc| == |vs| && SameArity(vs, n) && AllFiniteVectors(vs)
    requires forall j :: 0 <= j < |bc| ==> bc[j] == Zero
    ensures WeightedSum(bc, vs, n) == VecBase.Zeros(n)
  {
    if |bc| > 0 {
      var k := |bc| - 1;
      ZeroWeightsGiveZero(bc[..k], vs[..k], n);
      assert VecBase.TimesLeft(bc[k], vs[k]) == VecBase.Zeros(n);
      assert VecBase.Plus(VecBase.Zeros(n), VecBase.Zeros(n)) == VecBase.Zeros(n);
    }
  }

  lemma {:induction false} UnitCoordinateSelectsValue(bc: seq<Float>, vs: seq<Float>, i: int)
    requires |bc| == |vs| && VecBase.AllFinite(vs)
    requires 0 <= i < |bc| && bc[i] == One
    requires forall j :: 0 <= j < |bc| && j != i ==> bc[j] == Zero
    ensures WeightedSumScalar(bc, vs) == vs[i]
  {
    var k := |bc| - 1;
    if k == i {
      ZeroWeightsGiveZeroScalar(bc[..k], vs[..k]);
      AddZeroLeft(vs[k]);
    } else {
      UnitCoordinateSelectsValue(bc[..k], vs[..k], i);
      assert IsFinite(vs[k]);
    }
  }

  lemma {:induction false} ZeroWeightsGiveZeroScalar(bc: seq<Float>, vs: seq<Float>)
    requires |bc| == |vs| && VecBase.AllFinite(vs)
    requires forall j :: 0 <= j < |bc| ==> bc[j] == Zero
    ensures WeightedSumScalar(bc, vs) == Zero
  {
    if |bc| > 0 {
      var k := |bc| - 1;
      ZeroWeightsGiveZeroScalar(bc[..k], vs[..k]);
      assert IsFinite(vs[k]);
    }
  }

  // ---------------------------------------------------------------------------
  // The N-vertex loops

  /** `BaryInterpolate(float[] bc, float[] v)`: `IndexOutOfRange` when the
      lengths differ, otherwise the weighted sum accumulated from 0. */
  method InterpolateScalars(bc: array<Float>, v: array<Float>) returns (r: Result<Float>)
    ensures r.IndexOutOfRange? <==> bc.Length != v.Length
    ensures r.Ok? ==> r.value == WeightedSumScalar(bc[..], v[..])
  {
    if bc.Length != v.Length {
      return IndexOutOfRange;
    }
    var p := Zero;
    for idx := 0 to v.Length
      invariant p == WeightedSumScalar(bc[..idx], v[..idx])
    {
      assert bc[..idx + 1][..idx] == bc[..idx] && v[..idx + 1][..idx] == v[..idx];
      p := Add(p, Mul(bc[idx], v[idx]));
    }
    assert bc[..] == bc[..v.Length] && v[..] == v[..v.Length];
    return Ok(p);
  }

  predicate AllValid2(v: array<Vec2>)
    reads v
  {
    forall i :: 0 <= i < v.Length ==> v[i].Valid()
  }

  /** The component sequences of the vectors in `v`. */
  function Values2(v: array<Vec2>): (r: seq<seq<Float>>)
    requires AllValid2(v)
    reads v, set i | 0 <= i < v.Length :: v[i].m_v
    ensures |r| == v.Length && SameArity(r, 2)
    ensures forall i :: 0 <= i < v.Length ==> r[i] == v[i].Value()
  {
    seq(v.Length, i reads v, set i | 0 <= i < v.Length :: v[i].m_v requires 0 <= i < v.Length => v[i].Value())
  }

  /** `BaryInterpolate(float[] bc, Vec2[] v)`: `IndexOutOfRange` when the
      lengths differ, otherwise a fresh vector holding the weighted sum of
      the vertices, accumulated from the zero vector. */
  method InterpolateVec2s(bc: array<Float>, v: array<Vec2>) returns (r: Result<Vec2>)
    requires AllValid2(v)
    ensures r.IndexOutOfRange? <==> bc.Length != v.Length
    ensures r.Ok? ==> fresh(r.value) && r.value.Valid()
    ensures r.Ok? ==> r.value.Value() == WeightedSum(bc[..], Values2(v), 2)
  {
    if bc.Length != v.Length {
      return IndexOutOfRange;
    }
    var p := new Vec2();
    for idx := 0 to v.Length
      invariant fresh(p) && p.Valid()
      invariant p.Value() == WeightedSum(bc[..idx], Values2(v)[..idx], 2)
    {
      var vs := Values2(v);
      assert bc[..idx + 1][..idx] == bc[..idx] && vs[..idx + 1][..idx] == vs[..idx];
      var term := Vec2.TimesLeft(bc[idx], v[idx]);
      p := Vec2.Plus(p, term);
    }
    assert bc[..] == bc[..v.Length] && Values2(v) == Values2(v)[..v.Length];
    return Ok(p);
  }

  predicate AllValid3(v: array<Vec3>)
    reads v
  {
    forall i :: 0 <= i < v.Length ==> v[i].Valid()
  }

  function Values3(v: array<Vec3>): (r: seq<seq<Float>>)
    requires AllValid3(v)
    reads v, set i | 0 <= i < v.Length :: v[i].m_v
    ensures |r| == v.Length && SameArity(r, 3)
    ensures forall i :: 0 <= i < v.Length ==> r[i] == v[i].Value()
  {
    seq(v.Length, i reads v, set i | 0 <= i < v.Length :: v[i].m_v requires 0 <= i < v.Length => v[i].Value())
  }

  /** `BaryInterpolate(float[] bc, Vec3[] v)`. */
  method InterpolateVec3s(bc: array<Float>, v: array<Vec3>) returns (r: Result<Vec3>)
    requires AllValid3(v)
    ensures r.IndexOutOfRange? <==> bc.Length != v.Length
    ensures r.Ok? ==> fresh(r.value) && r.value.Valid()
    ensures r.Ok? ==> r.value.Value() == WeightedSum(bc[..], Values3(v), 3)
  {
    if bc.Length != v.Length {
      return IndexOutOfRange;
    }
    var p := new Vec3();
    for idx := 0 to v.Length
      invariant fresh(p) && p.Valid()
      invariant p.Value() == WeightedSum(bc[..idx], Values3(v)[..idx], 3)
    {
      var vs := Values3(v);
      assert bc[..idx + 1][..idx] == bc[..idx] && vs[..idx + 1][..idx] == vs[..idx];
      var term := Vec3.TimesLeft(bc[idx], v[idx]);
      p := Vec3.Plus(p, term);
    }
    assert bc[..] == bc[..v.Length] && Values3(v) == Values3(v)[..v.Length];
    return Ok(p);
  }

  predicate AllValid4(v: array<Vec4>)
    reads v
  {
    forall i :: 0 <= i < v.Length ==> v[i].Valid()
  }

  function Values4(v: array<Vec4>): (r: seq<seq<Float>>)
    requires AllValid4(v)
    reads v, set i | 0 <= i < v.Length :: v[i].m_v
    ensures |r| == v.Length && SameArity(r, 4)
    ensures forall i :: 0 <= i < v.Length ==> r[i] == v[i].Value()
  {
    seq(v.Length, i reads v, set i | 0 <= i < v.Length :: v[i].m_v requires 0 <= i < v.Length => v[i].Value())
  }

  /** `BaryInterpolate(float[] bc, Vec4[] v)`. */
  method InterpolateVec4s(bc: array<Float>, v: array<Vec4>) returns (r: Result<Vec4>)
    requires AllValid4(v)
    ensures r.IndexOutOfRange? <==> bc.Length != v.Length
    ensures r.Ok? ==> fresh(r.value) && r.value.Valid()
    ensures r.Ok? ==> r.value.Value() == WeightedSum(bc[..], Values4(v), 4)
  {
    if bc.Length != v.Length {
      return IndexOutOfRange;
    }
    var p := new Vec4();
    for idx := 0 to v.Length
      invariant fresh(p) && p.Valid()
      invariant p.Value() == WeightedSum(bc[..idx], Values4(v)[..idx], 4)
    {
      var vs := Values4(v);
      assert bc[..idx + 1][..idx] == bc[..idx] && vs[..idx + 1][..idx] == vs[..idx];
      var term := Vec4.TimesLeft(bc[idx], v[idx]);
      p := Vec4.Plus(p, term);
    }
    assert bc[..] == bc[..v.Length] && Values4(v) == Values4(v)[..v.Length];
    return Ok(p);
  }

  // ---------------------------------------------------------------------------
  // Line coordinates

  /** `BaryCoord(float P, float v0, float v1)`: `U2Bary((P - v0) / (v1 - v0))`. */
  function LineCoordScalar(p: Float, v0: Float, v1: Float): (r: seq<Float>)
    ensures |r| == 2
  {
    U2Bary(Div(Sub(p, v0), Sub(v1, v0)))
  }

  /** Interpolating the end values with the coordinate of `p` gives `p` back,
      for finite values and distinct ends. */
  lemma LineCoordScalarRoundTrip(p: Float, v0: Float, v1: Float)
    requires IsFinite(p) && IsFinite(v0) && IsFinite(v1) && v0 != v1
    ensures InterpolateLineScalar(LineCoordScalar(p, v0, v1), v0, v1) == p
  {
    var d := v1.r - v0.r;
    var u := (p.r - v0.r) / d;
    assert LineCoordScalar(p, v0, v1) == [Fin(1.0 - u), Fin(u)];
    LineRoundTripReal(p.r, v0.r, v1.r, d, u);
  }

  lemma LineRoundTripReal(p: real, a: real, b: real, d: real, u: real)
    requires d == b - a && d != 0.0 && u == (p - a) / d
    ensures (1.0 - u) * a + u * b == p
  {
    assert u * d == p - a;
    assert (1.0 - u) * a + u * b == a + u * d;
  }

  /** `BaryCoord(P, v0, v1)` for `Vec2` and `Vec3` points: the projection
      parameter `(P - v0) . (v1 - v0) / |v1 - v0|^2`, as a line coordinate. */
  function LineCoord(p: seq<Float>, v0: seq<Float>, v1: seq<Float>): (r: seq<Float>)
    requires |p| == |v0| == |v1|
    ensures |r| == 2
  {
    U2Bary(Div(VecBase.DotProduct(VecBase.Minus(p, v0), VecBase.Minus(v1, v0)),
               VecBase.SquaredDistance(v0, v1)))
  }

  /** The ends of a segment between distinct finite points get the unit
      coordinates (1, 0) and (0, 1). */
  lemma LineCoordAtEnds(v0: seq<Float>, v1: seq<Float>)
    requires |v0| == |v1| && VecBase.AllFinite(v0) && VecBase.AllFinite(v1) && v0 != v1
    ensures LineCoord(v0, v0, v1) == [One, Zero]
    ensures LineCoord(v1, v0, v1) == [Zero, One]
  {
    var d := VecBase.Minus(v1, v0);
    var s := VecBase.SquaredDistance(v0, v1);
    SquaredDistancePositive(v0, v1);
    DotOfDifferenceIsSquaredDistance(v0, v1);
    MinusSelfIsZeros(v0);
    assert VecBase.AllFinite(d);
    DotWithZeros(d);
    assert Div(Zero, s) == Zero;
    DivSelf(s.r);
  }

  lemma MinusSelfIsZeros(v: seq<Float>)
    requires VecBase.AllFinite(v)
    ensures VecBase.Minus(v, v) == VecBase.Zeros(|v|)
  {
    assert forall i :: 0 <= i < |v| ==> IsFinite(v[i]);
  }

  lemma {:induction false} DotWithZeros(a: seq<Float>)
    requires VecBase.AllFinite(a)
    ensures VecBase.DotProduct(VecBase.Zeros(|a|), a) == Zero
  {
    if |a| > 0 {
      var k := |a| - 1;
      assert VecBase.Zeros(|a|)[..k] == VecBase.Zeros(k);
      assert VecBase.AllFinite(a[..k]);
      DotWithZeros(a[..k]);
      assert IsFinite(a[k]);
    }
  }

  /** `(v1 - v0) . (v1 - v0)` is the squared distance of `v0` and `v1`. */
  lemma {:induction false} DotOfDifferenceIsSquaredDistance(v0: seq<Float>, v1: seq<Float>)
    requires |v0| == |v1|
    ensures VecBase.DotProduct(VecBase.Minus(v1, v0), VecBase.Minus(v1, v0)) == VecBase.SquaredDistance(v0, v1)
  {
    if |v0| > 0 {
      var k := |v0| - 1;
      var d := VecBase.Minus(v1, v0);
      assert d[..k] == VecBase.Minus(v1[..k], v0[..k]);
      DotOfDifferenceIsSquaredDistance(v0[..k], v1[..k]);
      SubAntisymmetric(v1[k], v0[k]);
      MulNeg(Sub(v1[k], v0[k]));
    }
  }

  /** `BaryCoord` of a point on the line, built from the line coordinate
      `U2Bary(t)`, gives that coordinate back: the two routines are inverse
      for finite values and distinct ends. */
  lemma LineCoordInvertsInterpolation(t: Float, v0: seq<Float>, v1: seq<Float>)
    requires IsFinite(t) && |v0| == |v1|
    requires VecBase.AllFinite(v0) && VecBase.AllFinite(v1) && v0 != v1
    ensures LineCoord(InterpolateLine(U2Bary(t), v0, v1), v0, v1) == U2Bary(t)
  {
    var tr := t.r;
    var p := InterpolateLine(U2Bary(t), v0, v1);
    var d := VecBase.Minus(v1, v0);
    var e := VecBase.Minus(p, v0);
    forall i | 0 <= i < |e|
      ensures e[i] == Combination(tr, d, 0.0, d)[i]
    {
      assert IsFinite(v0[i]) && IsFinite(v1[i]);
      var a, b := v0[i].r, v1[i].r;
      assert d[i] == Fin(b + -a);
      assert e[i] == Fin(((1.0 + -tr) * a + tr * b) + -a);
      LineComponent(tr, a, b);
    }
    assert e == Combination(tr, d, 0.0, d);
    var sq := VecBase.SquaredDistance(v0, v1);
    SquaredDistancePositive(v0, v1);
    DotOfDifferenceIsSquaredDistance(v0, v1);
    var sr := sq.r;
    DotCombination(d, d, d, tr, 0.0, sr, sr);
    VecBase.DotProductSymmetric(e, d);
    ScaledQuotient(tr, sr);
  }

  /** The scalar `BaryCoord` finds again the coordinate a value between
      distinct finite ends was interpolated with. */
  lemma LineCoordScalarInvertsInterpolation(t: Float, v0: Float, v1: Float)
    requires IsFinite(t) && IsFinite(v0) && IsFinite(v1) && v0 != v1
    ensures LineCoordScalar(InterpolateLineScalar(U2Bary(t), v0, v1), v0, v1) == U2Bary(t)
  {
    var tr, a, b := t.r, v0.r, v1.r;
    var dd, x := b + -a, ((1.0 + -tr) * a + tr * b) + -a;
    assert Sub(InterpolateLineScalar(U2Bary(t), v0, v1), v0) == Fin(x);
    assert Sub(v1, v0) == Fin(dd) && dd != 0.0;
    LineComponent(tr, a, b);
    ScaledQuotient(tr, dd);
    assert Div(Fin(x), Fin(dd)) == t;
  }

  lemma LineComponent(t: real, a: real, b: real)
    ensures ((1.0 + -t) * a + t * b) + -a == t * (b + -a) + 0.0 * (b + -a)
  {
  }

  lemma ScaledQuotient(t: real, s: real)
    requires s != 0.0
    ensures (t * s + 0.0 * s) / s == t
  {
    assert t * s + 0.0 * s == t * s;
  }

  /** The finite vector `s x + t y`, for finite `x` and `y`. */
  function Combination(s: real, x: seq<Float>, t: real, y: seq<Float>): (r: seq<Float>)
    requires |x| == |y| && VecBase.AllFinite(x) && VecBase.AllFinite(y)
    ensures |r| == |x| && VecBase.AllFinite(r)
  {
    seq(|x|, i requires 0 <= i < |x| => Fin(s * x[i].r + t * y[i].r))
  }

  /** `z . (s x + t y) == s (z . x) + t (z . y)`: the dot product of finite
      vectors is linear in its right operand. */
  lemma {:induction false} DotCombination(z: seq<Float>, x: seq<Float>, y: seq<Float>, s: real, t: real, dx: real, dy: real)
    requires |z| == |x| == |y|
    requires VecBase.AllFinite(z) && VecBase.AllFinite(x) && VecBase.AllFinite(y)
    requires VecBase.DotProduct(z, x) == Fin(dx) && VecBase.DotProduct(z, y) == Fin(dy)
    ensures VecBase.DotProduct(z, Combination(s, x, t, y)) == Fin(s * dx + t * dy)
  {
    var a := Combination(s, x, t, y);
    if |z| == 0 {
      ZeroCombination(s, t, dx, dy);
    } else {
      var k := |z| - 1;
      var z', x', y' := z[..k], x[..k], y[..k];
      assert VecBase.AllFinite(z') && VecBase.AllFinite(x') && VecBase.AllFinite(y');
      forall i | 0 <= i < k
        ensures a[..k][i] == Combination(s, x', t, y')[i]
      {
        assert x'[i] == x[i] && y'[i] == y[i];
      }
      assert a[..k] == Combination(s, x', t, y');
      Vectors.FiniteDotProduct(z', x');
      Vectors.FiniteDotProduct(z', y');
      var dx', dy' := VecBase.DotProduct(z', x').r, VecBase.DotProduct(z', y').r;
      DotCombination(z', x', y', s, t, dx', dy');
      assert IsFinite(z[k]) && IsFinite(x[k]) && IsFinite(y[k]);
      var zk, xk, yk := z[k].r, x[k].r, y[k].r;
      var ak := s * xk + t * yk;
      assert a[k] == Fin(ak);
      DotStep(z, a, zk, ak, s * dx' + t * dy');
      DotStep(z, x, zk, xk, dx');
      DotStep(z, y, zk, yk, dy');
      CombineStep(s, t, dx', dy', xk, yk, zk, ak, dx, dy);
    }
  }

  /** One step of the dot product of finite vectors, over the reals. */
  lemma DotStep(a: seq<Float>, b: seq<Float>, x: real, y: real, d: real)
    requires |a| == |b| > 0 && a[|a| - 1] == Fin(x) && b[|b| - 1] == Fin(y)
    requires VecBase.DotProduct(a[..|a| - 1], b[..|b| - 1]) == Fin(d)
    ensures VecBase.DotProduct(a, b) == Fin(d + x * y)
  {
  }

  lemma ZeroCombination(s: real, t: real, x: real, y: real)
    requires x == 0.0 && y == 0.0
    ensures 0.0 == s * x + t * y
  {
  }

  lemma CombineStep(s: real, t: real, dx': real, dy': real, xk: real, yk: real, zk: real, ak: real, dx: real, dy: real)
    requires ak == s * xk + t * yk && dx == dx' + zk * xk && dy == dy' + zk * yk
    ensures (s * dx' + t * dy') + zk * ak == s * dx + t * dy
  {
  }

  // ---------------------------------------------------------------------------
  // Triangle coordinates

  /** The Gram determinant `|e0|^2 |e1|^2 - (e0 . e1)^2` of the edges
      `e0 = v2 - v0` and `e1 = v1 - v0`: the denominator of `BaryCoord`. */
  function GramDeterminant(v0: seq<Float>, v1: seq<Float>, v2: seq<Float>): Float
    requires |v0| == |v1| == |v2|
  {
    var e0, e1 := VecBase.Minus(v2, v0), VecBase.Minus(v1, v0);
    var dot00, dot01, dot11 := VecBase.DotProduct(e0, e0), VecBase.DotProduct(e0, e1), VecBase.DotProduct(e1, e1);
    Sub(Mul(dot00, dot11), Mul(dot01, dot01))
  }

  /** `BaryCoord(Vec3 P, v0, v1, v2)`: the coordinate `(1 - u - v, u, v)`
      with `P - v0 = u (v1 - v0) + v (v2 - v0)` solved through the dot
      products of the edges. */
  function TriangleCoord(p: seq<Float>, v0: seq<Float>, v1: seq<Float>, v2: seq<Float>): (r: seq<Float>)
    requires |p| == |v0| == |v1| == |v2| == 3
    ensures |r| == 3
  {
    var e0, e1, e2 := VecBase.Minus(v2, v0), VecBase.Minus(v1, v0), VecBase.Minus(p, v0);
    var dot00, dot01, dot02 := VecBase.DotProduct(e0, e0), VecBase.DotProduct(e0, e1), VecBase.DotProduct(e0, e2);
    var dot11, dot12 := VecBase.DotProduct(e1, e1), VecBase.DotProduct(e1, e2);
    var invDenom := Div(One, GramDeterminant(v0, v1, v2));
    var u := Mul(Sub(Mul(dot00, dot12), Mul(dot01, dot02)), invDenom);
    var v := Mul(Sub(Mul(dot11, dot02), Mul(dot01, dot12)), invDenom);
    UV2Bary(u, v)
  }

  /** For a triangle with finite vertices and a Gram determinant other than
      zero, `BaryCoord` of the point interpolated with the coordinate
      `UV2Bary(u, v)` is that coordinate: `P = r[0] v0 + r[1] v1 + r[2] v2`
      holds for the coordinate `r` found. */
  lemma TriangleCoordInvertsInterpolation(u: Float, v: Float, v0: seq<Float>, v1: seq<Float>, v2: seq<Float>)
    requires IsFinite(u) && IsFinite(v)
    requires |v0| == |v1| == |v2| == 3
    requires VecBase.AllFinite(v0) && VecBase.AllFinite(v1) && VecBase.AllFinite(v2)
    requires GramDeterminant(v0, v1, v2) != Zero
    ensures TriangleCoord(InterpolateTriangle(UV2Bary(u, v), v0, v1, v2), v0, v1, v2) == UV2Bary(u, v)
  {
    var ur, vr := u.r, v.r;
    var p := InterpolateTriangle(UV2Bary(u, v), v0, v1, v2);
    var e0, e1, e2 := VecBase.Minus(v2, v0), VecBase.Minus(v1, v0), VecBase.Minus(p, v0);
    assert VecBase.AllFinite(e0) && VecBase.AllFinite(e1);
    forall i | 0 <= i < 3
      ensures e2[i] == Combination(ur, e1, vr, e0)[i]
    {
      assert IsFinite(v0[i]) && IsFinite(v1[i]) && IsFinite(v2[i]);
      OffsetComponent(u, v, v0, v1, v2, i, ur, vr, v0[i].r, v1[i].r, v2[i].r);
    }
    assert e2 == Combination(ur, e1, vr, e0);
    Vectors.FiniteDotProduct(e0, e0);
    Vectors.FiniteDotProduct(e0, e1);
    Vectors.FiniteDotProduct(e1, e1);
    VecBase.DotProductSymmetric(e1, e0);
    var d00, d01, d11 := VecBase.DotProduct(e0, e0).r, VecBase.DotProduct(e0, e1).r, VecBase.DotProduct(e1, e1).r;
    DotCombination(e0, e1, e0, ur, vr, d01, d00);
    DotCombination(e1, e1, e0, ur, vr, d11, d01);
    SolveWithFloats(VecBase.DotProduct(e0, e0), VecBase.DotProduct(e0, e1), VecBase.DotProduct(e1, e1),
                    VecBase.DotProduct(e0, e2), VecBase.DotProduct(e1, e2), d00, d01, d11, ur, vr);
  }

  /** Component `i` of `P - v0`, for `P` interpolated with `UV2Bary(u, v)`,
      is `u (v1 - v0)[i] + v (v2 - v0)[i]`. */
  lemma OffsetComponent(u: Float, v: Float, v0: seq<Float>, v1: seq<Float>, v2: seq<Float>, i: int,
                        ur: real, vr: real, a: real, b: real, c: real)
    requires |v0| == |v1| == |v2| && 0 <= i < |v0|
    requires VecBase.AllFinite(v0) && VecBase.AllFinite(v1) && VecBase.AllFinite(v2)
    requires u == Fin(ur) && v == Fin(vr) && v0[i] == Fin(a) && v1[i] == Fin(b) && v2[i] == Fin(c)
    ensures VecBase.Minus(InterpolateTriangle(UV2Bary(u, v), v0, v1, v2), v0)[i]
      == Combination(ur, VecBase.Minus(v1, v0), vr, VecBase.Minus(v2, v0))[i]
  {
    assert VecBase.Minus(v1, v0)[i] == Fin(b + -a);
    assert VecBase.Minus(v2, v0)[i] == Fin(c + -a);
    assert VecBase.Minus(InterpolateTriangle(UV2Bary(u, v), v0, v1, v2), v0)[i]
      == Fin(((((1.0 + -ur) + -vr) * a + ur * b) + vr * c) + -a);
    TriangleComponent(ur, vr, a, b, c);
  }

  lemma TriangleComponent(u: real, v: real, a: real, b: real, c: real)
    ensures ((((1.0 + -u) + -v) * a + u * b) + v * c) + -a == u * (b + -a) + v * (c + -a)
  {
  }

  /** The vertices of a triangle with finite vertices and a Gram
      determinant other than zero get the unit coordinates. */
  lemma TriangleCoordAtVertices(v0: seq<Float>, v1: seq<Float>, v2: seq<Float>)
    requires |v0| == |v1| == |v2| == 3
    requires VecBase.AllFinite(v0) && VecBase.AllFinite(v1) && VecBase.AllFinite(v2)
    requires GramDeterminant(v0, v1, v2) != Zero
    ensures TriangleCoord(v0, v0, v1, v2) == [One, Zero, Zero]
    ensures TriangleCoord(v1, v0, v1, v2) == [Zero, One, Zero]
    ensures TriangleCoord(v2, v0, v1, v2) == [Zero, Zero, One]
  {
    UnitInterpolation(v0, v1, v2);
    TriangleCoordInvertsInterpolation(Zero, Zero, v0, v1, v2);
    TriangleCoordInvertsInterpolation(One, Zero, v0, v1, v2);
    TriangleCoordInvertsInterpolation(Zero, One, v0, v1, v2);
  }

  lemma UnitInterpolation(v0: seq<Float>, v1: seq<Float>, v2: seq<Float>)
    requires |v0| == |v1| == |v2|
    requires VecBase.AllFinite(v0) && VecBase.AllFinite(v1) && VecBase.AllFinite(v2)
    ensures InterpolateTriangle(UV2Bary(Zero, Zero), v0, v1, v2) == v0
    ensures InterpolateTriangle(UV2Bary(One, Zero), v0, v1, v2) == v1
    ensures InterpolateTriangle(UV2Bary(Zero, One), v0, v1, v2) == v2
  {
    assert UV2Bary(Zero, Zero) == [One, Zero, Zero];
    assert UV2Bary(One, Zero) == [Zero, One, Zero];
    assert UV2Bary(Zero, One) == [Zero, Zero, One];
    forall i | 0 <= i < |v0|
      ensures InterpolateTriangle(UV2Bary(Zero, Zero), v0, v1, v2)[i] == v0[i]
      ensures InterpolateTriangle(UV2Bary(One, Zero), v0, v1, v2)[i] == v1[i]
      ensures InterpolateTriangle(UV2Bary(Zero, One), v0, v1, v2)[i] == v2[i]
    {
      assert IsFinite(v0[i]) && IsFinite(v1[i]) && IsFinite(v2[i]);
    }
  }

  /** The float expressions of `BaryCoord` for `u` and `v` evaluate to the
      solution of its two linear equations. */
  lemma SolveWithFloats(dot00: Float, dot01: Float, dot11: Float, dot02: Float, dot12: Float,
                        d00: real, d01: real, d11: real, u: real, v: real)
    requires dot00 == Fin(d00) && dot01 == Fin(d01) && dot11 == Fin(d11)
    requires dot02 == Fin(u * d01 + v * d00) && dot12 == Fin(u * d11 + v * d01)
    requires Sub(Mul(dot00, dot11), Mul(dot01, dot01)) != Zero
    ensures Mul(Sub(Mul(dot00, dot12), Mul(dot01, dot02)), Div(One, Sub(Mul(dot00, dot11), Mul(dot01, dot01)))) == Fin(u)
    ensures Mul(Sub(Mul(dot11, dot02), Mul(dot01, dot12)), Div(One, Sub(Mul(dot00, dot11), Mul(dot01, dot01)))) == Fin(v)
  {
    var d02, d12 := u * d01 + v * d00, u * d11 + v * d01;
    var g := d00 * d11 + -(d01 * d01);
    assert g != 0.0;
    TriangleSolve(d00, d01, d11, u, v, d02, d12, g, 1.0 / g);
  }

  /** The two linear equations `BaryCoord` solves have the solution it
      computes, when the determinant is not zero. */
  lemma TriangleSolve(d00: real, d01: real, d11: real, u: real, v: real, d02: real, d12: real, g: real, inv: real)
    requires d02 == u * d01 + v * d00 && d12 == u * d11 + v * d01
    requires g == d00 * d11 + -(d01 * d01) && g != 0.0 && inv == 1.0 / g
    ensures (d00 * d12 + -(d01 * d02)) * inv == u
    ensures (d11 * d02 + -(d01 * d12)) * inv == v
  {
    assert d00 * d12 + -(d01 * d02) == u * g;
    assert d11 * d02 + -(d01 * d12) == v * g;
    assert g * inv == 1.0;
    assert (u * g) * inv == u * (g * inv);
    assert (v * g) * inv == v * (g * inv);
  }

  // ---------------------------------------------------------------------------
  // Clamping a coordinate into its simplex

  /** The real sum of the components of a finite coordinate. */
  function CoordinateSum(r: seq<Float>): real
    requires VecBase.AllFinite(r)
  {
    if |r| == 0 then 0.0 else CoordinateSum(r[..|r| - 1]) + r[|r| - 1].r
  }

  /** A coordinate of a point inside or on the boundary of its line,
      triangle or tetrahedron: finite components in [0, 1] that sum to 1. */
  predicate InSimplex(r: seq<Float>) {
    VecBase.AllFinite(r) &&
    (forall i :: 0 <= i < |r| ==> Le(Zero, r[i]) && Le(r[i], One)) &&
    CoordinateSum(r) == 1.0
  }

  /** `BaryCoordClampBC(Vec2 bc)`: the second component clamped into [0, 1]. */
  function ClampedLine(bc: seq<Float>): (r: seq<Float>)
    requires |bc| == 2
    ensures |r| == 2
  {
    U2Bary(UtilsFloat.Clamp(bc[1], Zero, One))
  }

  /** `BaryCoordClampBC(Vec3 bc)`: the last two components clamped into
      [0, 1], scaled down to sum 1 when their sum exceeds 1. */
  function ClampedTriangle(bc: seq<Float>): (r: seq<Float>)
    requires |bc| == 3
    ensures |r| == 3
  {
    var c := [UtilsFloat.Clamp(bc[1], Zero, One), UtilsFloat.Clamp(bc[2], Zero, One)];
    var sum := Add(c[0], c[1]);
    var n := if Gt(sum, One) then VecBase.Times(c, Div(One, sum)) else c;
    UV2Bary(n[0], n[1])
  }

  /** `BaryCoordClampBC(Vec4 bc)`: the last three components clamped into
      [0, 1], scaled down to sum 1 when their sum exceeds 1. */
  function ClampedTetra(bc: seq<Float>): (r: seq<Float>)
    requires |bc| == 4
    ensures |r| == 4
  {
    var c := [UtilsFloat.Clamp(bc[1], Zero, One), UtilsFloat.Clamp(bc[2], Zero, One),
              UtilsFloat.Clamp(bc[3], Zero, One)];
    var sum := Add(Add(c[0], c[1]), c[2]);
    var n := if Gt(sum, One) then VecBase.Times(c, Div(One, sum)) else c;
    UVW2Bary(n[0], n[1], n[2])
  }

  /** `BaryCoordClampBC(Vec2 bc)`: a fresh `Vec2`. */
  method ClampLineCoord(bc: Vec2) returns (r: Vec2)
    requires bc.Valid()
    ensures fresh(r) && r.Valid() && r.Value() == ClampedLine(bc.Value())
  {
    var nbc := bc.Y();
    nbc := UtilsFloat.ClampSet(nbc, Zero, One);
    r := new Vec2.Of(Sub(One, nbc), nbc);
  }

  /** `BaryCoordClampBC(Vec3 bc)`: clamps a local `Vec2` in place, scales it
      when its sum exceeds 1, and returns a fresh `Vec3`. */
  method ClampTriangleCoord(bc: Vec3) returns (r: Vec3)
    requires bc.Valid()
    ensures fresh(r) && r.Valid() && r.Value() == ClampedTriangle(bc.Value())
  {
    ghost var b := bc.Value();
    var nbc := new Vec2.Of(bc.Y(), bc.Z());
    VecBase.Clamp(nbc.m_v, Zero, One);
    ghost var c := nbc.Value();
    assert c == [UtilsFloat.Clamp(b[1], Zero, One), UtilsFloat.Clamp(b[2], Zero, One)];
    var sum := Add(nbc.X(), nbc.Y());
    ghost var scale := Gt(sum, One);
    if Gt(sum, One) {
      nbc := Vec2.Times(nbc, Div(One, sum));
      sum := One;
    }
    ghost var n := nbc.Value();
    assert n == if scale then VecBase.Times(c, Div(One, Add(c[0], c[1]))) else c;
    r := new Vec3.Of(Sub(Sub(One, nbc.X()), nbc.Y()), nbc.X(), nbc.Y());
    assert r.Value() == UV2Bary(n[0], n[1]);
  }

  /** `BaryCoordClampBC(Vec4 bc)`: clamps a local `Vec3` in place, scales it
      when its sum exceeds 1, and returns a fresh `Vec4`. */
  method ClampTetraCoord(bc: Vec4) returns (r: Vec4)
    requires bc.Valid()
    ensures fresh(r) && r.Valid() && r.Value() == ClampedTetra(bc.Value())
  {
    ghost var b := bc.Value();
    var nbc := new Vec3.Of(bc.Y(), bc.Z(), bc.W());
    VecBase.Clamp(nbc.m_v, Zero, One);
    ghost var c := nbc.Value();
    assert c == [UtilsFloat.Clamp(b[1], Zero, One), UtilsFloat.Clamp(b[2], Zero, One),
                 UtilsFloat.Clamp(b[3], Zero, One)];
    var sum := Add(Add(nbc.X(), nbc.Y()), nbc.Z());
    ghost var scale := Gt(sum, One);
    if Gt(sum, One) {
      nbc := Vec3.Times(nbc, Div(One, sum));
      sum := One;
    }
    ghost var n := nbc.Value();
    assert n == if scale then VecBase.Times(c, Div(One, Add(Add(c[0], c[1]), c[2]))) else c;
    r := new Vec4.Of(Sub(Sub(Sub(One, nbc.X()), nbc.Y()), nbc.Z()), nbc.X(), nbc.Y(), nbc.Z());
    assert r.Value() == UVW2Bary(n[0], n[1], n[2]);
  }

  lemma CoordinateSum2(r: seq<Float>)
    requires |r| == 2 && VecBase.AllFinite(r)
    ensures CoordinateSum(r) == r[0].r + r[1].r
  {
    var p := r[..1];
    assert p[..0] == [] && p[0] == r[0];
    assert CoordinateSum(p) == r[0].r;
  }

  lemma CoordinateSum3(r: seq<Float>)
    requires |r| == 3 && VecBase.AllFinite(r)
    ensures CoordinateSum(r) == r[0].r + r[1].r + r[2].r
  {
    CoordinateSum2(r[..2]);
  }

  lemma CoordinateSum4(r: seq<Float>)
    requires |r| == 4 && VecBase.AllFinite(r)
    ensures CoordinateSum(r) == r[0].r + r[1].r + r[2].r + r[3].r
  {
    CoordinateSum3(r[..3]);
  }

  /** A clamped value that is not NaN is finite and lies in [0, 1]. */
  lemma ClampedIsUnit(x: Float)
    requires !IsNaN(x)
    ensures IsFinite(UtilsFloat.Clamp(x, Zero, One))
    ensures 0.0 <= UtilsFloat.Clamp(x, Zero, One).r <= 1.0
  {
  }

  /** Unless its second component is NaN, a clamped line coordinate lies on
      the segment. */
  lemma ClampedLineInSimplex(bc: seq<Float>)
    requires |bc| == 2 && !IsNaN(bc[1])
    ensures InSimplex(ClampedLine(bc))
  {
    ClampedIsUnit(bc[1]);
    CoordinateSum2(ClampedLine(bc));
  }

  /** Unless one of its last two components is NaN, a clamped triangle
      coordinate lies in the closed triangle. */
  lemma ClampedTriangleInSimplex(bc: seq<Float>)
    requires |bc| == 3 && !IsNaN(bc[1]) && !IsNaN(bc[2])
    ensures InSimplex(ClampedTriangle(bc))
  {
    ClampedIsUnit(bc[1]);
    ClampedIsUnit(bc[2]);
    var c0, c1 := UtilsFloat.Clamp(bc[1], Zero, One), UtilsFloat.Clamp(bc[2], Zero, One);
    var c := [c0, c1];
    assert ClampedTriangle(bc) == if Gt(Add(c0, c1), One)
      then UV2Bary(VecBase.Times(c, Div(One, Add(c0, c1)))[0], VecBase.Times(c, Div(One, Add(c0, c1)))[1])
      else UV2Bary(c0, c1);
    if Gt(Add(c0, c1), One) {
      ScaledPairInSimplex(c0, c1);
    } else {
      UnscaledTriangleInSimplex(c0.r, c1.r);
    }
  }

  /** Two clamped coordinates whose sum exceeds one, divided by that sum. */
  lemma ScaledPairInSimplex(c0: Float, c1: Float)
    requires IsFinite(c0) && IsFinite(c1) && 0.0 <= c0.r <= 1.0 && 0.0 <= c1.r <= 1.0
    requires Gt(Add(c0, c1), One)
    ensures var t := VecBase.Times([c0, c1], Div(One, Add(c0, c1)));
      InSimplex(UV2Bary(t[0], t[1]))
  {
    var x0, x1 := c0.r, c1.r;
    var f := 1.0 / (x0 + x1);
    var t := VecBase.Times([c0, c1], Div(One, Add(c0, c1)));
    assert Div(One, Add(c0, c1)) == Fin(f);
    MulFinite(x0, f);
    MulFinite(x1, f);
    assert t[0] == Fin(x0 * f) && t[1] == Fin(x1 * f);
    ScaledTriangleInSimplex(x0, x1, f);
  }

  lemma ScaledTriangleInSimplex(x0: real, x1: real, f: real)
    requires 0.0 <= x0 <= 1.0 && 0.0 <= x1 <= 1.0 && x0 + x1 > 1.0 && f == 1.0 / (x0 + x1)
    ensures InSimplex(UV2Bary(Fin(x0 * f), Fin(x1 * f)))
  {
    ScaledCoordinates2(x0, x1, f);
    CoordinateSum3(UV2Bary(Fin(x0 * f), Fin(x1 * f)));
  }

  lemma UnscaledTriangleInSimplex(x0: real, x1: real)
    requires 0.0 <= x0 <= 1.0 && 0.0 <= x1 <= 1.0 && x0 + x1 <= 1.0
    ensures InSimplex(UV2Bary(Fin(x0), Fin(x1)))
  {
    CoordinateSum3(UV2Bary(Fin(x0), Fin(x1)));
  }

  /** Unless one of its last three components is NaN, a clamped tetrahedron
      coordinate lies in the closed tetrahedron. */
  lemma ClampedTetraInSimplex(bc: seq<Float>)
    requires |bc| == 4 && !IsNaN(bc[1]) && !IsNaN(bc[2]) && !IsNaN(bc[3])
    ensures InSimplex(ClampedTetra(bc))
  {
    ClampedIsUnit(bc[1]);
    ClampedIsUnit(bc[2]);
    ClampedIsUnit(bc[3]);
    TetraFromUnitValues(UtilsFloat.Clamp(bc[1], Zero, One), UtilsFloat.Clamp(bc[2], Zero, One),
                        UtilsFloat.Clamp(bc[3], Zero, One));
  }

  lemma TetraFromUnitValues(c0: Float, c1: Float, c2: Float)
    requires IsFinite(c0) && IsFinite(c1) && IsFinite(c2)
    requires 0.0 <= c0.r <= 1.0 && 0.0 <= c1.r <= 1.0 && 0.0 <= c2.r <= 1.0
    ensures var sum := Add(Add(c0, c1), c2);
            var n := if Gt(sum, One) then VecBase.Times([c0, c1, c2], Div(One, sum)) else [c0, c1, c2];
            InSimplex(UVW2Bary(n[0], n[1], n[2]))
  {
    var x0, x1, x2 := c0.r, c1.r, c2.r;
    if x0 + x1 + x2 > 1.0 {
      var f := 1.0 / (x0 + x1 + x2);
      var t := VecBase.Times([c0, c1, c2], Div(One, Add(Add(c0, c1), c2)));
      assert Div(One, Add(Add(c0, c1), c2)) == Fin(f);
      assert t[0] == Fin(x0 * f) && t[1] == Fin(x1 * f) && t[2] == Fin(x2 * f);
      ScaledTetraInSimplex(x0, x1, x2, f);
    } else {
      UnscaledTetraInSimplex(x0, x1, x2);
    }
  }

  lemma ScaledTetraInSimplex(x0: real, x1: real, x2: real, f: real)
    requires 0.0 <= x0 <= 1.0 && 0.0 <= x1 <= 1.0 && 0.0 <= x2 <= 1.0
    requires x0 + x1 + x2 > 1.0 && f == 1.0 / (x0 + x1 + x2)
    ensures InSimplex(UVW2Bary(Fin(x0 * f), Fin(x1 * f), Fin(x2 * f)))
  {
    ScaledCoordinates3(x0, x1, x2, f);
    CoordinateSum4(UVW2Bary(Fin(x0 * f), Fin(x1 * f), Fin(x2 * f)));
  }

  lemma UnscaledTetraInSimplex(x0: real, x1: real, x2: real)
    requires 0.0 <= x0 <= 1.0 && 0.0 <= x1 <= 1.0 && 0.0 <= x2 <= 1.0 && x0 + x1 + x2 <= 1.0
    ensures InSimplex(UVW2Bary(Fin(x0), Fin(x1), Fin(x2)))
  {
    CoordinateSum4(UVW2Bary(Fin(x0), Fin(x1), Fin(x2)));
  }

  lemma ScaledCoordinates2(x0: real, x1: real, f: real)
    requires 0.0 <= x0 <= 1.0 && 0.0 <= x1 <= 1.0 && x0 + x1 > 1.0 && f == 1.0 / (x0 + x1)
    ensures 0.0 <= x0 * f <= 1.0 && 0.0 <= x1 * f <= 1.0 && x0 * f + x1 * f == 1.0
  {
    var s := x0 + x1;
    assert s * f == 1.0;
    assert f > 0.0;
    assert x0 * f + x1 * f == s * f;
    ProductNotNegative(x0, f, x0 * f);
    ProductNotNegative(x1, f, x1 * f);
  }

  lemma ScaledCoordinates3(x0: real, x1: real, x2: real, f: real)
    requires 0.0 <= x0 <= 1.0 && 0.0 <= x1 <= 1.0 && 0.0 <= x2 <= 1.0
    requires x0 + x1 + x2 > 1.0 && f == 1.0 / (x0 + x1 + x2)
    ensures 0.0 <= x0 * f <= 1.0 && 0.0 <= x1 * f <= 1.0 && 0.0 <= x2 * f <= 1.0
    ensures x0 * f + x1 * f + x2 * f == 1.0
  {
    var s := x0 + x1 + x2;
    assert s * f == 1.0;
    assert f > 0.0;
    assert x0 * f + x1 * f + x2 * f == s * f;
    ProductNotNegative(x0, f, x0 * f);
    ProductNotNegative(x1, f, x1 * f);
    ProductNotNegative(x2, f, x2 * f);
  }

  /** A line coordinate on the segment is left as it is. */
  lemma ClampedLineKeepsSimplex(bc: seq<Float>)
    requires |bc| == 2 && InSimplex(bc)
    ensures ClampedLine(bc) == bc
  {
    CoordinateSum2(bc);
  }

  /** A triangle coordinate in the closed triangle is left as it is. */
  lemma ClampedTriangleKeepsSimplex(bc: seq<Float>)
    requires |bc| == 3 && InSimplex(bc)
    ensures ClampedTriangle(bc) == bc
  {
    CoordinateSum3(bc);
    assert Le(Zero, bc[1]) && Le(bc[1], One) && Le(Zero, bc[2]) && Le(bc[2], One);
  }

  /** A tetrahedron coordinate in the closed tetrahedron is left as it is. */
  lemma ClampedTetraKeepsSimplex(bc: seq<Float>)
    requires |bc| == 4 && InSimplex(bc)
    ensures ClampedTetra(bc) == bc
  {
    CoordinateSum4(bc);
    assert Le(Zero, bc[1]) && Le(bc[1], One) && Le(Zero, bc[2]) && Le(bc[2], One);
    assert Le(Zero, bc[3]) && Le(bc[3], One);
  }

  /** Clamping a line coordinate twice is clamping it once. */
  lemma ClampedLineIdempotent(bc: seq<Float>)
    requires |bc| == 2
    ensures ClampedLine(ClampedLine(bc)) == ClampedLine(bc)
  {
    if !IsNaN(bc[1]) {
      ClampedLineInSimplex(bc);
      ClampedLineKeepsSimplex(ClampedLine(bc));
    }
  }

  /** Clamping a triangle coordinate twice is clamping it once, NaN
      components included. */
  lemma ClampedTriangleIdempotent(bc: seq<Float>)
    requires |bc| == 3
    ensures ClampedTriangle(ClampedTriangle(bc)) == ClampedTriangle(bc)
  {
    if !IsNaN(bc[1]) && !IsNaN(bc[2]) {
      ClampedTriangleInSimplex(bc);
      ClampedTriangleKeepsSimplex(ClampedTriangle(bc));
    } else {
      var c0, c1 := UtilsFloat.Clamp(bc[1], Zero, One), UtilsFloat.Clamp(bc[2], Zero, One);
      assert IsNaN(c0) || IsNaN(c1);
      assert ClampedTriangle(bc) == UV2Bary(c0, c1);
      assert UtilsFloat.Clamp(c0, Zero, One) == c0 && UtilsFloat.Clamp(c1, Zero, One) == c1;
    }
  }

  /** Clamping a tetrahedron coordinate twice is clamping it once, NaN
      components included. */
  lemma ClampedTetraIdempotent(bc: seq<Float>)
    requires |bc| == 4
    ensures ClampedTetra(ClampedTetra(bc)) == ClampedTetra(bc)
  {
    if !IsNaN(bc[1]) && !IsNaN(bc[2]) && !IsNaN(bc[3]) {
      ClampedTetraInSimplex(bc);
      ClampedTetraKeepsSimplex(ClampedTetra(bc));
    } else {
      var c0, c1, c2 := UtilsFloat.Clamp(bc[1], Zero, One), UtilsFloat.Clamp(bc[2], Zero, One),
                        UtilsFloat.Clamp(bc[3], Zero, One);
      assert IsNaN(c0) || IsNaN(c1) || IsNaN(c2);
      assert ClampedTetra(bc) == UVW2Bary(c0, c1, c2);
      assert UtilsFloat.Clamp(c0, Zero, One) == c0 && UtilsFloat.Clamp(c1, Zero, One) == c1;
      assert UtilsFloat.Clamp(c2, Zero, One) == c2;
    }
  }

  /** Distinct finite points are at a positive finite squared distance. */
  lemma {:induction false} SquaredDistancePositive(a: seq<Float>, b: seq<Float>)
    requires |a| == |b| && VecBase.AllFinite(a) && VecBase.AllFinite(b) && a != b
    ensures IsFinite(VecBase.SquaredDistance(a, b)) && VecBase.SquaredDistance(a, b).r > 0.0
  {
    var k := |a| - 1;
    var p, q := a[..k], b[..k];
    assert VecBase.AllFinite(p) && VecBase.AllFinite(q);
    SquaredDistanceFinite(p, q);
    LastTermFacts(a, b);
    if p == q {
      LastDiffers(a, b);
    } else {
      SquaredDistancePositive(p, q);
    }
  }

  /** The last component adds a finite amount that is not negative, and a
      positive one when the last components differ. */
  lemma LastTermFacts(a: seq<Float>, b: seq<Float>)
    requires |a| == |b| > 0 && VecBase.AllFinite(a) && VecBase.AllFinite(b)
    requires IsFinite(VecBase.SquaredDistance(a[..|a| - 1], b[..|b| - 1]))
    ensures IsFinite(VecBase.SquaredDistance(a, b))
    ensures VecBase.SquaredDistance(a, b).r >= VecBase.SquaredDistance(a[..|a| - 1], b[..|b| - 1]).r
    ensures a[|a| - 1] != b[|b| - 1] ==>
      VecBase.SquaredDistance(a, b).r > VecBase.SquaredDistance(a[..|a| - 1], b[..|b| - 1]).r
  {
    var k := |a| - 1;
    assert IsFinite(a[k]) && IsFinite(b[k]);
    SquareFacts(Sub(a[k], b[k]));
  }

  lemma LastDiffers<T>(a: seq<T>, b: seq<T>)
    requires |a| == |b| > 0 && a != b && a[..|a| - 1] == b[..|b| - 1]
    ensures a[|a| - 1] != b[|b| - 1]
  {
    assert a == a[..|a| - 1] + [a[|a| - 1]] && b == b[..|b| - 1] + [b[|b| - 1]];
  }

  /** Finite points are at a finite squared distance that is not negative. */
  lemma {:induction false} SquaredDistanceFinite(a: seq<Float>, b: seq<Float>)
    requires |a| == |b| && VecBase.AllFinite(a) && VecBase.AllFinite(b)
    ensures IsFinite(VecBase.SquaredDistance(a, b)) && VecBase.SquaredDistance(a, b).r >= 0.0
  {
    if |a| > 0 {
      var k := |a| - 1;
      assert VecBase.AllFinite(a[..k]) && VecBase.AllFinite(b[..k]);
      assert IsFinite(a[k]) && IsFinite(b[k]);
      SquaredDistanceFinite(a[..k], b[..k]);
      SquareFacts(Sub(a[k], b[k]));
    }
  }

  /** The square of a finite value is finite, not negative, and positive
      unless the value is zero. */
  lemma SquareFacts(x: Float)
    requires IsFinite(x)
    ensures IsFinite(Mul(x, x)) && Mul(x, x).r >= 0.0
    ensures x.r != 0.0 ==> Mul(x, x).r > 0.0
  {
    SquareNotNegative(x.r, Mul(x, x).r);
    if x.r != 0.0 {
      SquarePositive(x.r, Mul(x, x).r);
    }
  }
}
