/** The 2x2 matrix `Mtx2`: an array of two column vectors. The columns are
    `Vec2` objects held by reference, so a matrix built from caller-owned
    vectors writes through to them, and a matrix may hold one vector twice. */
module Matrices {
  import opened Floats
  import opened Errors
  import VecBase
  import opened Vectors

  /** The columns of the identity. */
  const IdentityColumns: seq<seq<Float>> := [[One, Zero], [Zero, One]]

  /** Column-major entries: `cols[c][r]` is row `r` of column `c`. */
  predicate IsSquare2(cols: seq<seq<Float>>) {
    |cols| == 2 && |cols[0]| == 2 && |cols[1]| == 2
  }

  /** The matrix-vector product, each row accumulated left to right. */
  function Apply(cols: seq<seq<Float>>, v: seq<Float>): (r: seq<Float>)
    requires IsSquare2(cols) && |v| == 2
    ensures |r| == 2
  {
    [Add(Mul(cols[0][0], v[0]), Mul(cols[1][0], v[1])),
     Add(Mul(cols[0][1], v[0]), Mul(cols[1][1], v[1]))]
  }

  /** Rows and columns exchanged. */
  function Transposed(cols: seq<seq<Float>>): (t: seq<seq<Float>>)
    requires IsSquare2(cols)
    ensures IsSquare2(t)
    ensures forall c, r :: 0 <= c < 2 && 0 <= r < 2 ==> t[c][r] == cols[r][c]
  {
    [[cols[0][0], cols[1][0]], [cols[0][1], cols[1][1]]]
  }

  lemma TransposeInvolutive(cols: seq<seq<Float>>)
    requires IsSquare2(cols)
    ensures Transposed(Transposed(cols)) == cols
  {
    var t := Transposed(Transposed(cols));
    assert t[0] == cols[0] && t[1] == cols[1];
  }

  /** The identity leaves every finite vector unchanged. */
  lemma IdentityApply(v: seq<Float>)
    requires |v| == 2 && VecBase.AllFinite(v)
    ensures Apply(IdentityColumns, v) == v
  {
    assert IsFinite(v[0]) && IsFinite(v[1]);
    var r := Apply(IdentityColumns, v);
    IdentityRow(v[0].r, v[1].r);
    assert r[0] == v[0];
    assert r[1] == v[1];
  }

  lemma IdentityRow(x: real, y: real)
    ensures 1.0 * x + 0.0 * y == x
    ensures 0.0 * x + 1.0 * y == y
  {
  }

  /** On finite entries the product distributes over vector addition. */
  lemma ApplyDistributes(cols: seq<seq<Float>>, u: seq<Float>, v: seq<Float>)
    requires IsSquare2(cols) && |u| == 2 && |v| == 2
    requires VecBase.AllFinite(cols[0]) && VecBase.AllFinite(cols[1])
    requires VecBase.AllFinite(u) && VecBase.AllFinite(v)
    ensures Apply(cols, VecBase.Plus(u, v)) == VecBase.Plus(Apply(cols, u), Apply(cols, v))
  {
    assert IsFinite(u[0]) && IsFinite(u[1]) && IsFinite(v[0]) && IsFinite(v[1]);
    assert IsFinite(cols[0][0]) && IsFinite(cols[0][1]) && IsFinite(cols[1][0]) && IsFinite(cols[1][1]);
    var l, r := Apply(cols, VecBase.Plus(u, v)), VecBase.Plus(Apply(cols, u), Apply(cols, v));
    RowDistributes(cols[0][0].r, cols[1][0].r, u[0].r, u[1].r, v[0].r, v[1].r);
    RowDistributes(cols[0][1].r, cols[1][1].r, u[0].r, u[1].r, v[0].r, v[1].r);
    assert l[0] == r[0];
    assert l[1] == r[1];
  }

  lemma RowDistributes(a: real, b: real, x: real, y: real, x': real, y': real)
    ensures a * (x + x') + b * (y + y') == (a * x + b * y) + (a * x' + b * y')
  {
  }

  class Mtx2 {
    const m_v: array<Vec2>

    predicate Valid()
      reads m_v
    {
      m_v.Length == 2 && m_v[0].Valid() && m_v[1].Valid()
    }

    /** The entries, column by column. */
    function Columns(): (cols: seq<seq<Float>>)
      requires Valid()
      reads m_v, m_v[0].m_v, m_v[1].m_v
      ensures IsSquare2(cols)
    {
      [m_v[0].Value(), m_v[1].Value()]
    }

    /** `Mtx2()`: the identity, through `SetIdentity`. The C# column array
        starts out holding nulls; a zero vector stands in for them here. */
    constructor ()
      ensures Valid() && fresh(m_v) && fresh(m_v[0]) && fresh(m_v[0].m_v)
      ensures fresh(m_v[1]) && fresh(m_v[1].m_v)
      ensures Columns() == IdentityColumns
    {
      var unset := new Vec2();
      m_v := new Vec2[] [unset, unset];
      new;
      SetIdentity();
    }

    /** `Mtx2(Vec2 col0, Vec2 col1)`: the columns are the given objects themselves. */
    constructor OfColumns(col0: Vec2, col1: Vec2)
      requires col0.Valid() && col1.Valid()
      ensures Valid() && fresh(m_v) && m_v[0] == col0 && m_v[1] == col1
      ensures Columns() == [col0.Value(), col1.Value()]
    {
      m_v := new Vec2[] [col0, col1];
    }

    /** `Mtx2(xx, xy, yx, yy)`: row-major arguments, stored as columns (xx, yx) and (xy, yy). */
    constructor Of(xx: Float, xy: Float, yx: Float, yy: Float)
      ensures Valid() && fresh(m_v) && fresh(m_v[0]) && fresh(m_v[0].m_v)
      ensures fresh(m_v[1]) && fresh(m_v[1].m_v) && m_v[0].m_v != m_v[1].m_v
      ensures Columns() == [[xx, yx], [xy, yy]]
    {
      var col0 := new Vec2.Of(xx, yx);
      var col1 := new Vec2.Of(xy, yy);
      m_v := new Vec2[] [col0, col1];
    }

    /** Both columns are replaced by new vectors holding the identity. */
    method SetIdentity()
      requires m_v.Length == 2
      modifies m_v
      ensures Valid() && fresh(m_v[0]) && fresh(m_v[0].m_v) && fresh(m_v[1]) && fresh(m_v[1].m_v)
      ensures Columns() == IdentityColumns
    {
      var col0 := new Vec2.Of(One, Zero);
      var col1 := new Vec2.Of(Zero, One);
      m_v[0] := col0;
      m_v[1] := col1;
    }

    /** The indexer's getter `this[r, c]`: row `r` of column `c`. The column is
        checked here, the row by the `Vec2` indexer. */
    method Get(r: int, c: int) returns (res: Result<Float>)
      requires Valid()
      ensures res.IndexOutOfRange? <==> !(0 <= c < 2) || !(0 <= r < 2)
      ensures res.Ok? ==> 0 <= c < 2 && 0 <= r < 2 && res.value == Columns()[c][r]
    {
      if c < 0 || c >= 2 {
        return IndexOutOfRange;
      }
      res := VecBase.Get(m_v[c].m_v, r);
    }

    /** The indexer's setter: writes row `r` of column `c` in the column object,
        so every column sharing that object sees the new value. */
    method Set(r: int, c: int, value: Float) returns (res: Result<()>)
      requires Valid()
      modifies m_v[0].m_v, m_v[1].m_v
      ensures Valid()
      ensures res.IndexOutOfRange? <==> !(0 <= c < 2) || !(0 <= r < 2)
      ensures res.IndexOutOfRange? ==> Columns() == old(Columns())
      ensures res.Ok? ==> 0 <= c < 2 && 0 <= r < 2
      ensures res.Ok? ==> forall k :: 0 <= k < 2 ==>
        Columns()[k] == (if m_v[k].m_v == m_v[c].m_v then old(Columns()[c])[r := value] else old(Columns()[k]))
    {
      if c < 0 || c >= 2 {
        return IndexOutOfRange;
      }
      res := VecBase.Set(m_v[c].m_v, r, value);
    }

    method Transform(v: Vec2) returns (r: Vec2)
      requires Valid() && v.Valid()
      ensures fresh(r) && fresh(r.m_v) && r.Valid()
      ensures r.Value() == Apply(Columns(), v.Value())
    {
      r := new Vec2.Of(
        Add(Mul(m_v[0].X(), v.X()), Mul(m_v[1].X(), v.Y())),
        Add(Mul(m_v[0].Y(), v.X()), Mul(m_v[1].Y(), v.Y())));
    }

    method Transpose() returns (t: Mtx2)
      requires Valid()
      ensures fresh(t) && t.Valid() && fresh(t.m_v[0].m_v) && fresh(t.m_v[1].m_v)
      ensures t.Columns() == Transposed(Columns())
    {
      t := new Mtx2.Of(m_v[0].m_v[0], m_v[0].m_v[1], m_v[1].m_v[0], m_v[1].m_v[1]);
    }
  }

  /** A matrix built on one caller vector used for both columns: a write through
      the indexer shows up in the caller's vector and in both columns. */
  method SharedColumnWrite(col: Vec2) returns (m: Mtx2)
    requires col.Valid()
    modifies col.m_v
    ensures m.Valid() && m.m_v[0] == col && m.m_v[1] == col
    ensures col.Value() == old(col.Value())[1 := One]
    ensures m.Columns() == [col.Value(), col.Value()]
  {
    m := new Mtx2.OfColumns(col, col);
    var res := m.Set(1, 0, One);
  }
}
