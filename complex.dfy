/** Complex numbers (the C# classes `Complex` and `Imag`). A `Complex` object
    holds a real and an imaginary part that `SetZero` overwrites in place; every
    operator builds a fresh object. The datatype `ComplexValue` is the number an
    object holds, and the functions on it specify the operators. */
module Complexes {
  import opened Floats
  import RealFacts

  /** The number held by a `Complex` object. */
  datatype ComplexValue = ComplexValue(re: Float, im: Float)

  /** The imaginary unit as a complex number. */
  const Unit: ComplexValue := ComplexValue(Zero, One)

  /** A real number seen as a complex number with a zero imaginary part. */
  function OfReal(r: Float): ComplexValue {
    ComplexValue(r, Zero)
  }

  predicate IsFiniteValue(z: ComplexValue) {
    IsFinite(z.re) && IsFinite(z.im)
  }

  // ---------------------------------------------------------------------------
  // Arithmetic on values

  function Sum(a: ComplexValue, b: ComplexValue): ComplexValue {
    ComplexValue(Add(a.re, b.re), Add(a.im, b.im))
  }

  function Difference(a: ComplexValue, b: ComplexValue): ComplexValue {
    ComplexValue(Sub(a.re, b.re), Sub(a.im, b.im))
  }

  function Negation(z: ComplexValue): ComplexValue {
    ComplexValue(Neg(z.re), Neg(z.im))
  }

  /** (a + bi)(c + di) = (ac - bd) + (bc + ad)i. */
  function Product(a: ComplexValue, b: ComplexValue): ComplexValue {
    ComplexValue(Sub(Mul(a.re, b.re), Mul(a.im, b.im)), Add(Mul(a.im, b.re), Mul(a.re, b.im)))
  }

  /** `z * s`: both parts multiplied by the real `s`. */
  function Scaled(z: ComplexValue, s: Float): ComplexValue {
    ComplexValue(Mul(z.re, s), Mul(z.im, s))
  }

  /** `z / r`: both parts divided by the real `r`. */
  function Shrunk(z: ComplexValue, r: Float): ComplexValue {
    ComplexValue(Div(z.re, r), Div(z.im, r))
  }

  function Conjugate(z: ComplexValue): ComplexValue {
    ComplexValue(z.re, Neg(z.im))
  }

  /** The squared modulus `re * re + im * im`. */
  function NormOf(z: ComplexValue): (n: Float)
    ensures !Lt(n, Zero)
    ensures !IsNaN(z.re) && !IsNaN(z.im) ==> Ge(n, Zero)
  {
    MulSelfNotNegative(z.re);
    MulSelfNotNegative(z.im);
    AddNotNegative(Mul(z.re, z.re), Mul(z.im, z.im));
    Add(Mul(z.re, z.re), Mul(z.im, z.im))
  }

  /** Division through the conjugate: `zA * Conj(zB) / Norm(zB)`. */
  function Quotient(a: ComplexValue, b: ComplexValue): ComplexValue {
    Shrunk(Product(a, Conjugate(b)), NormOf(b))
  }

  /** `i * z` and `z * i`: a quarter turn, `(-im, re)`. */
  function QuarterTurn(z: ComplexValue): ComplexValue {
    ComplexValue(Neg(z.im), z.re)
  }

  // ---------------------------------------------------------------------------
  // Laws of the value arithmetic

  lemma FiniteProductWithConjugate(a: ComplexValue, b: ComplexValue)
    requires IsFiniteValue(a) && IsFiniteValue(b)
    ensures Product(a, Conjugate(b))
         == ComplexValue(Fin(a.re.r * b.re.r + a.im.r * b.im.r), Fin(a.im.r * b.re.r - a.re.r * b.im.r))
  {
    var p, q, x, y := a.re.r, a.im.r, b.re.r, b.im.r;
    assert Conjugate(b) == ComplexValue(Fin(x), Fin(-y));
    assert Mul(a.re, Fin(x)) == Fin(p * x);
    assert Mul(a.im, Fin(-y)) == Fin(-(q * y));
    assert Mul(a.im, Fin(x)) == Fin(q * x);
    assert Mul(a.re, Fin(-y)) == Fin(-(p * y));
    assert Sub(Fin(p * x), Fin(-(q * y))) == Fin(p * x + q * y);
    assert Add(Fin(q * x), Fin(-(p * y))) == Fin(q * x - p * y);
  }

  /** On finite parts the norm is the sum of the squared parts. */
  lemma FiniteNorm(z: ComplexValue)
    requires IsFiniteValue(z)
    ensures NormOf(z) == Fin(z.re.r * z.re.r + z.im.r * z.im.r)
  {
    assert Mul(z.re, z.re) == Fin(z.re.r * z.re.r);
    assert Mul(z.im, z.im) == Fin(z.im.r * z.im.r);
  }

  lemma FiniteShrunk(z: ComplexValue, r: Float)
    requires IsFiniteValue(z) && IsFinite(r) && r != Zero
    ensures Shrunk(z, r) == ComplexValue(Fin(z.re.r / r.r), Fin(z.im.r / r.r))
  {
  }

  lemma ConjugateInvolutive(z: ComplexValue)
    ensures Conjugate(Conjugate(z)) == z
  {
    NegInvolutive(z.im);
  }

  /** The product commutes, special values included. */
  lemma ProductCommutes(a: ComplexValue, b: ComplexValue)
    ensures Product(a, b) == Product(b, a)
  {
    MulCommutes(a.re, b.re);
    MulCommutes(a.im, b.im);
    MulCommutes(a.im, b.re);
    MulCommutes(a.re, b.im);
    AddCommutes(Mul(a.im, b.re), Mul(a.re, b.im));
  }

  /** `z * Conj(z)` is the norm on the real axis, for a finite `z`. */
  lemma ProductWithConjugateIsNorm(z: ComplexValue)
    requires IsFiniteValue(z)
    ensures Product(z, Conjugate(z)) == OfReal(NormOf(z))
  {
  }

  /** Dividing and multiplying back by a finite non-zero divisor gives the dividend. */
  lemma QuotientTimesDivisor(a: ComplexValue, b: ComplexValue)
    requires IsFiniteValue(a) && IsFiniteValue(b) && NormOf(b) != Zero
    ensures Product(Quotient(a, b), b) == a
  {
    FiniteNorm(b);
    FiniteQuotient(a, b);
    UndoQuotient(a, b, Quotient(a, b), NormOf(b).r);
  }

  /** On finite parts, with a non-zero norm, the quotient is the textbook formula. */
  lemma FiniteQuotient(a: ComplexValue, b: ComplexValue)
    requires IsFiniteValue(a) && IsFiniteValue(b) && NormOf(b) != Zero
    ensures var p, q, x, y, n := a.re.r, a.im.r, b.re.r, b.im.r, NormOf(b).r;
      n > 0.0 && Quotient(a, b) == ComplexValue(Fin((p * x + q * y) / n), Fin((q * x - p * y) / n))
  {
    FiniteNorm(b);
    FiniteProductWithConjugate(a, b);
    var pc := Product(a, Conjugate(b));
    FiniteShrunk(pc, NormOf(b));
  }

  /** The product on parts given as reals. */
  lemma ProductOfParts(a: real, b: real, c: real, d: real)
    ensures Product(ComplexValue(Fin(a), Fin(b)), ComplexValue(Fin(c), Fin(d)))
         == ComplexValue(Fin(a * c - b * d), Fin(b * c + a * d))
  {
    assert Mul(Fin(a), Fin(c)) == Fin(a * c);
    assert Mul(Fin(b), Fin(d)) == Fin(b * d);
    assert Mul(Fin(b), Fin(c)) == Fin(b * c);
    assert Mul(Fin(a), Fin(d)) == Fin(a * d);
  }

  /** Multiplying the textbook quotient of `p + qi` by `x + yi` back by `x + yi`. */
  lemma UndoQuotient(a: ComplexValue, b: ComplexValue, z: ComplexValue, n: real)
    requires IsFiniteValue(a) && IsFiniteValue(b)
    requires n > 0.0 && n == b.re.r * b.re.r + b.im.r * b.im.r
    requires z == ComplexValue(Fin((a.re.r * b.re.r + a.im.r * b.im.r) / n),
                               Fin((a.im.r * b.re.r - a.re.r * b.im.r) / n))
    ensures Product(z, b) == a
  {
    TimesQuotient(a.re.r * b.re.r + a.im.r * b.im.r, n);
    TimesQuotient(a.im.r * b.re.r - a.re.r * b.im.r, n);
    RestoreProduct(a, b, z, n);
  }

  /** `z` with `z * |b|^2 == a * conj(b)`, multiplied by `b`, gives back `a`. */
  lemma RestoreProduct(a: ComplexValue, b: ComplexValue, z: ComplexValue, n: real)
    requires IsFiniteValue(a) && IsFiniteValue(b) && IsFiniteValue(z)
    requires n > 0.0 && n == b.re.r * b.re.r + b.im.r * b.im.r
    requires z.re.r * n == a.re.r * b.re.r + a.im.r * b.im.r
    requires z.im.r * n == a.im.r * b.re.r - a.re.r * b.im.r
    ensures Product(z, b) == a
  {
    var p, q, x, y, c, d := a.re.r, a.im.r, b.re.r, b.im.r, z.re.r, z.im.r;
    QuotientIdentities(p, q, x, y, n, c, d);
    ProductOfParts(c, d, x, y);
    assert z == ComplexValue(Fin(c), Fin(d)) && b == ComplexValue(Fin(x), Fin(y));
    assert a == ComplexValue(Fin(p), Fin(q));
  }

  lemma TimesQuotient(u: real, n: real)
    requires n > 0.0
    ensures (u / n) * n == u
  {
  }

  lemma Cancel(u: real, v: real, n: real)
    requires n > 0.0 && u * n == v * n
    ensures u == v
  {
    assert (u - v) * n == 0.0;
  }

  /** The real-number identity behind `QuotientTimesDivisor`, with the parts
      `c` and `d` of the quotient given through their products with `n`. */
  lemma QuotientIdentities(p: real, q: real, x: real, y: real, n: real, c: real, d: real)
    requires n > 0.0 && n == x * x + y * y
    requires c * n == p * x + q * y && d * n == q * x - p * y
    ensures c * x - d * y == p
    ensures d * x + c * y == q
  {
    assert (c * x - d * y) * n == (c * n) * x - (d * n) * y;
    assert (c * x - d * y) * n == p * n;
    Cancel(c * x - d * y, p, n);
    assert (d * x + c * y) * n == (d * n) * x + (c * n) * y;
    assert (d * x + c * y) * n == q * n;
    Cancel(d * x + c * y, q, n);
  }

  /** The quarter turn is multiplication by the unit, for a finite `z`. */
  lemma QuarterTurnIsProductWithUnit(z: ComplexValue)
    requires IsFiniteValue(z)
    ensures QuarterTurn(z) == Product(Unit, z)
    ensures QuarterTurn(z) == Product(z, Unit)
  {
  }

  // ---------------------------------------------------------------------------
  // The objects

  class Complex {
    var Real: Float
    var Imaginary: Float

    function Value(): ComplexValue
      reads this
    {
      ComplexValue(Real, Imaginary)
    }

    /** `Complex()`: zero, through `SetZero`. */
    constructor ()
      ensures Value() == ComplexValue(Zero, Zero)
    {
      new;
      SetZero();
    }

    /** `Complex(float real)`. */
    constructor FromReal(realPart: Float)
      ensures Value() == OfReal(realPart)
    {
      Real := realPart;
      Imaginary := Zero;
    }

    /** `Complex(float real, float imag)`. */
    constructor Of(realPart: Float, imagPart: Float)
      ensures Value() == ComplexValue(realPart, imagPart)
    {
      Real := realPart;
      Imaginary := imagPart;
    }

    method SetZero()
      modifies this
      ensures Value() == ComplexValue(Zero, Zero)
    {
      Real := Zero;
      Imaginary := Zero;
    }

    /** Unary `+` hands back the operand itself, not a copy. */
    static method Identity(z: Complex) returns (w: Complex)
      ensures w == z
    {
      w := z;
    }

    /** `float + Complex`: the real operand is promoted. */
    static method AddRealComplex(r: Float, z: Complex) returns (w: Complex)
      ensures fresh(w) && w.Value() == Sum(OfReal(r), z.Value())
    {
      w := new Complex.Of(Add(r, z.Real), z.Imaginary);
      assert Add(Zero, z.Imaginary) == z.Imaginary;
    }

    static method AddComplexReal(z: Complex, r: Float) returns (w: Complex)
      ensures fresh(w) && w.Value() == Sum(z.Value(), OfReal(r))
    {
      w := new Complex.Of(Add(z.Real, r), z.Imaginary);
      assert Add(z.Imaginary, Zero) == z.Imaginary;
    }

    static method AddImagComplex(i: Imag, z: Complex) returns (w: Complex)
      ensures fresh(w) && w.Value() == Sum(Unit, z.Value())
    {
      w := new Complex.Of(z.Real, Add(One, z.Imaginary));
      assert Add(Zero, z.Real) == z.Real;
    }

    static method AddComplexImag(z: Complex, i: Imag) returns (w: Complex)
      ensures fresh(w) && w.Value() == Sum(z.Value(), Unit)
    {
      w := new Complex.Of(z.Real, Add(z.Imaginary, One));
      assert Add(z.Real, Zero) == z.Real;
    }

    static method AddComplex(zA: Complex, zB: Complex) returns (w: Complex)
      ensures fresh(w) && w.Value() == Sum(zA.Value(), zB.Value())
    {
      w := new Complex.Of(Add(zA.Real, zB.Real), Add(zA.Imaginary, zB.Imaginary));
    }

    static method Negate(z: Complex) returns (w: Complex)
      ensures fresh(w) && w.Value() == Negation(z.Value())
    {
      w := new Complex.Of(Neg(z.Real), Neg(z.Imaginary));
    }

    /** `float - Complex` as written: the imaginary part is not negated. */
    static method SubRealComplexAsWritten(r: Float, z: Complex) returns (w: Complex)
      ensures fresh(w) && w.Value() == ComplexValue(Sub(r, z.Real), z.Imaginary)
    {
      w := new Complex.Of(Sub(r, z.Real), z.Imaginary);
    }

    /** `float - Complex` as intended: the promoted real minus the complex. */
    static method SubRealComplex(r: Float, z: Complex) returns (w: Complex)
      ensures fresh(w) && w.Value() == Difference(OfReal(r), z.Value())
    {
      w := new Complex.Of(Sub(r, z.Real), Sub(Zero, z.Imaginary));
    }

    static method SubComplexReal(z: Complex, r: Float) returns (w: Complex)
      ensures fresh(w) && w.Value() == Difference(z.Value(), OfReal(r))
    {
      w := new Complex.Of(Sub(z.Real, r), z.Imaginary);
      assert Sub(z.Imaginary, Zero) == z.Imaginary;
    }

    /** `Imag - Complex` as written: the real part is not negated. */
    static method SubImagComplexAsWritten(i: Imag, z: Complex) returns (w: Complex)
      ensures fresh(w) && w.Value() == ComplexValue(z.Real, Sub(One, z.Imaginary))
    {
      w := new Complex.Of(z.Real, Sub(One, z.Imaginary));
    }

    /** `Imag - Complex` as intended: the unit minus the complex. */
    static method SubImagComplex(i: Imag, z: Complex) returns (w: Complex)
      ensures fresh(w) && w.Value() == Difference(Unit, z.Value())
    {
      w := new Complex.Of(Sub(Zero, z.Real), Sub(One, z.Imaginary));
    }

    static method SubComplexImag(z: Complex, i: Imag) returns (w: Complex)
      ensures fresh(w) && w.Value() == Difference(z.Value(), Unit)
    {
      w := new Complex.Of(z.Real, Sub(z.Imaginary, One));
      assert Sub(z.Real, Zero) == z.Real;
    }

    static method SubComplex(zA: Complex, zB: Complex) returns (w: Complex)
      ensures fresh(w) && w.Value() == Difference(zA.Value(), zB.Value())
    {
      w := new Complex.Of(Sub(zA.Real, zB.Real), Sub(zA.Imaginary, zB.Imaginary));
    }

    /** `float * Complex`. */
    static method MulRealComplex(s: Float, z: Complex) returns (w: Complex)
      ensures fresh(w) && w.Value() == ComplexValue(Mul(s, z.Real), Mul(s, z.Imaginary))
      ensures w.Value() == Scaled(z.Value(), s)
    {
      w := new Complex.Of(Mul(s, z.Real), Mul(s, z.Imaginary));
      MulCommutes(s, z.Real);
      MulCommutes(s, z.Imaginary);
    }

    static method MulComplexReal(z: Complex, s: Float) returns (w: Complex)
      ensures fresh(w) && w.Value() == Scaled(z.Value(), s)
    {
      w := new Complex.Of(Mul(z.Real, s), Mul(z.Imaginary, s));
    }

    static method MulImagComplex(i: Imag, z: Complex) returns (w: Complex)
      ensures fresh(w) && w.Value() == QuarterTurn(z.Value())
    {
      w := new Complex.Of(Neg(z.Imaginary), z.Real);
    }

    static method MulComplexImag(z: Complex, i: Imag) returns (w: Complex)
      ensures fresh(w) && w.Value() == QuarterTurn(z.Value())
    {
      w := new Complex.Of(Neg(z.Imaginary), z.Real);
    }

    static method MulComplex(zA: Complex, zB: Complex) returns (w: Complex)
      ensures fresh(w) && w.Value() == Product(zA.Value(), zB.Value())
    {
      w := new Complex.Of(
        Sub(Mul(zA.Real, zB.Real), Mul(zA.Imaginary, zB.Imaginary)),
        Add(Mul(zA.Imaginary, zB.Real), Mul(zA.Real, zB.Imaginary)));
    }

    /** `float / Complex`: `r * Conj(z) / Norm(z)`. */
    static method DivRealComplex(r: Float, z: Complex) returns (w: Complex)
      ensures fresh(w) && w.Value() == Shrunk(Scaled(Conjugate(z.Value()), r), NormOf(z.Value()))
    {
      var conj := z.Conj();
      var scaled := MulRealComplex(r, conj);
      w := DivComplexReal(scaled, z.Norm());
    }

    static method DivComplexReal(z: Complex, r: Float) returns (w: Complex)
      ensures fresh(w) && w.Value() == Shrunk(z.Value(), r)
    {
      w := new Complex.Of(Div(z.Real, r), Div(z.Imaginary, r));
    }

    /** `Imag / Complex`: `i * (1 / z)`. */
    static method DivImagComplex(i: Imag, z: Complex) returns (w: Complex)
      ensures fresh(w)
      ensures w.Value() == QuarterTurn(Shrunk(Scaled(Conjugate(z.Value()), One), NormOf(z.Value())))
    {
      var inv := DivRealComplex(One, z);
      w := MulImagComplex(i, inv);
    }

    static method DivComplexImag(z: Complex, i: Imag) returns (w: Complex)
      ensures fresh(w) && w.Value() == ComplexValue(z.Imaginary, Neg(z.Real))
    {
      w := new Complex.Of(z.Imaginary, Neg(z.Real));
    }

    static method DivComplex(zA: Complex, zB: Complex) returns (w: Complex)
      ensures fresh(w) && w.Value() == Quotient(zA.Value(), zB.Value())
    {
      var conj := zB.Conj();
      var prod := MulComplex(zA, conj);
      w := DivComplexReal(prod, zB.Norm());
    }

    /** The implicit conversion from `float`. */
    static method ImplicitFromReal(r: Float) returns (w: Complex)
      ensures fresh(w) && w.Value() == OfReal(r)
    {
      w := new Complex.FromReal(r);
    }

    /** The implicit conversion from `Imag`. */
    static method ImplicitFromImag(i: Imag) returns (w: Complex)
      ensures fresh(w) && w.Value() == Unit
    {
      w := new Complex.Of(Zero, One);
    }

    method Conj() returns (w: Complex)
      ensures fresh(w) && w.Value() == Conjugate(Value())
    {
      w := new Complex.Of(Real, Neg(Imaginary));
    }

    function Norm(): (n: Float)
      reads this
      ensures n == NormOf(Value())
    {
      Add(Mul(Real, Real), Mul(Imaginary, Imaginary))
    }

    /** `Normalize()`: both parts multiplied by `1 / Abs()`, where `Abs()` is
        `Math.Sqrt(Norm())`; the square root is the parameter `sqrt`. */
    method Normalize(sqrt: Float -> Float)
      modifies this
      ensures Value() == Scaled(old(Value()), Div(One, sqrt(NormOf(old(Value())))))
    {
      var factor := Div(One, sqrt(Norm()));
      Real := Mul(Real, factor);
      Imaginary := Mul(Imaginary, factor);
    }

    /** `GetNormalized()`: `this / Abs()`, a fresh object. */
    method GetNormalized(sqrt: Float -> Float) returns (w: Complex)
      ensures fresh(w) && w.Value() == Shrunk(Value(), sqrt(NormOf(Value())))
    {
      w := DivComplexReal(this, sqrt(Norm()));
    }

    predicate IsAnyNaN()
      reads this
    {
      IsNaN(Real) || IsNaN(Imaginary)
    }

    predicate IsAnyInfinity()
      reads this
    {
      IsInfinity(Real) || IsInfinity(Imaginary)
    }

    predicate IsAnyNegativeInfinity()
      reads this
    {
      IsNegativeInfinity(Real) || IsNegativeInfinity(Imaginary)
    }

    predicate IsAnyPositiveInfinity()
      reads this
    {
      IsPositiveInfinity(Real) || IsPositiveInfinity(Imaginary)
    }
  }

  // ---------------------------------------------------------------------------
  // The imaginary unit (the C# class `Imag`, which has no state)

  datatype Imag = I {
    /** Unary `+` hands back the operand. */
    static function Identity(i: Imag): (r: Imag)
      ensures r == i
    {
      i
    }

    static method Plus(iA: Imag, iB: Imag) returns (z: Complex)
      ensures fresh(z) && z.Value() == ComplexValue(Zero, Fin(2.0))
    {
      z := new Complex.Of(Zero, Fin(2.0));
    }

    static method PlusRealImag(r: Float, i: Imag) returns (z: Complex)
      ensures fresh(z) && z.Value() == ComplexValue(r, One)
    {
      z := new Complex.Of(r, One);
    }

    static method PlusImagReal(i: Imag, r: Float) returns (z: Complex)
      ensures fresh(z) && z.Value() == ComplexValue(r, One)
    {
      z := new Complex.Of(r, One);
    }

    static method Negate(i: Imag) returns (z: Complex)
      ensures fresh(z) && z.Value() == ComplexValue(Zero, Fin(-1.0))
    {
      z := new Complex.Of(Zero, Fin(-1.0));
    }

    static function Minus(iA: Imag, iB: Imag): (r: Float)
      ensures OfReal(r) == Difference(Unit, Unit)
    {
      Zero
    }

    static method MinusRealImag(r: Float, i: Imag) returns (z: Complex)
      ensures fresh(z) && z.Value() == ComplexValue(r, Fin(-1.0))
    {
      z := new Complex.Of(r, Fin(-1.0));
    }

    static method MinusImagReal(i: Imag, r: Float) returns (z: Complex)
      ensures fresh(z) && z.Value() == ComplexValue(Neg(r), One)
    {
      z := new Complex.Of(Neg(r), One);
    }

    static function Times(iA: Imag, iB: Imag): (r: Float)
      ensures OfReal(r) == Product(Unit, Unit)
    {
      UnitSquared();
      Fin(-1.0)
    }

    static method TimesRealImag(r: Float, i: Imag) returns (z: Complex)
      ensures fresh(z) && z.Value() == ComplexValue(Zero, r)
    {
      z := new Complex.Of(Zero, r);
    }

    static method TimesImagReal(i: Imag, r: Float) returns (z: Complex)
      ensures fresh(z) && z.Value() == ComplexValue(Zero, r)
    {
      z := new Complex.Of(Zero, r);
    }

    static function Over(iA: Imag, iB: Imag): (r: Float)
      ensures OfReal(r) == Quotient(Unit, Unit)
    {
      UnitOverUnit();
      One
    }

    static method OverRealImag(r: Float, i: Imag) returns (z: Complex)
      ensures fresh(z) && z.Value() == ComplexValue(Zero, Neg(r))
    {
      z := new Complex.Of(Zero, Neg(r));
    }

    static method OverImagReal(i: Imag, r: Float) returns (z: Complex)
      ensures fresh(z) && z.Value() == ComplexValue(Zero, Div(One, r))
    {
      z := new Complex.Of(Zero, Div(One, r));
    }
  }

  // ---------------------------------------------------------------------------
  // Every mixed operator agrees with the general arithmetic on promoted operands

  /** `r + i`, `i + r`, `r - i` and `i - r` are the promoted sums and differences. */
  lemma ImagSumsArePromoted(r: Float)
    requires IsFinite(r)
    ensures ComplexValue(r, One) == Sum(OfReal(r), Unit) == Sum(Unit, OfReal(r))
    ensures ComplexValue(r, Fin(-1.0)) == Difference(OfReal(r), Unit)
    ensures ComplexValue(Neg(r), One) == Difference(Unit, OfReal(r))
  {
  }

  /** `i * i` is -1. */
  lemma UnitSquared()
    ensures Product(Unit, Unit) == OfReal(Fin(-1.0))
  {
    ProductOfParts(0.0, 1.0, 0.0, 1.0);
  }

  /** `i / i` is 1. */
  lemma UnitOverUnit()
    ensures Quotient(Unit, Unit) == OfReal(One)
  {
    assert NormOf(Unit) == One;
    QuotientBySelf(Unit);
  }

  /** A finite nonzero complex number divided by itself gives 1. */
  lemma QuotientBySelf(z: ComplexValue)
    requires IsFiniteValue(z) && NormOf(z) != Zero
    ensures Quotient(z, z) == OfReal(One)
  {
    ProductWithConjugateIsNorm(z);
    FiniteNorm(z);
    var n := NormOf(z).r;
    RealFacts.DivSelf(n);
    assert Shrunk(OfReal(Fin(n)), Fin(n)) == ComplexValue(Fin(n / n), Fin(0.0 / n));
  }

  /** `r * i` and `i * r` are the promoted products. */
  lemma RealTimesUnit(r: Float)
    requires IsFinite(r)
    ensures ComplexValue(Zero, r) == Product(OfReal(r), Unit)
    ensures ComplexValue(Zero, r) == Product(Unit, OfReal(r))
  {
    var x := r.r;
    assert OfReal(r) == ComplexValue(Fin(x), Fin(0.0));
    ProductOfParts(x, 0.0, 0.0, 1.0);
    ProductOfParts(0.0, 1.0, x, 0.0);
  }

  /** `r / i` is the promoted quotient. */
  lemma RealOverUnit(r: Float)
    requires IsFinite(r)
    ensures ComplexValue(Zero, Neg(r)) == Quotient(OfReal(r), Unit)
  {
    ComplexOverUnit(OfReal(r));
  }

  /** `i / r`, computed as `(0, 1 / r)`, is the unit with both parts divided by a
      finite non-zero `r`, so that `ShrunkTimesDivisor` multiplies it back to `i`. */
  lemma UnitOverRealIsShrunk(r: Float)
    requires IsFinite(r) && r != Zero
    ensures ComplexValue(Zero, Div(One, r)) == Shrunk(Unit, r)
  {
    assert 0.0 / r.r == 0.0;
  }

  /** `z * r` and `r * z` are the promoted products, for finite operands. */
  lemma ScaledIsProduct(z: ComplexValue, r: Float)
    requires IsFiniteValue(z) && IsFinite(r)
    ensures Scaled(z, r) == Product(z, OfReal(r))
    ensures Scaled(z, r) == Product(OfReal(r), z)
  {
    var p, q, x := z.re.r, z.im.r, r.r;
    assert z == ComplexValue(Fin(p), Fin(q));
    assert OfReal(r) == ComplexValue(Fin(x), Fin(0.0));
    ProductOfParts(p, q, x, 0.0);
    ProductOfParts(x, 0.0, p, q);
    assert Scaled(z, r) == ComplexValue(Fin(p * x), Fin(q * x));
  }

  /** `z / r` multiplied back by a finite non-zero `r` gives `z`, for a finite `z`. */
  lemma ShrunkTimesDivisor(z: ComplexValue, r: Float)
    requires IsFiniteValue(z) && IsFinite(r) && r != Zero
    ensures Scaled(Shrunk(z, r), r) == z
  {
    assert (z.re.r / r.r) * r.r == z.re.r;
    assert (z.im.r / r.r) * r.r == z.im.r;
  }

  /** `r / z`, computed as `r * Conj(z) / Norm(z)`, is the promoted quotient. */
  lemma RealOverComplex(z: ComplexValue, r: Float)
    requires IsFiniteValue(z) && IsFinite(r)
    ensures Shrunk(Scaled(Conjugate(z), r), NormOf(z)) == Quotient(OfReal(r), z)
  {
    ScaledIsProduct(Conjugate(z), r);
  }

  /** `z / i`, computed as `(im, -re)`, is the general quotient. */
  lemma ComplexOverUnit(z: ComplexValue)
    requires IsFiniteValue(z)
    ensures ComplexValue(z.im, Neg(z.re)) == Quotient(z, Unit)
  {
    FiniteNorm(Unit);
    FiniteQuotient(z, Unit);
  }

  /** `i / z`, computed as `i * (1 / z)`, is the general quotient. */
  lemma UnitOverComplex(z: ComplexValue)
    requires IsFiniteValue(z)
    ensures QuarterTurn(Shrunk(Scaled(Conjugate(z), One), NormOf(z))) == Quotient(Unit, z)
  {
    UnitTimesConjugate(z);
    FiniteNorm(z);
    NegDivNeg(z.im.r, NormOf(z));
  }

  lemma UnitTimesConjugate(z: ComplexValue)
    requires IsFiniteValue(z)
    ensures Scaled(Conjugate(z), One) == Conjugate(z) == ComplexValue(Fin(z.re.r), Fin(-z.im.r))
    ensures Product(Unit, Conjugate(z)) == ComplexValue(z.im, z.re)
  {
    ProductOfParts(0.0, 1.0, z.re.r, -z.im.r);
  }

  /** `-((-y) / n)` is `y / n`, a zero divisor included. */
  lemma NegDivNeg(y: real, n: Float)
    requires IsFinite(n)
    ensures Neg(Div(Fin(-y), n)) == Div(Fin(y), n)
  {
    if n.r != 0.0 {
      assert -((-y) / n.r) == y / n.r;
    }
  }

  /** `r + z`, `z + r`, `z - r`, `i + z`, `z + i` and `z - i` are the promoted sums
      and differences, special values included. */
  lemma MixedSumsArePromoted(z: ComplexValue, r: Float)
    ensures Sum(OfReal(r), z) == ComplexValue(Add(r, z.re), z.im)
    ensures Sum(z, OfReal(r)) == ComplexValue(Add(z.re, r), z.im)
    ensures Difference(z, OfReal(r)) == ComplexValue(Sub(z.re, r), z.im)
    ensures Sum(Unit, z) == ComplexValue(z.re, Add(One, z.im))
    ensures Sum(z, Unit) == ComplexValue(z.re, Add(z.im, One))
    ensures Difference(z, Unit) == ComplexValue(z.re, Sub(z.im, One))
  {
  }

  /** The four tests classify the parts: an infinite part is a negative or a
      positive infinity, and a number with no NaN and no infinite part is finite. */
  lemma SpecialPartsClassified(z: Complex)
    ensures z.IsAnyInfinity() <==> z.IsAnyNegativeInfinity() || z.IsAnyPositiveInfinity()
    ensures !z.IsAnyNaN() && !z.IsAnyInfinity() <==> IsFiniteValue(z.Value())
  {
  }

  /** When `sqrt` returns the true root of the norm, `GetNormalized` has norm one. */
  lemma NormalizedHasUnitNorm(z: ComplexValue, len: Float)
    requires IsFiniteValue(z) && IsFinite(len) && len.r > 0.0
    requires NormOf(z) == Fin(len.r * len.r)
    ensures NormOf(Shrunk(z, len)) == One
  {
    FiniteShrunk(z, len);
    FiniteNorm(z);
    var x, y := z.re.r / len.r, z.im.r / len.r;
    FiniteNorm(ComplexValue(Fin(x), Fin(y)));
    UnitAfterDivision(z.re.r, z.im.r, len.r, len.r * len.r, x, y);
  }

  lemma UnitAfterDivision(a: real, b: real, l: real, m: real, x: real, y: real)
    requires l > 0.0 && m == l * l && a * a + b * b == m && x == a / l && y == b / l
    ensures x * x + y * y == 1.0
  {
    assert x * l == a && y * l == b;
    assert (x * x + y * y) * m == a * a + b * b by {
      assert (x * x) * (l * l) == (x * l) * (x * l);
      assert (y * y) * (l * l) == (y * l) * (y * l);
    }
    RealFacts.ProductPositive(l, l, m);
  }

  /** The as-written `float - Complex` keeps the sign of the imaginary part:
      `0 - i` comes out as `i`. */
  lemma SubRealComplexAsWrittenDiffers()
    ensures ComplexValue(Sub(Zero, Zero), One) != Difference(OfReal(Zero), Unit)
  {
  }

  /** The as-written `Imag - Complex` keeps the sign of the real part:
      `i - 1` comes out as `1 + i` instead of `-1 + i`. */
  lemma SubImagComplexAsWrittenDiffers()
    ensures ComplexValue(One, Sub(One, Zero)) != Difference(Unit, OfReal(One))
  {
  }
}
