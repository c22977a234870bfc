/** The C# `float` of the library, seen without rounding: a finite value is an
    exact real, and the special values +-infinity and NaN behave as IEEE-754
    prescribes for them. Signed zero and NaN payloads are not distinguished. */
module Floats {

  datatype Float = NegInf | Fin(r: real) | PosInf | NaN

  const Zero: Float := Fin(0.0)
  const One: Float := Fin(1.0)
  const Half: Float := Fin(0.5)

  predicate IsNaN(x: Float) { x.NaN? }
  predicate IsPositiveInfinity(x: Float) { x.PosInf? }
  predicate IsNegativeInfinity(x: Float) { x.NegInf? }
  predicate IsInfinity(x: Float) { x.PosInf? || x.NegInf? }
  predicate IsFinite(x: Float) { x.Fin? }

  /** Position on the extended real line, for values that are not NaN. */
  function Rank(x: Float): int
    requires !x.NaN?
  {
    match x
    case NegInf => 0
    case Fin(_) => 1
    case PosInf => 2
  }

  /** The ordered comparison `a < b`: false whenever either side is NaN. */
  predicate Lt(a: Float, b: Float) {
    !a.NaN? && !b.NaN? &&
    if a.Fin? && b.Fin? then a.r < b.r else Rank(a) < Rank(b)
  }

  predicate Gt(a: Float, b: Float) { Lt(b, a) }

  /** The ordered comparison `a <= b`: false whenever either side is NaN. */
  predicate Le(a: Float, b: Float) { Lt(a, b) || (a == b && !a.NaN?) }

  predicate Ge(a: Float, b: Float) { Le(b, a) }

  /** Sign of a value that is not NaN; zero counts as positive (+0). */
  function Sign(x: Float): int
    requires !x.NaN?
  {
    match x
    case NegInf => -1
    case PosInf => 1
    case Fin(r) => if r < 0.0 then -1 else 1
  }

  function Neg(x: Float): Float {
    match x
    case NegInf => PosInf
    case PosInf => NegInf
    case Fin(r) => Fin(-r)
    case NaN => NaN
  }

  function Add(a: Float, b: Float): Float {
    if a.NaN? || b.NaN? then NaN
    else if a.Fin? && b.Fin? then Fin(a.r + b.r)
    else if (a.PosInf? && b.NegInf?) || (a.NegInf? && b.PosInf?) then NaN
    else if a.PosInf? || b.PosInf? then PosInf
    else NegInf
  }

  /** IEEE subtraction is addition of the negated operand. */
  function Sub(a: Float, b: Float): Float {
    Add(a, Neg(b))
  }

  function Mul(a: Float, b: Float): Float {
    if a.NaN? || b.NaN? then NaN
    else if a.Fin? && b.Fin? then Fin(a.r * b.r)
    else if a == Zero || b == Zero then NaN
    else if Sign(a) == Sign(b) then PosInf
    else NegInf
  }

  function Div(a: Float, b: Float): Float {
    if a.NaN? || b.NaN? then NaN
    else if a.Fin? && b.Fin? then
      if b.r != 0.0 then Fin(a.r / b.r)
      else if a.r == 0.0 then NaN
      else if a.r > 0.0 then PosInf
      else NegInf
    else if !a.Fin? && !b.Fin? then NaN
    else if a.Fin? then Zero
    else if Sign(a) == Sign(b) then PosInf
    else NegInf
  }

  /** Comparisons never hold when NaN is involved. */
  lemma ComparisonsRejectNaN(a: Float, b: Float)
    requires IsNaN(a) || IsNaN(b)
    ensures !Lt(a, b) && !Gt(a, b) && !Le(a, b) && !Ge(a, b)
  {
  }

  /** On values that are not NaN the order is total. */
  lemma OrderTotal(a: Float, b: Float)
    requires !IsNaN(a) && !IsNaN(b)
    ensures Lt(a, b) || a == b || Gt(a, b)
  {
  }

  lemma LeTransitive(a: Float, b: Float, c: Float)
    requires Le(a, b) && Le(b, c)
    ensures Le(a, c)
  {
  }

  lemma AddCommutes(a: Float, b: Float)
    ensures Add(a, b) == Add(b, a)
  {
  }

  lemma MulCommutes(a: Float, b: Float)
    ensures Mul(a, b) == Mul(b, a)
  {
  }

  lemma NegInvolutive(x: Float)
    ensures Neg(Neg(x)) == x
  {
  }

  /** Swapping the operands of a subtraction negates it, special values included. */
  lemma SubAntisymmetric(a: Float, b: Float)
    ensures Sub(b, a) == Neg(Sub(a, b))
  {
  }

  /** A square is never negative: it is NaN or at least zero. */
  lemma MulSelfNotNegative(x: Float)
    ensures !Lt(Mul(x, x), Zero)
    ensures !IsNaN(x) ==> Ge(Mul(x, x), Zero)
  {
  }

  /** Adding two values that are not below zero gives a value not below zero. */
  lemma AddNotNegative(x: Float, y: Float)
    requires !Lt(x, Zero) && !Lt(y, Zero)
    ensures !Lt(Add(x, y), Zero)
    ensures !IsNaN(x) && !IsNaN(y) ==> !IsNaN(Add(x, y))
  {
  }

  /** The product of two finite values is their real product. */
  lemma MulFinite(x: real, y: real)
    ensures Mul(Fin(x), Fin(y)) == Fin(x * y)
  {
  }

  lemma MulNeg(x: Float)
    ensures Mul(Neg(x), Neg(x)) == Mul(x, x)
  {
  }
}

/** The exception the library throws for an index outside its range. */
module Errors {
  datatype Result<T> = Ok(value: T) | IndexOutOfRange
}

/** Sign facts about real products, stated over separate variables so that
    the solver meets each product once. */
module RealFacts {
  lemma ProductPositive(u: real, v: real, m: real)
    requires u > 0.0 && v > 0.0 && m == u * v
    ensures m > 0.0
  {
  }

  lemma ProductNotNegative(u: real, v: real, m: real)
    requires u >= 0.0 && v >= 0.0 && m == u * v
    ensures m >= 0.0
  {
  }

  lemma SquareNotNegative(u: real, m: real)
    requires m == u * u
    ensures m >= 0.0
  {
    if u < 0.0 {
      assert m == (-u) * (-u);
      ProductNotNegative(-u, -u, m);
    } else {
      ProductNotNegative(u, u, m);
    }
  }

  lemma SquarePositive(u: real, m: real)
    requires u != 0.0 && m == u * u
    ensures m > 0.0
  {
    if u > 0.0 {
      ProductPositive(u, u, m);
    } else {
      assert m == (-u) * (-u);
      ProductPositive(-u, -u, m);
    }
  }

  lemma DivSelf(x: real)
    requires x != 0.0
    ensures x / x == 1.0
  {
  }
}
