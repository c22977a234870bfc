/** Scalar helpers on floats: clamping into an interval and squaring. */
module UtilsFloat {
  import opened Floats

  /** `v` limited to `[l, u]`. A NaN `v` fails both comparisons and comes back unchanged. */
  function Clamp(v: Float, l: Float, u: Float): (r: Float)
    ensures r == l || r == u || r == v
    ensures Le(l, u) && !IsNaN(v) ==> Le(l, r) && Le(r, u)
    ensures IsNaN(v) ==> r == v
    ensures Le(l, v) && Le(v, u) ==> r == v
  {
    if Lt(v, l) then l
    else if Gt(v, u) then u
    else v
  }

  /** Clamping a value that is already clamped changes nothing. */
  lemma ClampIdempotent(v: Float, l: Float, u: Float)
    requires Le(l, u)
    ensures Clamp(Clamp(v, l, u), l, u) == Clamp(v, l, u)
  {
  }

  /** Below the interval gives `l`, above a well-formed interval gives `u`. */
  lemma ClampOutside(v: Float, l: Float, u: Float)
    ensures Lt(v, l) ==> Clamp(v, l, u) == l
    ensures Le(l, u) && Gt(v, u) ==> Clamp(v, l, u) == u
  {
  }

  /** The `ref` parameter of the C# routine is the pair (`v`, `v'`). */
  method ClampSet(v: Float, l: Float, u: Float) returns (v': Float)
    ensures v' == Clamp(v, l, u)
  {
    v' := v;
    if Lt(v', l) {
      v' := l;
    } else if Gt(v', u) {
      v' := u;
    }
  }

  function Sqr(v: Float): (r: Float)
    ensures !Lt(r, Zero)
    ensures !IsNaN(v) ==> Ge(r, Zero)
    ensures IsFinite(v) ==> IsFinite(r)
  {
    MulSelfNotNegative(v);
    Mul(v, v)
  }

  /** A value and its negation have the same square. */
  lemma SqrOfNegation(v: Float)
    ensures Sqr(Neg(v)) == Sqr(v)
  {
    MulNeg(v);
  }
}

/** Integer helpers: Euclid's greatest common divisor by subtraction, and the
    recursive and iterative factorial and Fibonacci. Integers are unbounded. */
module UtilsInt {

  /** `d` is a positive divisor of `n`. */
  predicate Divides(d: int, n: int) {
    d > 0 && n % d == 0
  }

  /** Subtraction-based Euclid, on the natural numbers its documentation names
      as its domain. Outside that domain the base cases still answer equal
      arguments or a zero argument, and every other pair with a negative
      member recurses without end, since the subtraction only moves the two
      arguments further apart. */
  function GreatestCommonDivisor(a: int, b: int): (r: int)
    requires a >= 0 && b >= 0
    ensures 0 <= r
    ensures (a > 0 || b > 0) ==> 0 < r
    ensures a > 0 ==> r <= a
    ensures b > 0 ==> r <= b
    decreases a + b
  {
    if a == b then a
    else if a == 0 then b
    else if b == 0 then a
    else if a > b then GreatestCommonDivisor(a - b, b)
    else GreatestCommonDivisor(a, b - a)
  }

  lemma MultipleIsDivisible(d: int, k: int)
    requires d > 0
    ensures (d * k) % d == 0
  {
    var q, m := (d * k) / d, (d * k) % d;
    assert d * k == d * q + m && 0 <= m < d;
    assert d * (k - q) == m;
    if k - q >= 1 {
      MulAtLeast(d, k - q);
    } else if k - q <= -1 {
      MulAtLeast(d, q - k);
    }
  }

  lemma MulAtLeast(d: int, t: int)
    requires d > 0 && t >= 1
    ensures d * t >= d
  {
  }

  lemma DividesDifference(d: int, x: int, y: int)
    requires Divides(d, x) && Divides(d, y)
    ensures Divides(d, x - y)
  {
    var p, q := x / d, y / d;
    assert x == d * p;
    assert y == d * q;
    assert x - y == d * (p - q);
    MultipleIsDivisible(d, p - q);
  }

  lemma DividesSum(d: int, x: int, y: int)
    requires Divides(d, x) && Divides(d, y)
    ensures Divides(d, x + y)
  {
    var p, q := x / d, y / d;
    assert x == d * p;
    assert y == d * q;
    assert x + y == d * (p + q);
    MultipleIsDivisible(d, p + q);
  }

  /** The result divides both arguments, and every common divisor divides it. */
  lemma {:induction false} GreatestCommonDivisorCorrect(a: int, b: int)
    requires a >= 0 && b >= 0 && (a > 0 || b > 0)
    ensures Divides(GreatestCommonDivisor(a, b), a)
    ensures Divides(GreatestCommonDivisor(a, b), b)
    ensures forall d :: Divides(d, a) && Divides(d, b) ==> Divides(d, GreatestCommonDivisor(a, b))
    decreases a + b
  {
    var r := GreatestCommonDivisor(a, b);
    if a == b {
      assert a % a == 0;
      assert Divides(r, 0);
    } else if a == 0 {
      assert b % b == 0;
    } else if b == 0 {
      assert a % a == 0;
    } else if a > b {
      GreatestCommonDivisorCorrect(a - b, b);
      DividesSum(r, a - b, b);
      forall d | Divides(d, a) && Divides(d, b) ensures Divides(d, r) {
        DividesDifference(d, a, b);
      }
    } else {
      GreatestCommonDivisorCorrect(a, b - a);
      DividesSum(r, b - a, a);
      forall d | Divides(d, a) && Divides(d, b) ensures Divides(d, r) {
        DividesDifference(d, b, a);
      }
    }
  }

  lemma {:induction false} GreatestCommonDivisorSymmetric(a: int, b: int)
    requires a >= 0 && b >= 0
    ensures GreatestCommonDivisor(a, b) == GreatestCommonDivisor(b, a)
    decreases a + b
  {
    if a != b && a != 0 && b != 0 {
      if a > b {
        GreatestCommonDivisorSymmetric(a - b, b);
      } else {
        GreatestCommonDivisorSymmetric(a, b - a);
      }
    }
  }

  /** Scaling both arguments by `k` scales the result by `k`: the subtraction
      steps on `(k * a, k * b)` are those on `(a, b)`, each times `k`. */
  lemma {:induction false} GreatestCommonDivisorScales(a: int, b: int, k: int)
    requires a >= 0 && b >= 0 && k >= 1
    ensures GreatestCommonDivisor(k * a, k * b) == k * GreatestCommonDivisor(a, b)
    decreases a + b
  {
    if a == b {
    } else if a == 0 {
      assert k * a == 0;
    } else if b == 0 {
      assert k * b == 0;
    } else if a > b {
      assert k * a - k * b == k * (a - b);
      assert k * a > k * b by { MulAtLeast(k, a - b); }
      GreatestCommonDivisorScales(a - b, b, k);
    } else {
      assert k * b - k * a == k * (b - a);
      assert k * b > k * a by { MulAtLeast(k, b - a); }
      GreatestCommonDivisorScales(a, b - a, k);
    }
  }

  /** The recursive factorial; a negative argument never reaches the base case in C#. */
  function Factorial(n: int): (r: int)
    requires n >= 0
    ensures 1 <= r
    ensures n <= r
  {
    if n == 0 || n == 1 then 1 else n * Factorial(n - 1)
  }

  /** Every factor `1..n` divides `n!`. */
  lemma {:induction false} FactorialDivisible(n: int, k: int)
    requires 1 <= k <= n
    ensures Divides(k, Factorial(n))
    decreases n
  {
    if n == 1 {
    } else if k == n {
      var f := Factorial(n - 1);
      assert Factorial(n) == n * f;
      MultipleIsDivisible(n, f);
    } else {
      FactorialDivisible(n - 1, k);
      var f := Factorial(n - 1);
      var q := f / k;
      assert f == k * q;
      assert Factorial(n) == n * f;
      Regroup(n, k, q);
      MultipleIsDivisible(k, n * q);
    }
  }

  lemma Regroup(n: int, k: int, q: int)
    ensures n * (k * q) == k * (n * q)
  {
  }

  /** The iterative factorial. For a negative `n` the loop does not run and the result is 1. */
  method QFactorial(n: int) returns (res: int)
    ensures n >= 0 ==> res == Factorial(n)
    ensures n < 0 ==> res == 1
  {
    res := 1;
    var i := 1;
    while i <= n
      invariant 1 <= i <= if n >= 0 then n + 1 else 1
      invariant res == Factorial(i - 1)
    {
      assert i == 1 || Factorial(i) == i * res;
      res := res * i;
      i := i + 1;
    }
  }

  /** The recursive Fibonacci numbers F(0) = 0, F(1) = 1. */
  function Fibonacci(n: int): (r: int)
    requires n >= 0
    ensures 0 <= r
    ensures n >= 1 ==> 1 <= r
    ensures n >= 3 ==> n <= r + 1
  {
    if n == 0 || n == 1 then n else Fibonacci(n - 2) + Fibonacci(n - 1)
  }

  /** The iterative Fibonacci numbers. For a negative `n` the loop does not run and the result is 0. */
  method QFibonacci(n: int) returns (fn: int)
    ensures n >= 0 ==> fn == Fibonacci(n)
    ensures n < 0 ==> fn == 0
  {
    if n == 0 || n == 1 {
      return n;
    }
    var fn2, fn1 := 0, 1;
    fn := 0;
    var i := 2;
    while i <= n
      invariant 2 <= i <= if n >= 2 then n + 1 else 2
      invariant fn2 == Fibonacci(i - 2) && fn1 == Fibonacci(i - 1)
      invariant if i > 2 then fn == fn1 else fn == 0
    {
      fn := fn2 + fn1;
      fn2 := fn1;
      fn1 := fn;
      i := i + 1;
    }
  }
}
