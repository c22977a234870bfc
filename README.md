# MathLib core in Dafny

MathLib is a small C# math kernel for graphics code. It provides:

- float vectors `Vec2`, `Vec3` and `Vec4` over a shared `VecBase` array;
- a 2x2 column-major matrix `Mtx2`;
- complex numbers (`Complex` and the imaginary unit `Imag`);
- an axis-aligned 2-D bounding box `AABB`;
- barycentric coordinates on lines, triangles and tetrahedra;
- scalar helpers: float clamping and squaring, integer GCD, factorial and Fibonacci, and the `PointF` utilities.

This project models that core and proves what each operation promises.

A C# `float` is modelled by `Floats.Float`. It is either an exact real (`Fin`), a negative or positive infinity, or `NaN`. Arithmetic on the special values follows IEEE-754. Ordered comparisons are false whenever NaN is involved. Rounding is not modelled.

The model keeps the source's form:

- Objects whose fields the library updates in place are classes:
  - `Vec2`, `Vec3` and `Vec4` hold a fixed-size `array<Float>`;
  - `Mtx2` holds an array of two `Vec2` columns, shared by reference;
  - `Complex` holds two mutable parts;
  - `AABB` holds two `Vec2` corners.
- The loops of the source are methods with loop invariants: the dot product, the squared distance, the `IsAny*` scans, the text builders, the iterative factorial and Fibonacci, and the N-vertex barycentric interpolation.
- Each method is proved against a specification function on values. Examples: `VecBase.DotProduct` on sequences, `Boxes.Box` for the box bounds, `Complexes.ComplexValue` for complex numbers.
- The laws the library relies on are proved as lemmas about those functions.
- Exceptions the library throws for a bad index are modelled as the `IndexOutOfRange` case of `Errors.Result`.

## Model

| member | source | states |
|---|---|---|
| UtilsFloat.Clamp | MathLib/MathLib/utils/UtilsFloat.cs:10-17 | The result is `l`, `u` or `v`. It lies in `[l, u]` when `l <= u` and `v` is not NaN. A NaN passes through unchanged. A value already inside is returned as is. |
| UtilsFloat.ClampOutside | MathLib/MathLib/utils/UtilsFloat.cs:10-17 | A value below `l` gives `l`; a value above `u` of a well-formed interval gives `u`. |
| UtilsFloat.ClampIdempotent | MathLib/MathLib/utils/UtilsFloat.cs:10-17 | Clamping twice into `[l, u]` with `l <= u` equals clamping once. |
| UtilsFloat.ClampSet | MathLib/MathLib/utils/UtilsFloat.cs:18-24 | The updated `ref` value equals `Clamp(old v, l, u)`. |
| UtilsFloat.Sqr | MathLib/MathLib/utils/UtilsFloat.cs:27-30 | The square is never below zero, is at least zero when `v` is not NaN, and is finite when `v` is. |
| UtilsFloat.SqrOfNegation | MathLib/MathLib/utils/UtilsFloat.cs:27-30 | `Sqr(-v) == Sqr(v)`. |
| UtilsInt.GreatestCommonDivisor | MathLib/MathLib/utils/UtilsInt.cs:16-30 | For natural arguments it terminates with a non-negative result. The result is positive unless both are 0 and bounded by each positive argument. |
| UtilsInt.GreatestCommonDivisorScales | MathLib/MathLib/utils/UtilsInt.cs:18-23 | `gcd(k*a, k*b) == k * gcd(a, b)` for naturals `a`, `b` and `k >= 1`: the subtraction steps commute with scaling. |
| UtilsInt.GreatestCommonDivisorCorrect | MathLib/MathLib/utils/UtilsInt.cs:10-30 | For naturals not both 0 the result divides both arguments, and every common divisor divides it. |
| UtilsInt.GreatestCommonDivisorSymmetric | MathLib/MathLib/utils/UtilsInt.cs:16-30 | `gcd(a, b) == gcd(b, a)`. |
| UtilsInt.Factorial | MathLib/MathLib/utils/UtilsInt.cs:32-38 | For `n >= 0` the result is at least 1 and at least `n`. |
| UtilsInt.FactorialDivisible | MathLib/MathLib/utils/UtilsInt.cs:32-38 | Every `k` with `1 <= k <= n` divides `n!`. |
| UtilsInt.QFactorial | MathLib/MathLib/utils/UtilsInt.cs:40-46 | The loop computes `Factorial(n)` for `n >= 0`, with the invariant `res == (i-1)!`. For negative `n` it returns 1. |
| UtilsInt.Fibonacci | MathLib/MathLib/utils/UtilsInt.cs:48-54 | `F(n) >= 0`, `F(n) >= 1` for `n >= 1`, and `F(n) >= n - 1` for `n >= 3`. |
| UtilsInt.QFibonacci | MathLib/MathLib/utils/UtilsInt.cs:56-71 | The loop computes `Fibonacci(n)` for `n >= 0`, with the invariant that the two accumulators are `F(i-2)` and `F(i-1)`. For negative `n` it returns 0. |
| VecBase.AnyInfinitySplits | MathLib/MathLib/linalg/common/VecBase.cs:165-183 | A vector has an infinite component iff it has a negative or a positive infinite one. |
| VecBase.Zeros | MathLib/MathLib/linalg/common/VecBase.cs:29-33 | The zero vector of length `n`: `n` components, each zero. |
| VecBase.DotProduct | MathLib/MathLib/linalg/common/VecBase.cs:119-126 | The value of the `Dot` loop: the products `a[i] * b[i]` added from index 0 upwards to a running sum that starts at 0. `Dot` returns it; `DotProductSymmetric` and `DotSelfNotNegative` state its laws. |
| VecBase.SquaredDistance | MathLib/MathLib/linalg/common/VecBase.cs:128-139 | The value of the `DistanceSquared` loop: the squares of `a[i] - b[i]` added in the same order. `DistanceSquared` returns it; `SquaredDistanceSymmetric`, `SquaredDistanceNotNegative` and `SquaredDistanceToSelf` state its laws. |
| VecBase.DotProductSymmetric | MathLib/MathLib/linalg/common/VecBase.cs:119-126 | The dot product is symmetric, special values included. |
| VecBase.DotSelfNotNegative | MathLib/MathLib/linalg/common/VecBase.cs:148-158 | `Dot(v, v)` is never below zero, and is at least zero when no component is NaN. |
| VecBase.SquaredDistanceSymmetric | MathLib/MathLib/linalg/common/VecBase.cs:128-139 | The squared distance is symmetric. |
| VecBase.SquaredDistanceNotNegative | MathLib/MathLib/linalg/common/VecBase.cs:128-139 | The squared distance is never below zero. |
| VecBase.SquaredDistanceToSelf | MathLib/MathLib/linalg/common/VecBase.cs:128-139 | A finite vector is at squared distance zero from itself. |
| VecBase.Plus | MathLib/MathLib/linalg/2d/Vec2.cs:119-122 | Componentwise sum, of the operands' length. The same operator is Vec3.cs:126-129 and Vec4.cs:140-143. |
| VecBase.Minus | MathLib/MathLib/linalg/2d/Vec2.cs:129-132 | Componentwise difference, of the operands' length. The same operator is Vec3.cs:136-139 and Vec4.cs:150-153. |
| VecBase.Negate | MathLib/MathLib/linalg/2d/Vec2.cs:124-127 | Componentwise negation, of the operand's length. The same operator is Vec3.cs:131-134 and Vec4.cs:145-148. |
| VecBase.Times | MathLib/MathLib/linalg/2d/Vec2.cs:134-137 | `v * s`: every component times `s`. The same operator is Vec3.cs:141-144 and Vec4.cs:155-158. |
| VecBase.TimesLeft | MathLib/MathLib/linalg/2d/Vec2.cs:139-142 | `s * v`: `s` times every component. The same operator is Vec3.cs:146-149 and Vec4.cs:160-163. |
| VecBase.Over | MathLib/MathLib/linalg/2d/Vec2.cs:144-147 | `v / s`: every component divided by `s`. The same operator is Vec3.cs:151-154 and Vec4.cs:165-168. |
| VecBase.PlusMinusCancel | MathLib/MathLib/linalg/2d/Vec2.cs:119-132 | `(a + b) - b == a` for finite vectors. |
| VecBase.PlusNegateIsZero | MathLib/MathLib/linalg/4d/Vec4.cs:140-148 | `a + (-a)` is the zero vector for finite `a`. |
| VecBase.NegateInvolutive | MathLib/MathLib/linalg/2d/Vec2.cs:124-127 | `-(-a) == a`. |
| VecBase.TimesCommutes | MathLib/MathLib/linalg/3d/Vec3.cs:141-149 | `s * v == v * s`. |
| VecBase.TimesReciprocalIsOver | MathLib/MathLib/linalg/3d/Vec3.cs:141-154 | For finite nonzero `s`, `v * (1 / s) == v / s`. |
| VecBase.SetZero | MathLib/MathLib/linalg/common/VecBase.cs:29-33 | Every component becomes zero; the array keeps its length. |
| VecBase.Get | MathLib/MathLib/linalg/common/VecBase.cs:37-42 | Fails with `IndexOutOfRange` iff `index < 0 \|\| index >= Length`; otherwise it returns that component. |
| VecBase.Set | MathLib/MathLib/linalg/common/VecBase.cs:43-48 | Fails iff the index is out of range, leaving the array unchanged. Otherwise only that slot changes. |
| VecBase.Clamp | MathLib/MathLib/linalg/common/VecBase.cs:52-56 | Every component becomes `UtilsFloat.Clamp(old component, l, u)`. |
| VecBase.Dot | MathLib/MathLib/linalg/common/VecBase.cs:119-126 | The accumulator loop returns `DotProduct(a, b)`. |
| VecBase.DistanceSquared | MathLib/MathLib/linalg/common/VecBase.cs:128-139 | The accumulator loop returns `SquaredDistance(a, b)`. |
| VecBase.LengthSquared | MathLib/MathLib/linalg/common/VecBase.cs:148-158 | The accumulator loop returns `DotProduct(v, v)`. |
| VecBase.AnyComponent | MathLib/MathLib/linalg/common/VecBase.cs:233-263 | The early-exit scan is true iff some component passes the test. |
| VecBase.IsAnyNaN | MathLib/MathLib/linalg/common/VecBase.cs:165-168 | True iff some component is NaN. |
| VecBase.IsAnyInfinity | MathLib/MathLib/linalg/common/VecBase.cs:170-173 | True iff some component is infinite. |
| VecBase.IsAnyNegativeInfinity | MathLib/MathLib/linalg/common/VecBase.cs:175-178 | True iff some component is negative infinity. |
| VecBase.IsAnyPositiveInfinity | MathLib/MathLib/linalg/common/VecBase.cs:180-183 | True iff some component is positive infinity. |
| VecBase.Formatted | MathLib/MathLib/linalg/common/VecBase.cs:204-229 | One formatted string per component, in order. |
| VecBase.RowText | MathLib/MathLib/linalg/common/VecBase.cs:221-229 | The row text starts with `[` and ends with `]`. |
| VecBase.Spaces | MathLib/MathLib/linalg/common/VecBase.cs:204-219 | `n` spaces. |
| VecBase.PadRight | MathLib/MathLib/linalg/common/VecBase.cs:204-219 | Keeps the string as a prefix and fills with spaces up to `width`; never truncates. |
| VecBase.MaxLength | MathLib/MathLib/linalg/common/VecBase.cs:204-219 | The length of the longest part: no part is longer, and some part reaches it. |
| VecBase.ColumnLines | MathLib/MathLib/linalg/common/VecBase.cs:204-219 | One line per component. |
| VecBase.JoinLength | MathLib/MathLib/linalg/common/VecBase.cs:204-219 | Joining `k` lines of width `w` gives `k*w + (k-1)*|sep|` characters. |
| VecBase.JoinLast | MathLib/MathLib/linalg/common/VecBase.cs:204-219 | The joined text ends with the last character of the last line, so there is no trailing separator. |
| VecBase.ColumnLinesWidth | MathLib/MathLib/linalg/common/VecBase.cs:204-219 | Every column line is the longest part's length plus the two brackets. |
| VecBase.ColumnLinesEndWithBracket | MathLib/MathLib/linalg/common/VecBase.cs:204-219 | The last column line ends with `]`. |
| VecBase.ColumnTextShape | MathLib/MathLib/linalg/common/VecBase.cs:204-219 | The column text has `k` lines of equal padded width joined by newlines, with no trailing newline, and ends with `]`. |
| VecBase.ColumnLineAt | MathLib/MathLib/linalg/common/VecBase.cs:204-219 | Line `k` is `[` + the `k`-th part padded to the longest + `]`. |
| VecBase.RowString | MathLib/MathLib/linalg/common/VecBase.cs:221-229 | The append loop builds `"[" + parts joined by ", " + "]"`. |
| VecBase.FormatComponents | MathLib/MathLib/linalg/common/VecBase.cs:204-212 | The first loop formats every component and tracks the longest string. |
| VecBase.ColumnString | MathLib/MathLib/linalg/common/VecBase.cs:204-219 | The second loop builds the padded column text. |
| VecBase.ToString | MathLib/MathLib/linalg/common/VecBase.cs:187-202 | Dispatches on the print format to the row or the column text. |
| Vectors.Widened | MathLib/MathLib/linalg/3d/Vec3.cs:49-56 | Widening keeps the given components and zero-fills the rest. |
| Vectors.CrossProduct | MathLib/MathLib/linalg/3d/Vec3.cs:163-176 | The 3-D cross product has three components. |
| Vectors.CrossAnticommutes | MathLib/MathLib/linalg/3d/Vec3.cs:163-176 | `Cross(b, a) == -Cross(a, b)`. |
| Vectors.CrossSelfIsZero | MathLib/MathLib/linalg/3d/Vec3.cs:163-176 | `Cross(a, a)` is zero for finite `a`. |
| Vectors.DotProduct3 | MathLib/MathLib/linalg/3d/Vec3.cs:158-161 | The loop dot product of 3-vectors is the written-out sum of three products. |
| Vectors.CrossOrthogonal | MathLib/MathLib/linalg/3d/Vec3.cs:163-176 | For finite vectors, `Dot(a, Cross(a, b)) == 0` and `Dot(b, Cross(a, b)) == 0`. |
| Vectors.CrossWithPlanarIsWidened | MathLib/MathLib/linalg/3d/Vec3.cs:177-190 | `Cross(Vec3 a, Vec2 b) == Cross(a, Vec3(b))` for finite vectors. |
| Vectors.PlanarCrossWithIsWidened | MathLib/MathLib/linalg/3d/Vec3.cs:191-204 | `Cross(Vec2 a, Vec3 b) == Cross(Vec3(a), b)` for finite vectors. |
| Vectors.CrossWithPlanar | MathLib/MathLib/linalg/3d/Vec3.cs:177-190 | The cross product of a `Vec3` with a `Vec2` has three components. |
| Vectors.PlanarCrossWith | MathLib/MathLib/linalg/3d/Vec3.cs:191-204 | The cross product of a `Vec2` with a `Vec3` has three components. |
| Vectors.Vec2.constructor | MathLib/MathLib/linalg/2d/Vec2.cs:27-31 | A fresh zero vector. |
| Vectors.Vec2.Fill | MathLib/MathLib/linalg/2d/Vec2.cs:33-38 | Both components equal `all`. |
| Vectors.Vec2.Of | MathLib/MathLib/linalg/2d/Vec2.cs:40-45 | The vector `(x, y)`. |
| Vectors.Vec2.CopyOf | MathLib/MathLib/linalg/2d/Vec2.cs:47-53 | An equal vector over a fresh array. |
| Vectors.Vec2.FromVec3 | MathLib/MathLib/linalg/2d/Vec2.cs:55-61 | Keeps components 0 and 1 of a `Vec3`. |
| Vectors.Vec2.FromVec4 | MathLib/MathLib/linalg/2d/Vec2.cs:63-69 | Keeps components 0 and 1 of a `Vec4`. |
| Vectors.Vec2.FromComplex | MathLib/MathLib/linalg/2d/Vec2.cs:71-76 | The vector `(z.Real, z.Imaginary)`. |
| Vectors.Vec2.SetAll | MathLib/MathLib/linalg/2d/Vec2.cs:80-84 | Both components become `all`. |
| Vectors.Vec2.SetXY | MathLib/MathLib/linalg/2d/Vec2.cs:86-90 | The vector becomes `(x, y)`. |
| Vectors.Vec2.SetFrom | MathLib/MathLib/linalg/2d/Vec2.cs:92-98 | The vector becomes a copy of `v`. |
| Vectors.Vec2.SetX | MathLib/MathLib/linalg/2d/Vec2.cs:100-104 | The `X` setter writes index 0 only. |
| Vectors.Vec2.SetY | MathLib/MathLib/linalg/2d/Vec2.cs:106-110 | The `Y` setter writes index 1 only. |
| Vectors.Vec2.X | MathLib/MathLib/linalg/2d/Vec2.cs:100-104 | The `X` getter reads index 0 of the array, so after `SetX(x)` it returns `x`. |
| Vectors.Vec2.Y | MathLib/MathLib/linalg/2d/Vec2.cs:106-110 | The `Y` getter reads index 1 of the array, so after `SetY(y)` it returns `y`. |
| Vectors.Vec2.Identity | MathLib/MathLib/linalg/2d/Vec2.cs:114-117 | Unary `+` returns the operand itself. |
| Vectors.Vec2.Plus | MathLib/MathLib/linalg/2d/Vec2.cs:119-122 | A fresh vector holding the componentwise sum. |
| Vectors.Vec2.Negate | MathLib/MathLib/linalg/2d/Vec2.cs:124-127 | A fresh vector holding the componentwise negation. |
| Vectors.Vec2.Minus | MathLib/MathLib/linalg/2d/Vec2.cs:129-132 | A fresh vector holding the componentwise difference. |
| Vectors.Vec2.Times | MathLib/MathLib/linalg/2d/Vec2.cs:134-137 | A fresh `v * s`. |
| Vectors.Vec2.TimesLeft | MathLib/MathLib/linalg/2d/Vec2.cs:139-142 | A fresh `s * v`. |
| Vectors.Vec2.Over | MathLib/MathLib/linalg/2d/Vec2.cs:144-147 | A fresh `v / s`. |
| Vectors.Vec2.Dot | MathLib/MathLib/linalg/2d/Vec2.cs:151-154 | The dot product of the two values. |
| Vectors.Vec2.Cross | MathLib/MathLib/linalg/2d/Vec2.cs:156-165 | A fresh `(0, 0, RotDir(a, b))`. |
| Vectors.Vec2.DistanceSquared | MathLib/MathLib/linalg/2d/Vec2.cs:178-181 | The squared distance of the two values. |
| Vectors.Vec2.Normalize | MathLib/MathLib/linalg/2d/Vec2.cs:188-193 | In place, the components are multiplied by `1 / sqrt(Dot(v, v))`. |
| Vectors.Vec2.GetNormalized | MathLib/MathLib/linalg/2d/Vec2.cs:195-198 | A fresh `v / sqrt(Dot(v, v))`; the receiver is not modified. |
| Vectors.Vec2.Copy | MathLib/MathLib/linalg/2d/Vec2.cs:202-205 | An equal vector over a fresh array. |
| Vectors.Vec2.RotDir | MathLib/MathLib/linalg/2d/Vec2.cs:167-176 | `a.X * b.Y - b.X * a.Y` in float arithmetic, the z of the cross product. `RotDirAntisymmetric`, `RotDirOfSelf` and `PlanarCrossIsWidened` state its laws. |
| Vectors.RotDirAntisymmetric | MathLib/MathLib/linalg/2d/Vec2.cs:167-176 | `RotDir(b, a) == -RotDir(a, b)`. |
| Vectors.RotDirOfSelf | MathLib/MathLib/linalg/2d/Vec2.cs:167-176 | `RotDir(a, a) == 0` for finite `a`. |
| Vectors.PlanarCrossIsWidened | MathLib/MathLib/linalg/2d/Vec2.cs:156-176 | The 2-D cross equals the 3-D cross of the zero-widened vectors. |
| Vectors.Vec3.constructor | MathLib/MathLib/linalg/3d/Vec3.cs:27-31 | A fresh zero vector. |
| Vectors.Vec3.Fill | MathLib/MathLib/linalg/3d/Vec3.cs:33-39 | All three components equal `all`. |
| Vectors.Vec3.Of | MathLib/MathLib/linalg/3d/Vec3.cs:41-47 | The vector `(x, y, z)`. |
| Vectors.Vec3.FromVec2 | MathLib/MathLib/linalg/3d/Vec3.cs:49-56 | Copies X and Y and zero-fills Z. |
| Vectors.Vec3.CopyOf | MathLib/MathLib/linalg/3d/Vec3.cs:58-65 | An equal vector over a fresh array. |
| Vectors.Vec3.FromVec4 | MathLib/MathLib/linalg/3d/Vec3.cs:67-74 | Drops W. |
| Vectors.Vec3.SetAll | MathLib/MathLib/linalg/3d/Vec3.cs:78-83 | All three components become `all`. |
| Vectors.Vec3.SetXYZ | MathLib/MathLib/linalg/3d/Vec3.cs:85-90 | The vector becomes `(x, y, z)`. |
| Vectors.Vec3.SetFrom | MathLib/MathLib/linalg/3d/Vec3.cs:92-97 | The vector becomes a copy of `v`. |
| Vectors.Vec3.SetX | MathLib/MathLib/linalg/3d/Vec3.cs:101-105 | Writes index 0 only. |
| Vectors.Vec3.SetY | MathLib/MathLib/linalg/3d/Vec3.cs:107-111 | Writes index 1 only. |
| Vectors.Vec3.SetZ | MathLib/MathLib/linalg/3d/Vec3.cs:113-117 | Writes index 2 only. |
| Vectors.Vec3.X | MathLib/MathLib/linalg/3d/Vec3.cs:101-105 | The `X` getter reads index 0 of the array. |
| Vectors.Vec3.Y | MathLib/MathLib/linalg/3d/Vec3.cs:107-111 | The `Y` getter reads index 1 of the array. |
| Vectors.Vec3.Z | MathLib/MathLib/linalg/3d/Vec3.cs:113-117 | The `Z` getter reads index 2 of the array. |
| Vectors.Vec3.Identity | MathLib/MathLib/linalg/3d/Vec3.cs:121-124 | Unary `+` returns the operand itself. |
| Vectors.Vec3.Plus | MathLib/MathLib/linalg/3d/Vec3.cs:126-129 | A fresh componentwise sum. |
| Vectors.Vec3.Negate | MathLib/MathLib/linalg/3d/Vec3.cs:131-134 | A fresh componentwise negation. |
| Vectors.Vec3.Minus | MathLib/MathLib/linalg/3d/Vec3.cs:136-139 | A fresh componentwise difference. |
| Vectors.Vec3.Times | MathLib/MathLib/linalg/3d/Vec3.cs:141-144 | A fresh `v * s`. |
| Vectors.Vec3.TimesLeft | MathLib/MathLib/linalg/3d/Vec3.cs:146-149 | A fresh `s * v`. |
| Vectors.Vec3.Over | MathLib/MathLib/linalg/3d/Vec3.cs:151-154 | A fresh `v / s`. |
| Vectors.Vec3.Dot | MathLib/MathLib/linalg/3d/Vec3.cs:158-161 | The dot product of the two values. |
| Vectors.Vec3.Cross | MathLib/MathLib/linalg/3d/Vec3.cs:163-176 | A fresh `CrossProduct(a, b)`. |
| Vectors.Vec3.CrossVec3Vec2 | MathLib/MathLib/linalg/3d/Vec3.cs:177-190 | A fresh cross product of a `Vec3` with a planar `Vec2`. |
| Vectors.Vec3.CrossVec2Vec3 | MathLib/MathLib/linalg/3d/Vec3.cs:191-204 | A fresh cross product of a planar `Vec2` with a `Vec3`. |
| Vectors.Vec3.DistanceSquared | MathLib/MathLib/linalg/3d/Vec3.cs:205-208 | The squared distance of the two values. |
| Vectors.Vec3.Normalize | MathLib/MathLib/linalg/3d/Vec3.cs:215-222 | In place, the components are multiplied by `1 / sqrt(Dot(v, v))`. |
| Vectors.Vec3.GetNormalized | MathLib/MathLib/linalg/3d/Vec3.cs:223-226 | A fresh `v / sqrt(Dot(v, v))`. |
| Vectors.Vec3.Copy | MathLib/MathLib/linalg/3d/Vec3.cs:230-233 | An equal vector over a fresh array. |
| Vectors.Vec4.constructor | MathLib/MathLib/linalg/4d/Vec4.cs:27-31 | A fresh zero vector. |
| Vectors.Vec4.Fill | MathLib/MathLib/linalg/4d/Vec4.cs:33-40 | All four components equal `all`. |
| Vectors.Vec4.Of | MathLib/MathLib/linalg/4d/Vec4.cs:42-49 | The vector `(x, y, z, w)`. |
| Vectors.Vec4.FromVec2 | MathLib/MathLib/linalg/4d/Vec4.cs:51-59 | Copies X and Y and zero-fills Z and W. |
| Vectors.Vec4.FromVec3 | MathLib/MathLib/linalg/4d/Vec4.cs:61-69 | Copies X, Y and Z and zero-fills W. |
| Vectors.Vec4.CopyOf | MathLib/MathLib/linalg/4d/Vec4.cs:71-79 | An equal vector over a fresh array. |
| Vectors.Vec4.SetAllAsWritten | MathLib/MathLib/linalg/4d/Vec4.cs:83-89 | As written: indices 0, 1, 1, 2 are written and W keeps its old value. |
| Vectors.Vec4.SetAll | MathLib/MathLib/linalg/4d/Vec4.cs:83-89 | Corrected: all four components become `all`. |
| Vectors.SetAllAsWrittenKeepsW | MathLib/MathLib/linalg/4d/Vec4.cs:83-89 | The as-written `Set(all)` leaves an old W that differs from `all` in place. |
| Vectors.Vec4.SetXYZWAsWritten | MathLib/MathLib/linalg/4d/Vec4.cs:91-97 | As written: `z` is written to index 2 and then overwritten by `w`; index 3 is untouched. |
| Vectors.Vec4.SetXYZW | MathLib/MathLib/linalg/4d/Vec4.cs:91-97 | Corrected: the vector becomes `(x, y, z, w)`. |
| Vectors.SetXYZWAsWrittenMisplacesW | MathLib/MathLib/linalg/4d/Vec4.cs:91-97 | On a zero vector, `Set(1, 2, 3, 4)` as written gives `(1, 2, 4, 0)`, not `(1, 2, 3, 4)`. |
| Vectors.Vec4.SetFrom | MathLib/MathLib/linalg/4d/Vec4.cs:99-105 | Copies all four components of `v`. |
| Vectors.Vec4.SetX | MathLib/MathLib/linalg/4d/Vec4.cs:109-113 | Writes index 0 only. |
| Vectors.Vec4.SetY | MathLib/MathLib/linalg/4d/Vec4.cs:115-119 | Writes index 1 only. |
| Vectors.Vec4.SetZ | MathLib/MathLib/linalg/4d/Vec4.cs:121-125 | Writes index 2 only. |
| Vectors.Vec4.SetW | MathLib/MathLib/linalg/4d/Vec4.cs:127-131 | Writes index 3 only. |
| Vectors.Vec4.X | MathLib/MathLib/linalg/4d/Vec4.cs:109-113 | The `X` getter reads index 0 of the array. |
| Vectors.Vec4.Y | MathLib/MathLib/linalg/4d/Vec4.cs:115-119 | The `Y` getter reads index 1 of the array. |
| Vectors.Vec4.Z | MathLib/MathLib/linalg/4d/Vec4.cs:121-125 | The `Z` getter reads index 2 of the array. |
| Vectors.Vec4.W | MathLib/MathLib/linalg/4d/Vec4.cs:127-131 | The `W` getter reads index 3 of the array. |
| Vectors.Vec4.Identity | MathLib/MathLib/linalg/4d/Vec4.cs:135-138 | Unary `+` returns the operand itself. |
| Vectors.Vec4.Plus | MathLib/MathLib/linalg/4d/Vec4.cs:140-143 | A fresh componentwise sum. |
| Vectors.Vec4.Negate | MathLib/MathLib/linalg/4d/Vec4.cs:145-148 | A fresh componentwise negation. |
| Vectors.Vec4.Minus | MathLib/MathLib/linalg/4d/Vec4.cs:150-153 | A fresh componentwise difference. |
| Vectors.Vec4.Times | MathLib/MathLib/linalg/4d/Vec4.cs:155-158 | A fresh `v * s`. |
| Vectors.Vec4.TimesLeft | MathLib/MathLib/linalg/4d/Vec4.cs:160-163 | A fresh `s * v`. |
| Vectors.Vec4.Over | MathLib/MathLib/linalg/4d/Vec4.cs:165-168 | A fresh `v / s`. |
| Vectors.Vec4.Dot | MathLib/MathLib/linalg/4d/Vec4.cs:172-175 | The dot product of the two values. |
| Vectors.Vec4.DistanceSquared | MathLib/MathLib/linalg/4d/Vec4.cs:177-180 | The squared distance of the two values. |
| Vectors.Vec4.Normalize | MathLib/MathLib/linalg/4d/Vec4.cs:187-195 | In place, the components are multiplied by `1 / sqrt(Dot(v, v))`. |
| Vectors.Vec4.GetNormalized | MathLib/MathLib/linalg/4d/Vec4.cs:196-199 | A fresh `v / sqrt(Dot(v, v))`. |
| Vectors.Vec4.Copy | MathLib/MathLib/linalg/4d/Vec4.cs:203-206 | An equal vector over a fresh array. |
| Vectors.ComplexOfVec2 | MathLib/MathLib/complex/Complex.cs:44-48 | `Complex(Vec2 v)` is `(v.X, v.Y)`. |
| Vectors.Vec2ThroughComplex | MathLib/MathLib/linalg/2d/Vec2.cs:71-76 | Converting a `Vec2` to `Complex` and back gives the same vector. |
| Vectors.Vec2ThroughLargerVectors | MathLib/MathLib/linalg/2d/Vec2.cs:55-69 | Widening a `Vec2` to `Vec3` or `Vec4` and narrowing back gives the same vector. |
| Vectors.Vec3ThroughVec4 | MathLib/MathLib/linalg/3d/Vec3.cs:67-74 | Widening a `Vec3` to `Vec4` and narrowing back gives the same vector. |
| Vectors.FiniteDotProduct | MathLib/MathLib/linalg/common/VecBase.cs:119-126 | The dot product of finite vectors is finite. |
| Vectors.OverScalesSquaredLength | MathLib/MathLib/linalg/2d/Vec2.cs:195-198 | Dividing by `s` divides the squared length by `s * s`. |
| Vectors.NormalizedHasUnitLength | MathLib/MathLib/linalg/2d/Vec2.cs:188-198 | When `len` is the true length of a nonzero finite vector, `v / len` has squared length one. |
| Vectors.UsageExample | MathLib/Test/Program.cs:15-20 | `(-1, 3) - (1, 2) == (-2, 1)` and `Dot((-1, 3), (1, 2)) == 5`. |
| Matrices.Apply | MathLib/MathLib/linalg/2d/Mtx2.cs:64-69 | The matrix-vector product of two columns and a 2-vector is a 2-vector. |
| Matrices.Transposed | MathLib/MathLib/linalg/2d/Mtx2.cs:71-74 | Entry `(r, c)` of the transpose is entry `(c, r)` of the matrix. |
| Matrices.TransposeInvolutive | MathLib/MathLib/linalg/2d/Mtx2.cs:71-74 | Transposing twice gives the original columns. |
| Matrices.IdentityApply | MathLib/MathLib/linalg/2d/Mtx2.cs:35-39 | The identity maps every finite vector to itself. |
| Matrices.ApplyDistributes | MathLib/MathLib/linalg/2d/Mtx2.cs:64-69 | For finite entries, `M(u + v) == Mu + Mv`. |
| Matrices.Mtx2.Columns | MathLib/MathLib/linalg/2d/Mtx2.cs:9-11 | The two column values form a 2x2 matrix. |
| Matrices.Mtx2.constructor | MathLib/MathLib/linalg/2d/Mtx2.cs:13-17 | The default matrix is the identity, over fresh columns. |
| Matrices.Mtx2.OfColumns | MathLib/MathLib/linalg/2d/Mtx2.cs:19-26 | Stores the given column vectors by reference. |
| Matrices.Mtx2.Of | MathLib/MathLib/linalg/2d/Mtx2.cs:28-33 | Column 0 is `(xx, yx)` and column 1 is `(xy, yy)`. |
| Matrices.Mtx2.SetIdentity | MathLib/MathLib/linalg/2d/Mtx2.cs:35-39 | The columns become fresh identity columns. |
| Matrices.Mtx2.Get | MathLib/MathLib/linalg/2d/Mtx2.cs:50-55 | Fails iff `r` or `c` is outside `0..1`; otherwise returns row `r` of column `c`. |
| Matrices.Mtx2.Set | MathLib/MathLib/linalg/2d/Mtx2.cs:56-61 | Fails iff `r` or `c` is outside `0..1`, changing nothing. Otherwise writes row `r` of column `c` through the shared column vector. |
| Matrices.Mtx2.Transform | MathLib/MathLib/linalg/2d/Mtx2.cs:64-69 | A fresh vector equal to the matrix-vector product. |
| Matrices.Mtx2.Transpose | MathLib/MathLib/linalg/2d/Mtx2.cs:71-74 | A fresh matrix whose columns are the transpose. |
| Matrices.SharedColumnWrite | MathLib/MathLib/linalg/2d/Mtx2.cs:19-26 | A matrix built from one vector twice: a write through the indexer shows in the caller's vector and in both columns. |
| Complexes.OfReal | MathLib/MathLib/complex/Complex.cs:194-197 | A float as a complex value with imaginary part 0. |
| Complexes.Sum | MathLib/MathLib/complex/Complex.cs:98-103 | The parts added pairwise in float arithmetic. |
| Complexes.Difference | MathLib/MathLib/complex/Complex.cs:130-135 | The parts subtracted pairwise. |
| Complexes.Negation | MathLib/MathLib/complex/Complex.cs:105-108 | Both parts negated. |
| Complexes.Product | MathLib/MathLib/complex/Complex.cs:157-163 | `(ac - bd) + (bc + ad)i` in float arithmetic; `FiniteProductWithConjugate` and `UnitSquared` state its values. |
| Complexes.Scaled | MathLib/MathLib/complex/Complex.cs:137-145 | Both parts multiplied by a float. |
| Complexes.Shrunk | MathLib/MathLib/complex/Complex.cs:173-176 | Both parts divided by a float; `NormalizedHasUnitNorm` states that dividing by the modulus gives norm 1. |
| Complexes.Conjugate | MathLib/MathLib/complex/Complex.cs:206-209 | The imaginary part negated. |
| Complexes.Quotient | MathLib/MathLib/complex/Complex.cs:188-191 | `zA * Conj(zB) / Norm(zB)`; `FiniteQuotient` and `QuotientTimesDivisor` state its values. |
| Complexes.NormOf | MathLib/MathLib/complex/Complex.cs:211-215 | The norm is never below zero, and is at least zero when neither part is NaN. |
| Complexes.FiniteNorm | MathLib/MathLib/complex/Complex.cs:211-215 | For finite parts the norm is `re^2 + im^2`. |
| Complexes.FiniteProductWithConjugate | MathLib/MathLib/complex/Complex.cs:157-171 | For finite values, `a * Conj(b)` is `(a.re*b.re + a.im*b.im) + (a.im*b.re - a.re*b.im)i`. |
| Complexes.FiniteShrunk | MathLib/MathLib/complex/Complex.cs:173-176 | For finite `z` and nonzero finite `r`, `z / r` divides both parts exactly. |
| Complexes.ConjugateInvolutive | MathLib/MathLib/complex/Complex.cs:206-209 | `Conj(Conj(z)) == z`. |
| Complexes.ProductCommutes | MathLib/MathLib/complex/Complex.cs:157-163 | Complex multiplication commutes. |
| Complexes.ProductWithConjugateIsNorm | MathLib/MathLib/complex/Complex.cs:211-215 | `z * Conj(z) == Norm(z)` for finite `z`. |
| Complexes.FiniteQuotient | MathLib/MathLib/complex/Complex.cs:188-191 | For a nonzero finite divisor, `zA / zB` is the textbook quotient formula. |
| Complexes.QuotientTimesDivisor | MathLib/MathLib/complex/Complex.cs:188-191 | `(zA / zB) * zB == zA` for finite values and a nonzero divisor. |
| Complexes.QuarterTurnIsProductWithUnit | MathLib/MathLib/complex/Complex.cs:147-155 | `i * z` and `z * i`, both `(-Im, Re)`, equal the products with the unit. |
| Complexes.Complex.constructor | MathLib/MathLib/complex/Complex.cs:27-30 | `Complex()` is zero. |
| Complexes.Complex.FromReal | MathLib/MathLib/complex/Complex.cs:32-36 | `Complex(r)` is `(r, 0)`. |
| Complexes.Complex.Of | MathLib/MathLib/complex/Complex.cs:38-42 | `Complex(re, im)` holds the two parts. |
| Complexes.Complex.SetZero | MathLib/MathLib/complex/Complex.cs:51-55 | Both parts become zero in place. |
| Complexes.Complex.Identity | MathLib/MathLib/complex/Complex.cs:73-76 | Unary `+` returns the operand itself. |
| Complexes.Complex.AddRealComplex | MathLib/MathLib/complex/Complex.cs:78-81 | `r + z` is the sum with the promoted real. |
| Complexes.Complex.AddComplexReal | MathLib/MathLib/complex/Complex.cs:83-86 | `z + r` is the sum with the promoted real. |
| Complexes.Complex.AddImagComplex | MathLib/MathLib/complex/Complex.cs:88-91 | `i + z` is the sum with the unit. |
| Complexes.Complex.AddComplexImag | MathLib/MathLib/complex/Complex.cs:93-96 | `z + i` is the sum with the unit. |
| Complexes.Complex.AddComplex | MathLib/MathLib/complex/Complex.cs:98-101 | The componentwise sum. |
| Complexes.Complex.Negate | MathLib/MathLib/complex/Complex.cs:105-108 | Both parts negated. |
| Complexes.Complex.SubRealComplexAsWritten | MathLib/MathLib/complex/Complex.cs:110-113 | As written: `(r - Re, Im)`. |
| Complexes.Complex.SubRealComplex | MathLib/MathLib/complex/Complex.cs:110-113 | Corrected: the difference of the promoted real and `z`. |
| Complexes.SubRealComplexAsWrittenDiffers | MathLib/MathLib/complex/Complex.cs:110-113 | As written, `0 - i` comes out as `i`, not `-i`. |
| Complexes.Complex.SubComplexReal | MathLib/MathLib/complex/Complex.cs:115-118 | `z - r` is the difference with the promoted real. |
| Complexes.Complex.SubImagComplexAsWritten | MathLib/MathLib/complex/Complex.cs:120-123 | As written: `(Re, 1 - Im)`. |
| Complexes.Complex.SubImagComplex | MathLib/MathLib/complex/Complex.cs:120-123 | Corrected: the difference of the unit and `z`. |
| Complexes.SubImagComplexAsWrittenDiffers | MathLib/MathLib/complex/Complex.cs:120-123 | As written, `i - 1` comes out as `1 + i`, not `-1 + i`. |
| Complexes.Complex.SubComplexImag | MathLib/MathLib/complex/Complex.cs:125-128 | `z - i` is the difference with the unit. |
| Complexes.Complex.SubComplex | MathLib/MathLib/complex/Complex.cs:130-133 | The componentwise difference. |
| Complexes.Complex.MulRealComplex | MathLib/MathLib/complex/Complex.cs:137-140 | `s * z` scales both parts. |
| Complexes.Complex.MulComplexReal | MathLib/MathLib/complex/Complex.cs:142-145 | `z * s` scales both parts. |
| Complexes.ScaledIsProduct | MathLib/MathLib/complex/Complex.cs:137-145 | Scaling by a finite real equals multiplying by the promoted real, on either side. |
| Complexes.Complex.MulImagComplex | MathLib/MathLib/complex/Complex.cs:147-150 | `i * z == (-Im, Re)`. |
| Complexes.Complex.MulComplexImag | MathLib/MathLib/complex/Complex.cs:152-155 | `z * i == (-Im, Re)`. |
| Complexes.Complex.MulComplex | MathLib/MathLib/complex/Complex.cs:157-163 | `(ac - bd) + (bc + ad)i`. |
| Complexes.Complex.DivRealComplex | MathLib/MathLib/complex/Complex.cs:167-171 | `r / z` is `r * Conj(z) / Norm(z)`. |
| Complexes.RealOverComplex | MathLib/MathLib/complex/Complex.cs:167-171 | For finite values, `r / z` as written equals the complex quotient of the promoted real by `z`. |
| Complexes.Complex.DivComplexReal | MathLib/MathLib/complex/Complex.cs:173-176 | `z / r` divides both parts. |
| Complexes.ShrunkTimesDivisor | MathLib/MathLib/complex/Complex.cs:173-176 | `(z / r) * r == z` for finite values and nonzero `r`. |
| Complexes.Complex.DivImagComplex | MathLib/MathLib/complex/Complex.cs:178-181 | `i / z` is `i * (1 * Conj(z) / Norm(z))`. |
| Complexes.UnitOverComplex | MathLib/MathLib/complex/Complex.cs:178-181 | For finite `z`, `i / z` as written equals the complex quotient of the unit by `z`. |
| Complexes.UnitTimesConjugate | MathLib/MathLib/complex/Complex.cs:178-181 | For finite `z`, `1 * Conj(z) == Conj(z) == (Re, -Im)` and `i * Conj(z) == (Im, Re)`. |
| Complexes.Complex.DivComplexImag | MathLib/MathLib/complex/Complex.cs:183-186 | `z / i == (Im, -Re)`. |
| Complexes.ComplexOverUnit | MathLib/MathLib/complex/Complex.cs:183-186 | For finite `z`, `(Im, -Re)` equals the complex quotient of `z` by the unit. |
| Complexes.Complex.DivComplex | MathLib/MathLib/complex/Complex.cs:188-191 | `zA / zB == zA * Conj(zB) / Norm(zB)`. |
| Complexes.Complex.ImplicitFromReal | MathLib/MathLib/complex/Complex.cs:194-197 | A float converts to `(r, 0)`. |
| Complexes.Complex.ImplicitFromImag | MathLib/MathLib/complex/Complex.cs:199-202 | `Imag` converts to `(0, 1)`. |
| Complexes.Complex.Conj | MathLib/MathLib/complex/Complex.cs:206-209 | A fresh conjugate. |
| Complexes.Complex.Norm | MathLib/MathLib/complex/Complex.cs:211-215 | The object's norm is `NormOf` of its value. |
| Complexes.Complex.Normalize | MathLib/MathLib/complex/Complex.cs:287-292 | In place, both parts are multiplied by `1 / sqrt(Norm())`. |
| Complexes.Complex.GetNormalized | MathLib/MathLib/complex/Complex.cs:294-297 | A fresh `z / sqrt(Norm())`. |
| Complexes.NormalizedHasUnitNorm | MathLib/MathLib/complex/Complex.cs:287-297 | When `len` is the true modulus of a finite nonzero `z`, `z / len` has norm one. |
| Complexes.Complex.IsAnyNaN | MathLib/MathLib/complex/Complex.cs:359-362 | True iff the real or the imaginary part is NaN. |
| Complexes.Complex.IsAnyInfinity | MathLib/MathLib/complex/Complex.cs:364-367 | True iff either part is an infinity of either sign (the source spells it `IsAnyInfinty`). |
| Complexes.Complex.IsAnyNegativeInfinity | MathLib/MathLib/complex/Complex.cs:369-372 | True iff either part is negative infinity. |
| Complexes.Complex.IsAnyPositiveInfinity | MathLib/MathLib/complex/Complex.cs:374-377 | True iff either part is positive infinity. `SpecialPartsClassified` relates the four tests to each other and to finiteness. |
| Complexes.SpecialPartsClassified | MathLib/MathLib/complex/Complex.cs:359-377 | An infinite part is a negative or a positive infinity. With no NaN and no infinite part, both parts are finite. |
| Complexes.MixedSumsArePromoted | MathLib/MathLib/complex/Complex.cs:78-128 | `r + z`, `z + r`, `z - r`, `i + z`, `z + i` and `z - i` are the complex sums and differences with the promoted operand, special values included. |
| Complexes.Imag.Identity | MathLib/MathLib/complex/Imag.cs:12-15 | Unary `+` returns the unit. |
| Complexes.Imag.Plus | MathLib/MathLib/complex/Imag.cs:17-20 | `i + i == (0, 2)`. |
| Complexes.Imag.PlusRealImag | MathLib/MathLib/complex/Imag.cs:22-25 | `r + i == (r, 1)`. |
| Complexes.Imag.PlusImagReal | MathLib/MathLib/complex/Imag.cs:27-30 | `i + r == (r, 1)`. |
| Complexes.ImagSumsArePromoted | MathLib/MathLib/complex/Imag.cs:22-52 | For finite `r`, `(r, 1)`, `(r, -1)` and `(-r, 1)` are the complex `r + i`, `r - i` and `i - r`. |
| Complexes.Imag.Negate | MathLib/MathLib/complex/Imag.cs:34-37 | `-i == (0, -1)`. |
| Complexes.Imag.Minus | MathLib/MathLib/complex/Imag.cs:39-42 | `i - i` is the real 0, the complex difference of the unit with itself. |
| Complexes.Imag.MinusRealImag | MathLib/MathLib/complex/Imag.cs:44-47 | `r - i == (r, -1)`. |
| Complexes.Imag.MinusImagReal | MathLib/MathLib/complex/Imag.cs:49-52 | `i - r == (-r, 1)`. |
| Complexes.Imag.Times | MathLib/MathLib/complex/Imag.cs:56-59 | `i * i` is the real -1, the complex square of the unit. |
| Complexes.UnitSquared | MathLib/MathLib/complex/Imag.cs:56-59 | The complex square of the unit is -1. |
| Complexes.Imag.TimesRealImag | MathLib/MathLib/complex/Imag.cs:61-64 | `r * i == (0, r)`. |
| Complexes.Imag.TimesImagReal | MathLib/MathLib/complex/Imag.cs:66-69 | `i * r == (0, r)`. |
| Complexes.RealTimesUnit | MathLib/MathLib/complex/Imag.cs:61-69 | For finite `r`, `(0, r)` is the complex product of `r` and the unit, on either side. |
| Complexes.Imag.Over | MathLib/MathLib/complex/Imag.cs:73-76 | `i / i` is the real 1, the complex quotient of the unit by itself. |
| Complexes.UnitOverUnit | MathLib/MathLib/complex/Imag.cs:73-76 | The complex quotient of the unit by itself is 1. |
| Complexes.Imag.OverRealImag | MathLib/MathLib/complex/Imag.cs:78-81 | `r / i == (0, -r)`. |
| Complexes.RealOverUnit | MathLib/MathLib/complex/Imag.cs:78-81 | For finite `r`, `(0, -r)` is the complex quotient of `r` by the unit. |
| Complexes.Imag.OverImagReal | MathLib/MathLib/complex/Imag.cs:83-86 | `i / r == (0, 1 / r)`. |
| Complexes.UnitOverRealIsShrunk | MathLib/MathLib/complex/Imag.cs:83-86 | For finite nonzero `r`, `(0, 1 / r)` is the unit divided by `r`. |
| Boxes.Includes | MathLib/MathLib/geometry/2d/AABB.cs:111-120 | `Contains(pos)`: true iff none of `pos.X < Min.X`, `pos.X > Max.X`, `pos.Y < Min.Y`, `pos.Y > Max.Y` holds; `IncludesIsClosedBox` and `NaNPointIncluded` state what that means. |
| Boxes.Encloses | MathLib/MathLib/geometry/2d/AABB.cs:122-131 | `Contains(aabb)`: true iff the inner `Min` is not below and the inner `Max` not above the outer bounds on either axis; `EnclosesTransfers` states what that means. |
| Boxes.IncludesIsClosedBox | MathLib/MathLib/geometry/2d/AABB.cs:111-120 | For an ordered box and a point without NaN, `Contains(pos)` iff `Min <= pos <= Max` on both axes; the borders count. |
| Boxes.NaNPointIncluded | MathLib/MathLib/geometry/2d/AABB.cs:111-120 | The strict-comparison test accepts a NaN point, since every comparison with NaN is false. |
| Boxes.EmptyAndInfiniteBoxes | MathLib/MathLib/geometry/2d/AABB.cs:46-55 | The empty box contains no point without NaN; the infinite box contains every point. |
| Boxes.EnclosesTransfers | MathLib/MathLib/geometry/2d/AABB.cs:122-131 | If a box contains another, every point of the inner box is in the outer one. |
| Boxes.OverlapsOnAxis | MathLib/MathLib/geometry/2d/AABB.cs:87-92 | Fails iff the axis is outside `0..1`; otherwise it compares closed intervals. |
| Boxes.Overlaps | MathLib/MathLib/geometry/2d/AABB.cs:94-98 | True iff `OverlapsOnAxis` holds on axis 0 and on axis 1; `OverlapsSymmetric`, `CommonPointOverlaps` and `OverlapsIffIntersectionProper` state its laws. |
| Boxes.OverlapsSymmetric | MathLib/MathLib/geometry/2d/AABB.cs:94-98 | `a.Overlaps(b) == b.Overlaps(a)`. |
| Boxes.CommonPointOverlaps | MathLib/MathLib/geometry/2d/AABB.cs:87-98 | Two ordered boxes sharing a point overlap, so touching boxes count. |
| Boxes.OverlapsExpandedPoint | MathLib/MathLib/geometry/2d/AABB.cs:100-109 | The box against the square `[pos - radius, pos + radius]`: true iff neither `pos + radius` is below `Min` nor `pos - radius` above `Max` on either axis. |
| Boxes.ExpandedPointOfRadiusZero | MathLib/MathLib/geometry/2d/AABB.cs:100-109 | With radius 0, `OverlapsExpandedPoint` is `Contains`. |
| Boxes.PointDistanceSquared | MathLib/MathLib/geometry/2d/AABB.cs:144-159 | The squared distance is never below zero, and is zero for a contained point. |
| Boxes.PointDistanceZeroOnlyInside | MathLib/MathLib/geometry/2d/AABB.cs:111-159 | For a finite box and point, the squared distance is zero iff the box contains the point. |
| Boxes.AxisExcessNotNegative | MathLib/MathLib/geometry/2d/AABB.cs:148-157 | Adding one axis's squared excess outside the box to a non-negative sum keeps it non-negative. |
| Boxes.AxisExcessPositive | MathLib/MathLib/geometry/2d/AABB.cs:148-157 | For finite values the excess is positive outside the axis interval, and adds nothing inside it. |
| Boxes.NearestPointNoFartherThanVertex | MathLib/MathLib/geometry/2d/AABB.cs:144-159 | The squared distance to the box is at most the squared distance to any of its vertices. |
| Boxes.NearerFace | MathLib/MathLib/geometry/2d/AABB.cs:176-186 | The smaller squared distance to a face is never below zero. |
| Boxes.NearerFaceIsSmaller | MathLib/MathLib/geometry/2d/AABB.cs:176-186 | It is at most the squared distance to either face. |
| Boxes.PointDistanceSquaredSigned | MathLib/MathLib/geometry/2d/AABB.cs:162-194 | Outside the box it equals `PointDistanceSquared`; inside it is at most zero. |
| Boxes.SignedDistanceInside | MathLib/MathLib/geometry/2d/AABB.cs:162-194 | Inside a finite box it is minus the sum over the axes of the smaller squared distance to a face. |
| Boxes.Lower | MathLib/MathLib/geometry/2d/AABB.cs:63-74 | The kept lower bound is one of the two values and not above either. |
| Boxes.Upper | MathLib/MathLib/geometry/2d/AABB.cs:63-74 | The kept upper bound is one of the two values and not below either. |
| Boxes.AddedPoint | MathLib/MathLib/geometry/2d/AABB.cs:63-74 | `AddPoint(pos)` on values: each bound moves to `pos` only where `pos` is strictly outside it. A planar box; `AddedPointGrows`, `AddedPointIsSmallest` and `FirstPointOfEmptyBox` state what it computes. |
| Boxes.AddedPointGrows | MathLib/MathLib/geometry/2d/AABB.cs:63-74 | After `AddPoint(p)` the box contains `p` and the previous box. |
| Boxes.AddedPointIsSmallest | MathLib/MathLib/geometry/2d/AABB.cs:63-74 | Any ordered box containing the old box and `p` contains the grown box. |
| Boxes.FirstPointOfEmptyBox | MathLib/MathLib/geometry/2d/AABB.cs:46-74 | Adding `p` to the empty box gives `Min == Max == p`. |
| Boxes.EmptyBoxThroughTwoPoints | MathLib/MathLib/geometry/2d/AABB.cs:46-74 | The empty box grown by `(0,0)` and `(4,4)` is `[(0,0), (4,4)]`. |
| Boxes.AddedBox | MathLib/MathLib/geometry/2d/AABB.cs:76-80 | `AddAABB(other)`: `AddPoint(other.Min)` then `AddPoint(other.Max)`. A planar box; `AddedBoxIsUnion` states it is the union. |
| Boxes.AddedBoxIsUnion | MathLib/MathLib/geometry/2d/AABB.cs:76-80 | `AddAABB` of a proper box is the corrected union. |
| Boxes.Size | MathLib/MathLib/geometry/2d/AABB.cs:82-85 | The size is a 2-vector. |
| Boxes.Centroid | MathLib/MathLib/geometry/2d/AABB.cs:320-323 | `(Min + Max) * 0.5` componentwise, a 2-vector; `CentroidInside` and `CentroidAxis` state its laws. |
| Boxes.CentroidAxis | MathLib/MathLib/geometry/2d/AABB.cs:315-318 | Fails iff the axis is outside `0..1`; otherwise it is that component of the centroid. |
| Boxes.CentroidInside | MathLib/MathLib/geometry/2d/AABB.cs:320-323 | A finite proper box contains its centroid. |
| Boxes.ExtrudedAxis | MathLib/MathLib/geometry/2d/AABB.cs:196-200 | Extruding one axis leaves the other axis unchanged. |
| Boxes.Extruded | MathLib/MathLib/geometry/2d/AABB.cs:202-211 | `Extrude(x, y)`, and `Extrude(f)` with equal offsets: `Min` moves down and `Max` up by the offset of each axis. A planar box; `ExtrusionGrows` states what it computes. |
| Boxes.ExtrudedBy | MathLib/MathLib/geometry/2d/AABB.cs:213-217 | `Extrude(Vec2 offset)`: `Min - offset` and `Max + offset`. A planar box; `ExtrudeOverloadsAgree` states it equals `Extrude(x, y)`. |
| Boxes.ExtrudeOverloadsAgree | MathLib/MathLib/geometry/2d/AABB.cs:202-217 | `Extrude(Vec2)` equals `Extrude(x, y)` with the vector's components. |
| Boxes.ExtrusionGrows | MathLib/MathLib/geometry/2d/AABB.cs:196-211 | Extruding by non-negative offsets encloses the old box and grows each size by twice the offset. |
| Boxes.InflatedAxis | MathLib/MathLib/geometry/2d/AABB.cs:226-230 | `InflateAxis(f, axis)`: both bounds of the axis move outwards by `(Max - Min) * 0.5 * f`. A planar box. |
| Boxes.Inflated | MathLib/MathLib/geometry/2d/AABB.cs:247-251 | `Inflate(x, y)`: `InflateAxis` on axis 0 then axis 1. A planar box; `InflationAroundCentre` and `InflationByZero` state what it computes. |
| Boxes.InflationAroundCentre | MathLib/MathLib/geometry/2d/AABB.cs:226-261 | Inflation keeps the centroid and multiplies each axis length by `1 + f`. |
| Boxes.InflationByZero | MathLib/MathLib/geometry/2d/AABB.cs:226-261 | Inflating by 0 leaves a finite box unchanged. |
| Boxes.ScaledAxis | MathLib/MathLib/geometry/2d/AABB.cs:268-272 | `ScaleAxis(s, axis)`: both bounds of the axis are multiplied by `s`. A planar box. |
| Boxes.Scaled | MathLib/MathLib/geometry/2d/AABB.cs:285-289 | `Scale(x, y)`: `ScaleAxis` on axis 0 then axis 1. A planar box; `ScalingMultipliesSize` states what it computes. |
| Boxes.ScalingMultipliesSize | MathLib/MathLib/geometry/2d/AABB.cs:268-289 | Scaling multiplies both corners, so each size is multiplied by its factor. |
| Boxes.InflationIsScalingAtOrigin | MathLib/MathLib/geometry/2d/AABB.cs:226-289 | For a box centred at the origin, inflating by `f` is scaling by `1 + f`. |
| Boxes.ScaledByAsWritten | MathLib/MathLib/geometry/2d/AABB.cs:294-297 | `Scale(Vec2)` as written: it calls `Inflate` with the vector's components. A planar box; `ScaleByVectorInflates` shows it differs from `Scale(x, y)`. |
| Boxes.ScaledBy | MathLib/MathLib/geometry/2d/AABB.cs:294-297 | Corrected `Scale(Vec2)`: `Scale(x, y)` with the vector's components. A planar box; `ScaledByMultipliesSize` states what it computes. |
| Boxes.ScaleByVectorInflates | MathLib/MathLib/geometry/2d/AABB.cs:294-297 | As written, `Scale((2,2))` on `[(1,1),(3,3)]` inflates it to `[(-1,-1),(5,5)]` instead of scaling it to `[(2,2),(6,6)]`. |
| Boxes.ScaledByMultipliesSize | MathLib/MathLib/geometry/2d/AABB.cs:294-297 | The corrected `Scale(Vec2)` multiplies each size by its factor. |
| Boxes.TranslatedAxis | MathLib/MathLib/geometry/2d/AABB.cs:301-305 | Translating one axis leaves the box planar. |
| Boxes.Translated | MathLib/MathLib/geometry/2d/AABB.cs:307-311 | `Translate(offset)`: `TranslateAxis` on axis 0 then axis 1, adding the offset to both bounds. A planar box; `TranslationMovesRigidly` states what it computes. |
| Boxes.TranslationMovesRigidly | MathLib/MathLib/geometry/2d/AABB.cs:301-311 | Translation keeps the size, moves the centroid by the offset, and contains `p + offset` iff the old box contained `p`. |
| Boxes.Union | MathLib/MathLib/geometry/2d/AABB.cs:328-339 | Corrected `+`: it contains both boxes. |
| Boxes.UnionIsSmallest | MathLib/MathLib/geometry/2d/AABB.cs:328-339 | Any ordered box containing both contains the union. |
| Boxes.UnionAsWritten | MathLib/MathLib/geometry/2d/AABB.cs:328-339 | `+` as written: the lower bounds take the smaller value, but a larger `bbB.Max` is answered with `bbA.Max`. A planar box; `UnionAsWrittenLosesMaximum` shows the loss. |
| Boxes.UnionAsWrittenLosesMaximum | MathLib/MathLib/geometry/2d/AABB.cs:335-336 | As written, `[(0,0),(1,1)] + [(0,0),(2,2)]` keeps `Max == (1,1)` and so misses the second box. |
| Boxes.Intersection | MathLib/MathLib/geometry/2d/AABB.cs:342-353 | `*`: the lower bounds take the larger value and the upper bounds the smaller. A planar box; `IntersectionHoldsCommonPoints` and `OverlapsIffIntersectionProper` state what it computes. |
| Boxes.IntersectionHoldsCommonPoints | MathLib/MathLib/geometry/2d/AABB.cs:342-353 | A point without NaN is in `a * b` iff it is in both boxes. |
| Boxes.OverlapsIffIntersectionProper | MathLib/MathLib/geometry/2d/AABB.cs:94-98 | Two proper boxes overlap iff their intersection is a proper box. |
| Boxes.EnclosedBoxOverlaps | MathLib/MathLib/geometry/2d/AABB.cs:94-131 | A box overlaps every proper box it contains. |
| Boxes.Vertex | MathLib/MathLib/geometry/2d/AABB.cs:380-390 | Each vertex is a 2-vector. |
| Boxes.VerticesInside | MathLib/MathLib/geometry/2d/AABB.cs:380-390 | A proper box contains its four vertices. |
| Boxes.EdgesAxisAligned | MathLib/MathLib/geometry/2d/AABB.cs:356-378 | Consecutive vertices share an x or a y coordinate, so every edge is axis-aligned. |
| Boxes.VertexInCircleIsSound | MathLib/MathLib/geometry/2d/AABB.cs:133-141 | If the vertex test succeeds, the circle really reaches the box. |
| Boxes.CircleInsideBoxNotDetected | MathLib/MathLib/geometry/2d/AABB.cs:133-141 | The vertex test misses a small circle in the middle of a large box. |
| Boxes.AABB.constructor | MathLib/MathLib/geometry/2d/AABB.cs:12-15 | A fresh empty box. |
| Boxes.AABB.OfPoint | MathLib/MathLib/geometry/2d/AABB.cs:16-19 | The box `[pos, pos]` over fresh corners. |
| Boxes.AABB.OfCorners | MathLib/MathLib/geometry/2d/AABB.cs:20-24 | The box `[bbMin, bbMax]` over fresh corners. |
| Boxes.AABB.CopyFrom | MathLib/MathLib/geometry/2d/AABB.cs:26-29 | A fresh box with equal bounds. |
| Boxes.AABB.Copy | MathLib/MathLib/geometry/2d/AABB.cs:30-33 | A fresh box with equal bounds. |
| Boxes.AABB.SetEmpty | MathLib/MathLib/geometry/2d/AABB.cs:46-50 | The bounds become `[+inf, -inf]`. |
| Boxes.AABB.SetInfinity | MathLib/MathLib/geometry/2d/AABB.cs:51-55 | The bounds become `[-inf, +inf]`. |
| Boxes.AABB.Init | MathLib/MathLib/geometry/2d/AABB.cs:57-61 | The bounds become `[pos, pos]`. |
| Boxes.AABB.AddPoint | MathLib/MathLib/geometry/2d/AABB.cs:63-74 | In place, the bounds become `AddedPoint(old bounds, pos)`. |
| Boxes.AABB.AddAABB | MathLib/MathLib/geometry/2d/AABB.cs:76-80 | In place, the bounds grow by the other box's `Min` and then its `Max`. |
| Boxes.AABB.GetSize | MathLib/MathLib/geometry/2d/AABB.cs:82-85 | A fresh `Max - Min`. |
| Boxes.AABB.CentroidOnAxis | MathLib/MathLib/geometry/2d/AABB.cs:315-318 | The centroid on an axis, failing iff the axis is out of range. |
| Boxes.AABB.GetCentroid | MathLib/MathLib/geometry/2d/AABB.cs:320-323 | A fresh centroid vector. |
| Boxes.AABB.ExtrudeAxis | MathLib/MathLib/geometry/2d/AABB.cs:196-200 | Fails iff the axis is out of range, changing nothing. Otherwise it moves `Min[a]` down and `Max[a]` up by the offset. |
| Boxes.AABB.Extrude | MathLib/MathLib/geometry/2d/AABB.cs:202-205 | Extrudes both axes by the same offset. |
| Boxes.AABB.ExtrudeXY | MathLib/MathLib/geometry/2d/AABB.cs:207-211 | Extrudes each axis by its own offset. |
| Boxes.AABB.ExtrudeBy | MathLib/MathLib/geometry/2d/AABB.cs:213-217 | Extrudes by the components of a vector. |
| Boxes.AABB.InflateAxis | MathLib/MathLib/geometry/2d/AABB.cs:226-230 | Fails iff the axis is out of range. Otherwise it inflates that axis by the fraction. |
| Boxes.AABB.Inflate | MathLib/MathLib/geometry/2d/AABB.cs:237-240 | Inflates both axes by the same fraction. |
| Boxes.AABB.InflateXY | MathLib/MathLib/geometry/2d/AABB.cs:247-251 | Inflates each axis by its own fraction. |
| Boxes.AABB.InflateBy | MathLib/MathLib/geometry/2d/AABB.cs:258-261 | Inflates by the components of a vector. |
| Boxes.AABB.ScaleAxis | MathLib/MathLib/geometry/2d/AABB.cs:268-272 | Fails iff the axis is out of range. Otherwise it multiplies both corners on that axis. |
| Boxes.AABB.Scale | MathLib/MathLib/geometry/2d/AABB.cs:277-280 | Scales both axes by the same factor. |
| Boxes.AABB.ScaleXY | MathLib/MathLib/geometry/2d/AABB.cs:285-289 | Scales each axis by its own factor. |
| Boxes.AABB.ScaleByAsWritten | MathLib/MathLib/geometry/2d/AABB.cs:294-297 | As written, `Scale(Vec2)` inflates. |
| Boxes.AABB.ScaleBy | MathLib/MathLib/geometry/2d/AABB.cs:294-297 | Corrected: it scales by the vector's components. |
| Boxes.AABB.TranslateAxis | MathLib/MathLib/geometry/2d/AABB.cs:301-305 | Fails iff the axis is out of range. Otherwise it shifts both corners on that axis. |
| Boxes.AABB.Translate | MathLib/MathLib/geometry/2d/AABB.cs:307-311 | Shifts both corners by the offset vector. |
| Boxes.AABB.UniteAsWritten | MathLib/MathLib/geometry/2d/AABB.cs:328-339 | As written: a fresh box whose `Max` is `a.Max`. |
| Boxes.AABB.Unite | MathLib/MathLib/geometry/2d/AABB.cs:328-339 | Corrected: a fresh box holding the union. |
| Boxes.AABB.Intersect | MathLib/MathLib/geometry/2d/AABB.cs:342-353 | A fresh box: `Min` is the componentwise max of the Mins, `Max` the componentwise min of the Maxes. |
| Boxes.AABB.GetVertex | MathLib/MathLib/geometry/2d/AABB.cs:380-390 | Vertices 0 to 3 are `Min`, `(Max.X, Min.Y)`, `Max` and `(Min.X, Max.Y)`. Vertices 0 and 2 are the corner objects themselves. Any other index gives the NaN vector. |
| Boxes.AABB.GetEdgeVertex0 | MathLib/MathLib/geometry/2d/AABB.cs:356-366 | Edge `e` starts at vertex `e`. Edges 0 and 2 return the box's own `Min` and `Max` objects, so a write to the result changes the box. Edges 1 and 3 return a fresh vector. An out-of-range edge gives the NaN vector. |
| Boxes.AABB.GetEdgeVertex1 | MathLib/MathLib/geometry/2d/AABB.cs:368-378 | Edge `e` ends at vertex `(e + 1) mod 4`. Edges 3 and 1 return the box's own `Min` and `Max` objects. Edges 0 and 2 return a fresh vector. An out-of-range edge gives the NaN vector. |
| Boxes.AABB.OverlapsCircle | MathLib/MathLib/geometry/2d/AABB.cs:133-141 | The loop is true iff some vertex lies within the radius of the centre. |
| Boxes.LowerComponents | MathLib/MathLib/geometry/2d/AABB.cs:63-74 | Lowers each component of `Min` to the point's where the point is smaller. |
| Boxes.RaiseComponents | MathLib/MathLib/geometry/2d/AABB.cs:63-74 | Raises each component of `Max` to the point's where the point is larger. |
| Barycentric.U2Bary | MathLib/MathLib/geometry/nd/Barycentric.cs:188-191 | `(1 - u, u)`: the trailing component is `u` and the components sum to 1. |
| Barycentric.UV2Bary | MathLib/MathLib/geometry/nd/Barycentric.cs:193-196 | `(1 - u - v, u, v)`: the trailing components are the arguments and the components sum to 1. |
| Barycentric.UVW2Bary | MathLib/MathLib/geometry/nd/Barycentric.cs:198-201 | `(1 - u - v - w, u, v, w)`: the trailing components are the arguments and the components sum to 1. |
| Barycentric.InterpolateLine | MathLib/MathLib/geometry/nd/Barycentric.cs:32-37 | Line interpolation of vectors keeps the vertices' arity. |
| Barycentric.LineAgreesWithLoop | MathLib/MathLib/geometry/nd/Barycentric.cs:32-37 | The line formula equals the weighted sum the N-vertex loop computes. |
| Barycentric.LineAgreesWithLoopScalar | MathLib/MathLib/geometry/nd/Barycentric.cs:38-39 | The same for scalars. |
| Barycentric.InterpolateTriangle | MathLib/MathLib/geometry/nd/Barycentric.cs:91-96 | Triangle interpolation keeps the vertices' arity. |
| Barycentric.TriangleAgreesWithLoop | MathLib/MathLib/geometry/nd/Barycentric.cs:91-96 | The triangle formula equals the weighted sum. |
| Barycentric.TriangleAgreesWithLoopScalar | MathLib/MathLib/geometry/nd/Barycentric.cs:97-98 | The same for scalars. |
| Barycentric.InterpolateTetra | MathLib/MathLib/geometry/nd/Barycentric.cs:138-143 | Tetrahedron interpolation keeps the vertices' arity. |
| Barycentric.TetraAgreesWithLoop | MathLib/MathLib/geometry/nd/Barycentric.cs:138-143 | The tetrahedron formula equals the weighted sum. |
| Barycentric.TetraAgreesWithLoopScalar | MathLib/MathLib/geometry/nd/Barycentric.cs:144-145 | The same for scalars. |
| Barycentric.WeightedSum | MathLib/MathLib/geometry/nd/Barycentric.cs:149-184 | The sum of `bc[i] * v[i]` has the vertices' arity. |
| Barycentric.UnitCoordinateSelectsVertex | MathLib/MathLib/geometry/nd/Barycentric.cs:91-98 | Interpolating finite vertices with the unit coordinate `e_i` gives vertex `i`. |
| Barycentric.UnitCoordinateSelectsValue | MathLib/MathLib/geometry/nd/Barycentric.cs:138-145 | The same for scalar values. |
| Barycentric.ZeroWeightsGiveZero | MathLib/MathLib/geometry/nd/Barycentric.cs:149-175 | All-zero weights on finite vertices give the zero vector. |
| Barycentric.ZeroWeightsGiveZeroScalar | MathLib/MathLib/geometry/nd/Barycentric.cs:176-184 | All-zero weights on finite values give zero. |
| Barycentric.InterpolateScalars | MathLib/MathLib/geometry/nd/Barycentric.cs:176-184 | Fails iff `bc.Length != v.Length`. Otherwise the loop returns the sum of `bc[i] * v[i]`. |
| Barycentric.InterpolateVec2s | MathLib/MathLib/geometry/nd/Barycentric.cs:167-175 | The same for `Vec2` vertices, giving a fresh vector. |
| Barycentric.InterpolateVec3s | MathLib/MathLib/geometry/nd/Barycentric.cs:158-166 | The same for `Vec3` vertices. |
| Barycentric.InterpolateVec4s | MathLib/MathLib/geometry/nd/Barycentric.cs:149-157 | The same for `Vec4` vertices. |
| Barycentric.LineCoordScalar | MathLib/MathLib/geometry/nd/Barycentric.cs:27-30 | The scalar line coordinate is a pair. |
| Barycentric.LineCoordScalarRoundTrip | MathLib/MathLib/geometry/nd/Barycentric.cs:27-39 | For `v0 != v1`, interpolating the coordinate of `P` gives back `P`. |
| Barycentric.LineCoordScalarInvertsInterpolation | MathLib/MathLib/geometry/nd/Barycentric.cs:27-39 | For `v0 != v1`, the coordinate of the point interpolated at `U2Bary(t)` is `U2Bary(t)`. |
| Barycentric.LineCoord | MathLib/MathLib/geometry/nd/Barycentric.cs:15-25 | The line coordinate of a point is a pair. |
| Barycentric.LineCoordAtEnds | MathLib/MathLib/geometry/nd/Barycentric.cs:15-25 | The ends of a non-degenerate segment get `(1, 0)` and `(0, 1)`. |
| Barycentric.LineCoordInvertsInterpolation | MathLib/MathLib/geometry/nd/Barycentric.cs:15-37 | For `v0 != v1`, the coordinate of the point interpolated at `U2Bary(t)` is `U2Bary(t)`. |
| Barycentric.TriangleCoord | MathLib/MathLib/geometry/nd/Barycentric.cs:60-89 | The triangle coordinate is a triple. |
| Barycentric.TriangleCoordInvertsInterpolation | MathLib/MathLib/geometry/nd/Barycentric.cs:60-96 | For a non-degenerate triangle, the coordinate of the point interpolated at `UV2Bary(u, v)` is `UV2Bary(u, v)`. |
| Barycentric.TriangleCoordAtVertices | MathLib/MathLib/geometry/nd/Barycentric.cs:60-89 | For a non-degenerate triangle the vertices get `(1,0,0)`, `(0,1,0)` and `(0,0,1)`. |
| Barycentric.UnitInterpolation | MathLib/MathLib/geometry/nd/Barycentric.cs:91-96 | `UV2Bary(0,0)`, `UV2Bary(1,0)` and `UV2Bary(0,1)` interpolate to `v0`, `v1` and `v2`. |
| Barycentric.ClampedLine | MathLib/MathLib/geometry/nd/Barycentric.cs:217-222 | The clamped line coordinate is a pair. |
| Barycentric.ClampedTriangle | MathLib/MathLib/geometry/nd/Barycentric.cs:225-237 | The clamped triangle coordinate is a triple. |
| Barycentric.ClampedTetra | MathLib/MathLib/geometry/nd/Barycentric.cs:242-254 | The clamped tetrahedron coordinate has four components. |
| Barycentric.ClampLineCoord | MathLib/MathLib/geometry/nd/Barycentric.cs:217-222 | A fresh vector holding the clamped line coordinate. |
| Barycentric.ClampTriangleCoord | MathLib/MathLib/geometry/nd/Barycentric.cs:225-237 | A fresh vector holding the clamped triangle coordinate. |
| Barycentric.ClampTetraCoord | MathLib/MathLib/geometry/nd/Barycentric.cs:242-254 | A fresh vector holding the clamped tetrahedron coordinate. |
| Barycentric.ClampedLineInSimplex | MathLib/MathLib/geometry/nd/Barycentric.cs:217-222 | Without NaN, every component lies in `[0, 1]` and they sum to 1. |
| Barycentric.ClampedTriangleInSimplex | MathLib/MathLib/geometry/nd/Barycentric.cs:225-237 | The same for triangles, rescaling when `u + v > 1`. |
| Barycentric.ClampedTetraInSimplex | MathLib/MathLib/geometry/nd/Barycentric.cs:242-254 | The same for tetrahedra, rescaling when `u + v + w > 1`. |
| Barycentric.ClampedLineKeepsSimplex | MathLib/MathLib/geometry/nd/Barycentric.cs:217-222 | A coordinate already in the simplex is returned unchanged. |
| Barycentric.ClampedTriangleKeepsSimplex | MathLib/MathLib/geometry/nd/Barycentric.cs:225-237 | The same for triangles. |
| Barycentric.ClampedTetraKeepsSimplex | MathLib/MathLib/geometry/nd/Barycentric.cs:242-254 | The same for tetrahedra. |
| Barycentric.ClampedLineIdempotent | MathLib/MathLib/geometry/nd/Barycentric.cs:217-222 | Clamping twice equals clamping once. |
| Barycentric.ClampedTriangleIdempotent | MathLib/MathLib/geometry/nd/Barycentric.cs:225-237 | The same for triangles. |
| Barycentric.ClampedTetraIdempotent | MathLib/MathLib/geometry/nd/Barycentric.cs:242-254 | The same for tetrahedra. |
| UtilsPointF.Dot | MathLib/MathLib/utils/UtilsPointF.cs:42-45 | `a.X * b.X + a.Y * b.Y` in float arithmetic; `DotSymmetric` and `DotOf` state its value. |
| UtilsPointF.Plus | MathLib/MathLib/utils/UtilsPointF.cs:47-50 | The componentwise float sum; `MinusUndoesPlus` states its inverse. |
| UtilsPointF.Minus | MathLib/MathLib/utils/UtilsPointF.cs:52-55 | The componentwise float difference; `MinusUndoesPlus` and `MinusOf` state its value. |
| UtilsPointF.Times | MathLib/MathLib/utils/UtilsPointF.cs:57-60 | `Mul(p, s)`: both coordinates multiplied by `s`; `TimesUnitAndZero` and `TimesOf` state its value. |
| UtilsPointF.LengthSquared | MathLib/MathLib/utils/UtilsPointF.cs:62-65 | `Dot(v, v)`; `LengthSquaredNotNegative` states it is never negative. |
| UtilsPointF.DistanceSquared | MathLib/MathLib/utils/UtilsPointF.cs:11-14 | `LengthSquared(Minus(a, b))`; `DistanceSquaredSymmetric` states it is symmetric. |
| UtilsPointF.Lerp | MathLib/MathLib/utils/UtilsPointF.cs:78-81 | `a * (1 - t) + b * t`; `LerpEndpoints` and `LerpOf` state its value. |
| UtilsPointF.DotSymmetric | MathLib/MathLib/utils/UtilsPointF.cs:42-45 | `Dot(a, b) == Dot(b, a)`. |
| UtilsPointF.LengthSquaredNotNegative | MathLib/MathLib/utils/UtilsPointF.cs:62-65 | `LengthSquared(v) == Dot(v, v)` is never below zero, and is at least zero without NaN. |
| UtilsPointF.MinusUndoesPlus | MathLib/MathLib/utils/UtilsPointF.cs:47-55 | `Minus(Plus(a, b), b) == a` for finite points. |
| UtilsPointF.DistanceSquaredSymmetric | MathLib/MathLib/utils/UtilsPointF.cs:11-14 | The squared distance is symmetric. |
| UtilsPointF.TimesUnitAndZero | MathLib/MathLib/utils/UtilsPointF.cs:57-60 | `Mul(a, 1) == a` and `Mul(a, 0)` is the origin for a finite point. |
| UtilsPointF.LerpEndpoints | MathLib/MathLib/utils/UtilsPointF.cs:78-81 | `Lerp(0, A, B) == A` and `Lerp(1, A, B) == B`. |
| UtilsPointF.SegmentDistanceSquaredAsWritten | MathLib/MathLib/utils/UtilsPointF.cs:21-35 | `PointLineSegDistanceSquared` as written: with `t = Dot(p - a, b - a) / LengthSquared(b - a)`, the squared distance to `a` when `t <= 0`, to `b` when `t >= 1`, to `Lerp(t, a, b)` otherwise. `SegmentDistanceIsMinimal` and `SegmentDistanceIsAttained` state it is the distance to the segment when `a != b`. |
| UtilsPointF.SegmentDistanceIsMinimal | MathLib/MathLib/utils/UtilsPointF.cs:21-35 | For `A != B` the value is at most the squared distance to every point `Lerp(s, A, B)` with `s` in `[0, 1]`. |
| UtilsPointF.SegmentDistanceIsAttained | MathLib/MathLib/utils/UtilsPointF.cs:21-35 | For `A != B` the value is the squared distance to `Lerp(clamp(t, 0, 1), A, B)`, a point of the segment. |
| UtilsPointF.NearestIsStart | MathLib/MathLib/utils/UtilsPointF.cs:23-27 | When the projection parameter is at most 0, `A` is at least as near to `P` as every point of the segment. |
| UtilsPointF.NearestIsEnd | MathLib/MathLib/utils/UtilsPointF.cs:23-29 | When the projection parameter is at least 1, `B` is at least as near to `P` as every point of the segment. |
| UtilsPointF.NearestIsProjection | MathLib/MathLib/utils/UtilsPointF.cs:23-34 | For `A != B`, the projection `Lerp(t, A, B)` is at least as near to `P` as every point `Lerp(s, A, B)` of the line through `A` and `B`. |
| UtilsPointF.DegenerateSegmentGivesNaN | MathLib/MathLib/utils/UtilsPointF.cs:21-35 | As written, a segment with `A == B` gives NaN, whereas the corrected version is finite. |
| UtilsPointF.SegmentDistanceSquared | MathLib/MathLib/utils/UtilsPointF.cs:21-35 | Corrected: the squared distance to `a` when the segment has length zero, the computation as written otherwise. `SegmentDistanceSquaredIsMinimal` and `SegmentDistanceSquaredIsAttained` state it is the squared distance to the segment. |
| UtilsPointF.SegmentDistanceSquaredIsMinimal | MathLib/MathLib/utils/UtilsPointF.cs:21-35 | Corrected: for all finite inputs the value is at most the squared distance to every point of the segment. |
| UtilsPointF.SegmentDistanceSquaredIsAttained | MathLib/MathLib/utils/UtilsPointF.cs:21-35 | Corrected: the value is finite, at least zero, and attained at some point of the segment. |

## Left out

- Floats: IEEE-754 rounding, signed zero and NaN payloads are not modelled. A finite float is an exact real, so every law about finite values holds over the reals only.
- UtilsInt.Factorial: does not model 32-bit wrap-around. Results are unbounded integers, so the source overflows from `13!` on.
- UtilsInt.QFactorial: does not model 32-bit wrap-around, for the same reason.
- UtilsInt.Fibonacci: does not model 32-bit wrap-around. The source overflows beyond `F(46)`.
- UtilsInt.QFibonacci: does not model 32-bit wrap-around, for the same reason.
- UtilsInt.GreatestCommonDivisor: requires natural arguments, the domain UtilsInt.cs:13-14 documents. Outside it the base cases still return at once for equal arguments or a zero argument, e.g. `(-2, -2)` gives `-2` and `(0, -3)` gives `-3`. Every other pair with a negative member recurses forever, e.g. `(3, -1)`, `(4, -1)`, and so on; neither behaviour is modelled.
- UtilsInt.Factorial: requires `n >= 0`. For negative `n` the C# recursion (UtilsInt.cs:32-38) never reaches its base case `n == 0 || n == 1`.
- UtilsInt.Fibonacci: requires `n >= 0`. For negative `n` the C# recursion (UtilsInt.cs:48-54) never reaches its base case either.
- `Math.Sqrt` is the parameter `sqrt` of the `Normalize` and `GetNormalized` members. `Length` and `Distance` of the vectors, `PointLineSegDistance`, `Length`, `Distance` and `Normalize` of `UtilsPointF`, and `Complex.Abs` are square roots of modelled squared forms and are not separate members.
- `Complex` `Arg`, `Exp`, `Log`, `Cos`, `Sin`, `FromPolar`, `ToPolar` and `ToString` are transcendental floating-point numerics or number formatting.
- `Mtx2.Rotate` (trigonometry), `Mtx2.ToString` and `Vec2.ToPointF` (a `System.Drawing` type) are not modelled.
- Number formatting (`float.ToString` with the invariant culture) is the parameter `fmt` of the text members; only the brackets, separators and padding are modelled.
- The static singletons `Empty`, `NaN`, `NegativeInfinity` and `PositiveInfinity` and their static constructors are not modelled. Where the source returns the `NaN` vector, it is the parameter `nan`.
- The tetrahedron `BaryCoord`, `BaryCoordClampPoint` and `ConstrainPointInTriangleClosed` are compiled out with `#if false` in MathLib/MathLib/geometry/nd/Barycentric.cs and are not modelled.
- Barycentric: the fixed-arity coordinate and interpolation functions are modelled on component sequences rather than on `Vec2`/`Vec3`/`Vec4` objects, since they only build fresh vectors. The N-vertex loops and the clamps take and return objects.
- Boxes.AABB.Valid: requires the `Min` and `Max` corners to be distinct objects. The library's own code never makes them share storage. `Min` and `Max` are public settable properties (AABB.cs:35-44), so a caller can write `box.Min = box.Max`; `Valid` excludes that caller-made aliasing. Apart from that, `GetVertex`, `GetEdgeVertex0` and `GetEdgeVertex1` hand out the corners themselves, which their contracts state.
- Null references are not modelled; every object argument is non-null.
- `utils/Conversion.cs` (byte reinterpretation and hex parsing) and the console driver `Test/Program.cs` are not part of this model, except for the vector example `Vectors.UsageExample` takes from the driver.
- Boxes.PointDistanceSquared, Boxes.PointDistanceSquaredSigned and the other box queries (`Overlaps`, `Contains`, `OverlapsExpandedPoint`) are functions on the box's value, not methods of `AABB`, because the source only reads the corners in them.

## Findings

| source | as written | input that shows it | evidently intended | confidence | as-written member | corrected member |
|---|---|---|---|---|---|---|
| MathLib/MathLib/linalg/4d/Vec4.cs:83-89 | `Set(all)` writes index 1 twice and never index 3 | `Set(5)` on `(0, 0, 0, 0)` gives `(5, 5, 5, 0)` | all four components become `all` | high, not executed | Vectors.Vec4.SetAllAsWritten, Vectors.SetAllAsWrittenKeepsW | Vectors.Vec4.SetAll |
| MathLib/MathLib/linalg/4d/Vec4.cs:91-97 | `Set(x, y, z, w)` writes `w` to index 2 | `Set(1, 2, 3, 4)` on the zero vector gives `(1, 2, 4, 0)` | the vector becomes `(x, y, z, w)` | high, not executed | Vectors.Vec4.SetXYZWAsWritten, Vectors.SetXYZWAsWrittenMisplacesW | Vectors.Vec4.SetXYZW |
| MathLib/MathLib/complex/Complex.cs:110-113 | `r - z` keeps `z.Imaginary` instead of negating it | `0 - i` gives `i` | `(r - Re, -Im)` | high, not executed | Complexes.Complex.SubRealComplexAsWritten, Complexes.SubRealComplexAsWrittenDiffers | Complexes.Complex.SubRealComplex |
| MathLib/MathLib/complex/Complex.cs:120-123 | `i - z` keeps `z.Real` instead of negating it | `i - 1` gives `1 + i` | `(-Re, 1 - Im)` | high, not executed | Complexes.Complex.SubImagComplexAsWritten, Complexes.SubImagComplexAsWrittenDiffers | Complexes.Complex.SubImagComplex |
| MathLib/MathLib/geometry/2d/AABB.cs:335-336 | the union assigns `bbA.Max` on both axes, so `Max` never grows | `[(0,0),(1,1)] + [(0,0),(2,2)]` gives `[(0,0),(1,1)]` | `Max` is the componentwise max of the two maxima | high, not executed | Boxes.UnionAsWritten, Boxes.UnionAsWrittenLosesMaximum | Boxes.Union, Boxes.UnionIsSmallest, Boxes.AABB.Unite |
| MathLib/MathLib/geometry/2d/AABB.cs:296 | `Scale(Vec2)` calls `Inflate` | `Scale((2,2))` on `[(1,1),(3,3)]` gives `[(-1,-1),(5,5)]` | the same as `Scale(x, y)`: `[(2,2),(6,6)]` | medium, not executed | Boxes.ScaledByAsWritten, Boxes.ScaleByVectorInflates | Boxes.ScaledBy, Boxes.ScaledByMultipliesSize, Boxes.AABB.ScaleBy |
| MathLib/MathLib/utils/UtilsPointF.cs:21-35 | the projection parameter divides by the segment's squared length | `P = (1,0)`, `A = B = (0,0)` gives NaN instead of 1 | a zero-length segment gives the squared distance to `A` | medium, not executed | UtilsPointF.SegmentDistanceSquaredAsWritten, UtilsPointF.DegenerateSegmentGivesNaN | UtilsPointF.SegmentDistanceSquared, UtilsPointF.SegmentDistanceSquaredIsMinimal, UtilsPointF.SegmentDistanceSquaredIsAttained |
