/** The behaviour every fixed-length vector shares (the C# base class `VecBase`).
    A vector is its component array `m_v`; the concrete vector classes in module
    `Vectors` pass their array to the methods here. The functions on sequences
    state what the methods compute. */
module VecBase {
  import opened Floats
  import opened Errors
  import UtilsFloat

  // ---------------------------------------------------------------------------
  // Component values

  predicate AllFinite(s: seq<Float>) {
    forall i :: 0 <= i < |s| ==> IsFinite(s[i])
  }

  predicate AnyNaN(s: seq<Float>) {
    exists i :: 0 <= i < |s| && IsNaN(s[i])
  }

  predicate AnyInfinity(s: seq<Float>) {
    exists i :: 0 <= i < |s| && IsInfinity(s[i])
  }

  predicate AnyNegativeInfinity(s: seq<Float>) {
    exists i :: 0 <= i < |s| && IsNegativeInfinity(s[i])
  }

  predicate AnyPositiveInfinity(s: seq<Float>) {
    exists i :: 0 <= i < |s| && IsPositiveInfinity(s[i])
  }

  /** A vector holds an infinite component exactly when it holds a negative or a positive one. */
  lemma AnyInfinitySplits(s: seq<Float>)
    ensures AnyInfinity(s) <==> AnyNegativeInfinity(s) || AnyPositiveInfinity(s)
  {
  }

  function Zeros(n: nat): (r: seq<Float>)
    ensures |r| == n && forall i :: 0 <= i < n ==> r[i] == Zero
  {
    seq(n, _ => Zero)
  }

  /** Sum of the products of the components, accumulated from index 0 upwards
      starting at 0, in the order of the C# loop. */
  function DotProduct(a: seq<Float>, b: seq<Float>): Float
    requires |a| == |b|
  {
    if |a| == 0 then Zero
    else Add(DotProduct(a[..|a| - 1], b[..|b| - 1]), Mul(a[|a| - 1], b[|b| - 1]))
  }

  /** Sum of the squared component differences, accumulated like `DotProduct`. */
  function SquaredDistance(a: seq<Float>, b: seq<Float>): Float
    requires |a| == |b|
  {
    if |a| == 0 then Zero
    else
      var diff := Sub(a[|a| - 1], b[|b| - 1]);
      Add(SquaredDistance(a[..|a| - 1], b[..|b| - 1]), Mul(diff, diff))
  }

  lemma {:induction false} DotProductSymmetric(a: seq<Float>, b: seq<Float>)
    requires |a| == |b|
    ensures DotProduct(a, b) == DotProduct(b, a)
  {
    if |a| > 0 {
      DotProductSymmetric(a[..|a| - 1], b[..|b| - 1]);
      MulCommutes(a[|a| - 1], b[|b| - 1]);
    }
  }

  /** The dot product of a vector with itself is never negative, and it is not NaN
      when no component is NaN. */
  lemma {:induction false} DotSelfNotNegative(a: seq<Float>)
    ensures !Lt(DotProduct(a, a), Zero)
    ensures !AnyNaN(a) ==> Ge(DotProduct(a, a), Zero)
  {
    if |a| > 0 {
      var p := a[..|a| - 1];
      DotSelfNotNegative(p);
      MulSelfNotNegative(a[|a| - 1]);
      AddNotNegative(DotProduct(p, p), Mul(a[|a| - 1], a[|a| - 1]));
      if !AnyNaN(a) {
        assert !AnyNaN(p) by {
          forall i | 0 <= i < |p| ensures !IsNaN(p[i]) {
            assert p[i] == a[i];
          }
        }
        assert !IsNaN(a[|a| - 1]);
      }
    }
  }

  lemma {:induction false} SquaredDistanceSymmetric(a: seq<Float>, b: seq<Float>)
    requires |a| == |b|
    ensures SquaredDistance(a, b) == SquaredDistance(b, a)
  {
    if |a| > 0 {
      SquaredDistanceSymmetric(a[..|a| - 1], b[..|b| - 1]);
      SubAntisymmetric(a[|a| - 1], b[|b| - 1]);
      MulNeg(Sub(a[|a| - 1], b[|b| - 1]));
    }
  }

  lemma {:induction false} SquaredDistanceNotNegative(a: seq<Float>, b: seq<Float>)
    requires |a| == |b|
    ensures !Lt(SquaredDistance(a, b), Zero)
  {
    if |a| > 0 {
      SquaredDistanceNotNegative(a[..|a| - 1], b[..|b| - 1]);
      var diff := Sub(a[|a| - 1], b[|b| - 1]);
      MulSelfNotNegative(diff);
      AddNotNegative(SquaredDistance(a[..|a| - 1], b[..|b| - 1]), Mul(diff, diff));
    }
  }

  /** A finite vector is at distance zero from itself. */
  lemma {:induction false} SquaredDistanceToSelf(a: seq<Float>)
    requires AllFinite(a)
    ensures SquaredDistance(a, a) == Zero
  {
    if |a| > 0 {
      var p := a[..|a| - 1];
      assert AllFinite(p) by {
        forall i | 0 <= i < |p| ensures IsFinite(p[i]) {
          assert p[i] == a[i];
        }
      }
      SquaredDistanceToSelf(p);
      var x := a[|a| - 1];
      assert IsFinite(x);
      assert Sub(x, x) == Zero;
      assert SquaredDistance(a, a) == Add(SquaredDistance(p, p), Mul(Zero, Zero));
    }
  }

  // ---------------------------------------------------------------------------
  // Componentwise arithmetic, the shape of every concrete vector operator

  function Plus(a: seq<Float>, b: seq<Float>): (r: seq<Float>)
    requires |a| == |b|
    ensures |r| == |a|
  {
    seq(|a|, i requires 0 <= i < |a| => Add(a[i], b[i]))
  }

  function Minus(a: seq<Float>, b: seq<Float>): (r: seq<Float>)
    requires |a| == |b|
    ensures |r| == |a|
  {
    seq(|a|, i requires 0 <= i < |a| => Sub(a[i], b[i]))
  }

  function Negate(a: seq<Float>): (r: seq<Float>)
    ensures |r| == |a|
  {
    seq(|a|, i requires 0 <= i < |a| => Neg(a[i]))
  }

  /** `v * s`. */
  function Times(a: seq<Float>, s: Float): (r: seq<Float>)
    ensures |r| == |a|
  {
    seq(|a|, i requires 0 <= i < |a| => Mul(a[i], s))
  }

  /** `s * v`. */
  function TimesLeft(s: Float, a: seq<Float>): (r: seq<Float>)
    ensures |r| == |a|
  {
    seq(|a|, i requires 0 <= i < |a| => Mul(s, a[i]))
  }

  /** `v / s`. */
  function Over(a: seq<Float>, s: Float): (r: seq<Float>)
    ensures |r| == |a|
  {
    seq(|a|, i requires 0 <= i < |a| => Div(a[i], s))
  }

  /** `(a + b) - b == a` for finite vectors (with an infinite `b` it is NaN). */
  lemma PlusMinusCancel(a: seq<Float>, b: seq<Float>)
    requires |a| == |b| && AllFinite(a) && AllFinite(b)
    ensures Minus(Plus(a, b), b) == a
  {
    var r := Minus(Plus(a, b), b);
    forall i | 0 <= i < |a| ensures r[i] == a[i] {
      assert IsFinite(a[i]) && IsFinite(b[i]);
    }
  }

  /** `v + (-v)` is the zero vector for a finite `v`. */
  lemma PlusNegateIsZero(a: seq<Float>)
    requires AllFinite(a)
    ensures Plus(a, Negate(a)) == Zeros(|a|)
  {
    var r := Plus(a, Negate(a));
    forall i | 0 <= i < |a| ensures r[i] == Zero {
      assert IsFinite(a[i]);
    }
  }

  /** Negating twice gives back the vector, special values included. */
  lemma NegateInvolutive(a: seq<Float>)
    ensures Negate(Negate(a)) == a
  {
    var r := Negate(Negate(a));
    forall i | 0 <= i < |a| ensures r[i] == a[i] {
      NegInvolutive(a[i]);
    }
  }

  /** `s * v == v * s`, special values included. */
  lemma TimesCommutes(s: Float, a: seq<Float>)
    ensures TimesLeft(s, a) == Times(a, s)
  {
    forall i | 0 <= i < |a| ensures TimesLeft(s, a)[i] == Times(a, s)[i] {
      MulCommutes(s, a[i]);
    }
  }

  /** Multiplying by `1 / s` and dividing by `s` agree for a finite non-zero `s`
      (the two ways `Normalize` and `GetNormalized` scale). */
  lemma TimesReciprocalIsOver(a: seq<Float>, s: Float)
    requires AllFinite(a) && IsFinite(s) && s != Zero
    ensures Times(a, Div(One, s)) == Over(a, s)
  {
    forall i | 0 <= i < |a| ensures Times(a, Div(One, s))[i] == Over(a, s)[i] {
      assert IsFinite(a[i]);
    }
  }

  // ---------------------------------------------------------------------------
  // The array operations of VecBase

  /** Every component becomes 0; the length of the array never changes. */
  method SetZero(v: array<Float>)
    modifies v
    ensures v[..] == Zeros(v.Length)
  {
    var k := 0;
    while k < v.Length
      invariant 0 <= k <= v.Length
      invariant forall j :: 0 <= j < k ==> v[j] == Zero
    {
      v[k] := Zero;
      k := k + 1;
    }
  }

  /** The indexer's getter: range-checked read. */
  method Get(v: array<Float>, index: int) returns (r: Result<Float>)
    ensures r.IndexOutOfRange? <==> index < 0 || index >= v.Length
    ensures r.Ok? ==> r.value == v[index]
  {
    if index < 0 || index >= v.Length {
      return IndexOutOfRange;
    }
    return Ok(v[index]);
  }

  /** The indexer's setter: a range-checked write that changes only that slot. */
  method Set(v: array<Float>, index: int, value: Float) returns (r: Result<()>)
    modifies v
    ensures r.IndexOutOfRange? <==> index < 0 || index >= v.Length
    ensures r.Ok? ==> v[..] == old(v[..])[index := value]
    ensures r.IndexOutOfRange? ==> v[..] == old(v[..])
  {
    if index < 0 || index >= v.Length {
      return IndexOutOfRange;
    }
    v[index] := value;
    return Ok(());
  }

  /** Clamps every component into `[l, u]` in place. */
  method Clamp(v: array<Float>, l: Float, u: Float)
    modifies v
    ensures forall i :: 0 <= i < v.Length ==> v[i] == UtilsFloat.Clamp(old(v[i]), l, u)
  {
    var k := 0;
    while k < v.Length
      invariant 0 <= k <= v.Length
      invariant forall j :: 0 <= j < k ==> v[j] == UtilsFloat.Clamp(old(v[j]), l, u)
      invariant forall j :: k <= j < v.Length ==> v[j] == old(v[j])
    {
      v[k] := UtilsFloat.ClampSet(v[k], l, u);
      k := k + 1;
    }
  }

  /** The dot product loop; callers pass vectors of the same arity. */
  method Dot(a: array<Float>, b: array<Float>) returns (dotProd: Float)
    requires a.Length == b.Length
    ensures dotProd == DotProduct(a[..], b[..])
  {
    dotProd := Zero;
    var k := 0;
    while k < a.Length
      invariant 0 <= k <= a.Length
      invariant dotProd == DotProduct(a[..k], b[..k])
    {
      assert a[..k + 1][..k] == a[..k] && b[..k + 1][..k] == b[..k];
      dotProd := Add(dotProd, Mul(a[k], b[k]));
      k := k + 1;
    }
    assert a[..] == a[..k] && b[..] == b[..k];
  }

  /** The squared Euclidean distance loop; callers pass vectors of the same arity. */
  method DistanceSquared(a: array<Float>, b: array<Float>) returns (distSq: Float)
    requires a.Length == b.Length
    ensures distSq == SquaredDistance(a[..], b[..])
  {
    distSq := Zero;
    var k := 0;
    while k < a.Length
      invariant 0 <= k <= a.Length
      invariant distSq == SquaredDistance(a[..k], b[..k])
    {
      assert a[..k + 1][..k] == a[..k] && b[..k + 1][..k] == b[..k];
      var diff := Sub(a[k], b[k]);
      distSq := Add(distSq, Mul(diff, diff));
      k := k + 1;
    }
    assert a[..] == a[..k] && b[..] == b[..k];
  }

  /** The squared length loop: the dot product of the vector with itself. */
  method LengthSquared(v: array<Float>) returns (projComp: Float)
    ensures projComp == DotProduct(v[..], v[..])
  {
    projComp := Zero;
    var k := 0;
    while k < v.Length
      invariant 0 <= k <= v.Length
      invariant projComp == DotProduct(v[..k], v[..k])
    {
      assert v[..k + 1][..k] == v[..k];
      projComp := Add(projComp, Mul(v[k], v[k]));
      k := k + 1;
    }
    assert v[..] == v[..k];
  }

  /** The early-exit search shared by the four `is_any_*` tests. */
  method AnyComponent(vec: array<Float>, test: Float -> bool) returns (found: bool)
    ensures found <==> exists i :: 0 <= i < vec.Length && test(vec[i])
  {
    var k := 0;
    while k < vec.Length
      invariant 0 <= k <= vec.Length
      invariant forall j :: 0 <= j < k ==> !test(vec[j])
    {
      if test(vec[k]) {
        return true;
      }
      k := k + 1;
    }
    return false;
  }

  method IsAnyNaN(vec: array<Float>) returns (r: bool)
    ensures r == AnyNaN(vec[..])
  {
    r := AnyComponent(vec, IsNaN);
    assert forall i :: 0 <= i < vec.Length ==> vec[..][i] == vec[i];
  }

  method IsAnyInfinity(vec: array<Float>) returns (r: bool)
    ensures r == AnyInfinity(vec[..])
  {
    r := AnyComponent(vec, IsInfinity);
    assert forall i :: 0 <= i < vec.Length ==> vec[..][i] == vec[i];
  }

  method IsAnyNegativeInfinity(vec: array<Float>) returns (r: bool)
    ensures r == AnyNegativeInfinity(vec[..])
  {
    r := AnyComponent(vec, IsNegativeInfinity);
    assert forall i :: 0 <= i < vec.Length ==> vec[..][i] == vec[i];
  }

  method IsAnyPositiveInfinity(vec: array<Float>) returns (r: bool)
    ensures r == AnyPositiveInfinity(vec[..])
  {
    r := AnyComponent(vec, IsPositiveInfinity);
    assert forall i :: 0 <= i < vec.Length ==> vec[..][i] == vec[i];
  }

  // ---------------------------------------------------------------------------
  // Text rendering. Number formatting (`float.ToString` with the invariant
  // culture) is the parameter `fmt`; what is modelled is the layout around it.

  datatype PrintFormat = RowVector | ColumnVector

  function Formatted(s: seq<Float>, fmt: Float -> string): (r: seq<string>)
    ensures |r| == |s| && forall i :: 0 <= i < |s| ==> r[i] == fmt(s[i])
  {
    seq(|s|, i requires 0 <= i < |s| => fmt(s[i]))
  }

  /** The parts in order, with `sep` between neighbours. */
  function Join(parts: seq<string>, sep: string): string
  {
    if |parts| == 0 then ""
    else if |parts| == 1 then parts[0]
    else Join(parts[..|parts| - 1], sep) + sep + parts[|parts| - 1]
  }

  /** The row form `[v0, v1, ...]`. */
  function RowText(parts: seq<string>): (r: string)
    ensures |r| >= 2 && r[0] == '[' && r[|r| - 1] == ']'
  {
    "[" + Join(parts, ", ") + "]"
  }

  function Spaces(n: nat): (r: string)
    ensures |r| == n && forall i :: 0 <= i < n ==> r[i] == ' '
  {
    seq(n, _ => ' ')
  }

  /** `string.PadRight`: `s` followed by blanks up to `width` characters. */
  function PadRight(s: string, width: int): (r: string)
    ensures |r| == if |s| >= width then |s| else width
    ensures r[..|s|] == s
    ensures forall i :: |s| <= i < |r| ==> r[i] == ' '
  {
    if |s| >= width then s else s + Spaces(width - |s|)
  }

  function Max(a: int, b: int): int {
    if a >= b then a else b
  }

  /** The length of the longest part, 0 when there is none. */
  function MaxLength(parts: seq<string>): (m: nat)
    ensures forall i :: 0 <= i < |parts| ==> |parts[i]| <= m
    ensures |parts| == 0 ==> m == 0
    ensures |parts| > 0 ==> exists i :: 0 <= i < |parts| && |parts[i]| == m
  {
    if |parts| == 0 then 0
    else
      var init := parts[..|parts| - 1];
      var m := Max(MaxLength(init), |parts[|parts| - 1]|);
      assert forall i :: 0 <= i < |init| ==> init[i] == parts[i];
      m
  }

  /** One line of the column form: the part padded to `width`, in brackets. */
  function ColumnLine(part: string, width: int): string {
    "[" + PadRight(part, width) + "]"
  }

  function ColumnLines(parts: seq<string>): (r: seq<string>)
    ensures |r| == |parts|
  {
    var width := MaxLength(parts);
    seq(|parts|, i requires 0 <= i < |parts| => ColumnLine(parts[i], width))
  }

  /** The column form: one bracketed, padded line per part, joined by newlines. */
  function ColumnText(parts: seq<string>): string {
    Join(ColumnLines(parts), "\n")
  }

  lemma {:induction false} JoinLength(lines: seq<string>, sep: string, width: nat)
    requires |lines| > 0
    requires forall i :: 0 <= i < |lines| ==> |lines[i]| == width
    ensures |Join(lines, sep)| == |lines| * width + (|lines| - 1) * |sep|
  {
    if |lines| > 1 {
      var init := lines[..|lines| - 1];
      assert forall i :: 0 <= i < |init| ==> init[i] == lines[i];
      JoinLength(init, sep, width);
      assert |lines| * width == |init| * width + width;
    }
  }

  lemma {:induction false} JoinLast(lines: seq<string>, sep: string)
    requires |lines| > 0 && |lines[|lines| - 1]| > 0
    ensures |Join(lines, sep)| > 0
    ensures Join(lines, sep)[|Join(lines, sep)| - 1] == lines[|lines| - 1][|lines[|lines| - 1]| - 1]
  {
  }

  /** Every line of the column form is as wide as the longest part plus its two brackets. */
  lemma ColumnLinesWidth(parts: seq<string>)
    ensures forall i :: 0 <= i < |parts| ==> |ColumnLines(parts)[i]| == MaxLength(parts) + 2
  {
    var lines := ColumnLines(parts);
    var w := MaxLength(parts);
    forall i | 0 <= i < |lines| ensures |lines[i]| == w + 2 {
      assert lines[i] == ColumnLine(parts[i], w);
      assert |PadRight(parts[i], w)| == w;
    }
  }

  lemma ColumnLinesEndWithBracket(parts: seq<string>)
    requires |parts| > 0
    ensures var last := ColumnLines(parts)[|parts| - 1]; |last| > 0 && last[|last| - 1] == ']'
  {
    var last := ColumnLines(parts)[|parts| - 1];
    assert last == "[" + PadRight(parts[|parts| - 1], MaxLength(parts)) + "]";
  }

  /** Every line of the column form is as wide as the longest part plus its two
      brackets, so the text has this length, and it ends with a bracket, not a newline. */
  lemma ColumnTextShape(parts: seq<string>)
    requires |parts| > 0
    ensures |ColumnText(parts)| == |parts| * (MaxLength(parts) + 3) - 1
    ensures ColumnText(parts)[|ColumnText(parts)| - 1] == ']'
  {
    ColumnTextLength(parts);
    ColumnTextLast(parts);
  }

  lemma ColumnTextLength(parts: seq<string>)
    requires |parts| > 0
    ensures |ColumnText(parts)| == |parts| * (MaxLength(parts) + 3) - 1
  {
    ColumnLinesWidth(parts);
    JoinedLinesLength(ColumnLines(parts), MaxLength(parts));
  }

  /** Lines of width `w + 2` joined by newlines. */
  lemma JoinedLinesLength(lines: seq<string>, w: nat)
    requires |lines| > 0
    requires forall i :: 0 <= i < |lines| ==> |lines[i]| == w + 2
    ensures |Join(lines, "\n")| == |lines| * (w + 3) - 1
  {
    JoinLength(lines, "\n", w + 2);
    TextLength(|lines|, w, |Join(lines, "\n")|);
  }

  lemma ColumnTextLast(parts: seq<string>)
    requires |parts| > 0
    ensures |ColumnText(parts)| > 0 && ColumnText(parts)[|ColumnText(parts)| - 1] == ']'
  {
    ColumnLinesEndWithBracket(parts);
    JoinLast(ColumnLines(parts), "\n");
  }

  lemma TextLength(n: int, w: int, len: int)
    requires len == n * (w + 2) + (n - 1) * |"\n"|
    ensures len == n * (w + 3) - 1
  {
  }

  /** Joining one more part onto a prefix of `parts`, followed by the separator. */
  lemma JoinPrefixStep(parts: seq<string>, k: nat, sep: string)
    requires k < |parts|
    ensures Join(parts[..k + 1], sep) + sep
         == (if k == 0 then "" else Join(parts[..k], sep) + sep) + parts[k] + sep
  {
    assert parts[..k + 1][..k] == parts[..k];
  }

  lemma ColumnLineAt(parts: seq<string>, k: nat)
    requires k < |parts|
    ensures ColumnLines(parts)[k] == "[" + PadRight(parts[k], MaxLength(parts)) + "]"
  {
  }

  /** The text `column_string` has built after `k` lines: each line followed by a newline. */
  ghost function ColumnPrefix(parts: seq<string>, k: nat): string
    requires k <= |parts|
  {
    if k == 0 then "" else Join(ColumnLines(parts)[..k], "\n") + "\n"
  }

  /** One pass of the `column_string` loop appends the next line and a newline. */
  lemma ColumnStringStep(parts: seq<string>, k: nat)
    requires k < |parts|
    ensures ColumnPrefix(parts, k) + ("[" + PadRight(parts[k], MaxLength(parts)) + "]") + "\n"
         == ColumnPrefix(parts, k + 1)
  {
    JoinPrefixStep(ColumnLines(parts), k, "\n");
    ColumnLineAt(parts, k);
  }

  /** Dropping the final newline of the full prefix leaves the column text. */
  lemma ColumnStringEnd(parts: seq<string>)
    requires |parts| >= 1
    ensures |ColumnPrefix(parts, |parts|)| >= 1
    ensures ColumnPrefix(parts, |parts|)[..|ColumnPrefix(parts, |parts|)| - 1] == ColumnText(parts)
  {
    var lines := ColumnLines(parts);
    assert lines[..|parts|] == lines;
    DropLast(Join(lines, "\n"), '\n');
  }

  lemma DropLast(s: string, c: char)
    ensures (s + [c])[..|s|] == s
  {
  }

  /** `row_string`: `m_v.Last()` needs a component, which every vector has. */
  method RowString(v: array<Float>, fmt: Float -> string) returns (vecStr: string)
    requires v.Length >= 1
    ensures vecStr == RowText(Formatted(v[..], fmt))
  {
    ghost var parts := Formatted(v[..], fmt);
    vecStr := "[";
    var k := 0;
    while k < v.Length - 1
      invariant 0 <= k <= v.Length - 1
      invariant vecStr == "[" + (if k == 0 then "" else Join(parts[..k], ", ") + ", ")
    {
      assert parts[..k + 1][..k] == parts[..k];
      vecStr := vecStr + fmt(v[k]) + ", ";
      k := k + 1;
    }
    assert parts[..k + 1] == parts;
    assert parts[..k + 1][..k] == parts[..k];
    vecStr := vecStr + fmt(v[v.Length - 1]) + "]";
  }

  /** The first pass of `column_string`: every component formatted, and the widest part. */
  method FormatComponents(v: array<Float>, fmt: Float -> string) returns (valStrings: array<string>, maxStrLen: nat)
    ensures fresh(valStrings)
    ensures valStrings[..] == Formatted(v[..], fmt)
    ensures maxStrLen == MaxLength(Formatted(v[..], fmt))
  {
    ghost var parts := Formatted(v[..], fmt);
    maxStrLen := 0;
    valStrings := new string[v.Length];
    var k := 0;
    while k < v.Length
      invariant 0 <= k <= v.Length
      invariant valStrings[..k] == parts[..k]
      invariant maxStrLen == MaxLength(parts[..k])
    {
      valStrings[k] := fmt(v[k]);
      assert parts[..k + 1][..k] == parts[..k];
      maxStrLen := Max(maxStrLen, |valStrings[k]|);
      k := k + 1;
    }
    assert valStrings[..] == valStrings[..k];
    assert parts[..k] == parts;
  }

  /** `column_string`: `Remove(Length - 1)` drops the final newline, so a component is needed. */
  method ColumnString(v: array<Float>, fmt: Float -> string) returns (vecStr: string)
    requires v.Length >= 1
    ensures vecStr == ColumnText(Formatted(v[..], fmt))
  {
    var valStrings, maxStrLen := FormatComponents(v, fmt);
    vecStr := JoinColumnLines(valStrings, maxStrLen);
  }

  /** The second pass of `column_string`: one padded, bracketed line per part. */
  method JoinColumnLines(valStrings: array<string>, maxStrLen: nat) returns (vecStr: string)
    requires valStrings.Length >= 1 && maxStrLen == MaxLength(valStrings[..])
    ensures vecStr == ColumnText(valStrings[..])
  {
    ghost var parts := valStrings[..];
    vecStr := "";
    var k := 0;
    while k < valStrings.Length
      invariant 0 <= k <= valStrings.Length
      invariant vecStr == ColumnPrefix(parts, k)
    {
      var line := "[" + PadRight(valStrings[k], maxStrLen) + "]";
      ColumnStringStep(parts, k);
      vecStr := vecStr + line + "\n";
      k := k + 1;
    }
    ColumnStringEnd(parts);
    vecStr := vecStr[..|vecStr| - 1];
  }

  /** `ToString(PrintFormat)`. */
  method ToString(v: array<Float>, format: PrintFormat, fmt: Float -> string) returns (s: string)
    requires v.Length >= 1
    ensures format.RowVector? ==> s == RowText(Formatted(v[..], fmt))
    ensures format.ColumnVector? ==> s == ColumnText(Formatted(v[..], fmt))
  {
    match format
    case ColumnVector => s := ColumnString(v, fmt);
    case RowVector => s := RowString(v, fmt);
  }
}
