/** `Vector<T, N>` of src/utils/vector_constgenerics.rs with the scalar `T` idealised
    as `real`. A vector is the sequence of its N components; `N` is the length of the
    sequence, so operands of one operator have equal lengths. */
module VectorConstGenerics {
  import opened Prelude

  type Float2 = v: seq<real> | |v| == 2 witness [0.0, 0.0]
  type Float3 = v: seq<real> | |v| == 3 witness [0.0, 0.0, 0.0]

  /** The threshold of `near_zero`, 1e-8. */
  const NEAR_ZERO: real := 0.00000001

  // ---------------------------------------------------------------------------
  // Folds and maps (pure in the source)
  // ---------------------------------------------------------------------------

  /** `dot`: a left fold from `T::default()` that adds `a[i] * b[i]` in index order. */
  function Dot(a: seq<real>, b: seq<real>): real
    requires |a| == |b|
    decreases |a|
  {
    if |a| == 0 then 0.0 else Dot(a[..|a| - 1], b[..|b| - 1]) + a[|a| - 1] * b[|b| - 1]
  }

  /** For three components the fold is the familiar sum of three products. */
  lemma {:induction false} Dot3(a: seq<real>, b: seq<real>)
    requires |a| == |b| == 3
    ensures Dot(a, b) == a[0] * b[0] + a[1] * b[1] + a[2] * b[2]
  {
    var a2, b2, a1, b1 := a[..2], b[..2], a[..1], b[..1];
    assert a2[..1] == a1 && b2[..1] == b1;
    assert a1[..0] == [] && b1[..0] == [];
    assert Dot(a1, b1) == a[0] * b[0];
    assert Dot(a2, b2) == Dot(a1, b1) + a[1] * b[1];
    assert Dot(a, b) == Dot(a2, b2) + a[2] * b[2];
  }

  lemma DotExample()
    ensures Dot([1.0, 2.0, 3.0], [4.0, 5.0, 6.0]) == 32.0
  {
    Dot3([1.0, 2.0, 3.0], [4.0, 5.0, 6.0]);
  }

  lemma {:induction false} DotSymmetric(a: seq<real>, b: seq<real>)
    requires |a| == |b|
    ensures Dot(a, b) == Dot(b, a)
    decreases |a|
  {
    if |a| > 0 {
      DotSymmetric(a[..|a| - 1], b[..|b| - 1]);
    }
  }

  lemma {:induction false} DotSelfNonNegative(a: seq<real>)
    ensures Dot(a, a) >= 0.0
    decreases |a|
  {
    if |a| > 0 {
      DotSelfNonNegative(a[..|a| - 1]);
    }
  }

  /** `length_squared`: the dot product of the vector with itself. */
  function LengthSquared(v: seq<real>): (r: real)
    ensures r >= 0.0
  {
    DotSelfNonNegative(v);
    Dot(v, v)
  }

  /** `length`: the square root of `length_squared`. */
  function Length(v: seq<real>, sqrt: real -> real): (r: real)
    requires IsSqrt(sqrt)
    ensures r >= 0.0 && r * r == LengthSquared(v)
  {
    sqrt(LengthSquared(v))
  }

  /** `scale`: every component multiplied by the scalar. */
  function Scale(v: seq<real>, s: real): (r: seq<real>)
  {
    seq(|v|, i requires 0 <= i < |v| => v[i] * s)
  }

  /** `divide`: every component divided by the scalar. */
  function Divide(v: seq<real>, s: real): (r: seq<real>)
    requires s != 0.0
  {
    seq(|v|, i requires 0 <= i < |v| => v[i] / s)
  }

  /** `normalize`: every component divided by the length. The source divides the zero
      vector by zero and gets NaN components; here the zero-length case returns the
      vector unchanged. */
  function Normalize(v: seq<real>, sqrt: real -> real): (r: seq<real>)
    requires IsSqrt(sqrt)
    ensures |r| == |v|
  {
    var len := Length(v, sqrt);
    if len == 0.0 then v else seq(|v|, i requires 0 <= i < |v| => v[i] / len)
  }

  lemma {:induction false} DivideUndoesScale(v: seq<real>, s: real)
    requires s != 0.0
    ensures Divide(Scale(v, s), s) == v
  {
    var d := Divide(Scale(v, s), s);
    forall i | 0 <= i < |v| ensures d[i] == v[i] {
      calc {
        d[i];
        (v[i] * s) / s;
        v[i];
      }
    }
  }

  lemma {:induction false} DotScale(a: seq<real>, b: seq<real>, s: real)
    requires |a| == |b|
    ensures Dot(Scale(a, s), b) == s * Dot(a, b)
    decreases |a|
  {
    if |a| > 0 {
      var n := |a| - 1;
      assert Scale(a, s)[..n] == Scale(a[..n], s) by {
        forall i | 0 <= i < n ensures Scale(a, s)[..n][i] == Scale(a[..n], s)[i] { }
      }
      DotScale(a[..n], b[..n], s);
    }
  }

  /** Scaling the right operand scales the dot product too. */
  lemma {:induction false} DotScaleRight(w: seq<real>, v: seq<real>, s: real)
    requires |w| == |v|
    ensures Dot(w, Scale(v, s)) == s * Dot(w, v)
  {
    DotSymmetric(w, Scale(v, s));
    DotScale(v, w, s);
    DotSymmetric(v, w);
  }

  /** Negating the right operand negates the dot product. */
  lemma {:induction false} DotNegated(w: seq<real>, v: seq<real>)
    requires |w| == |v|
    ensures Dot(w, Negated(v)) == -Dot(w, v)
  {
    assert Negated(v) == Scale(v, -1.0);
    DotScaleRight(w, v, -1.0);
  }

  /** The dot product of a sum with itself expands binomially. */
  lemma {:induction false} DotSumSelf(u: seq<real>, w: seq<real>)
    requires |u| == |w|
    ensures Dot(Plus(u, w), Plus(u, w)) == Dot(u, u) + 2.0 * Dot(u, w) + Dot(w, w)
  {
    var p := Plus(u, w);
    DotPlus(u, w, p);
    DotSymmetric(u, p);
    DotPlus(u, w, u);
    DotSymmetric(w, p);
    DotPlus(u, w, w);
    DotSymmetric(w, u);
  }

  /** The dot product of `t·v` with itself is `t·(t·(v·v))`. */
  lemma {:induction false} DotScaledSelf(v: seq<real>, t: real)
    ensures Dot(Scale(v, t), Scale(v, t)) == t * (t * Dot(v, v))
  {
    DotScale(v, Scale(v, t), t);
    DotScaleRight(v, v, t);
  }

  /** The squared length of `u + t·v` expands as a quadratic in `t`. (Stated with `Dot`
      rather than `LengthSquared`: the non-negativity that comes with the latter sends
      the solver's nonlinear arithmetic astray.) */
  lemma {:induction false} DotAffineSelf(u: seq<real>, v: seq<real>, t: real)
    requires |u| == |v|
    ensures Dot(Plus(u, Scale(v, t)), Plus(u, Scale(v, t)))
         == Dot(u, u) + 2.0 * t * Dot(u, v) + t * (t * Dot(v, v))
  {
    DotSumSelf(u, Scale(v, t));
    DotScaledSelf(v, t);
    DotScaleRight(u, v, t);
  }

  /** `length_squared` of a scaled vector picks up the square of the scalar. */
  lemma {:induction false} LengthSquaredScale(v: seq<real>, k: real)
    ensures LengthSquared(Scale(v, k)) == k * k * LengthSquared(v)
  {
    DotScale(v, Scale(v, k), k);
    DotScaleRight(v, v, k);
  }

  /** Normalizing a vector of non-zero length is scaling by `1 / length`, a positive
      number. */
  lemma {:induction false} NormalizeIsScale(v: seq<real>, sqrt: real -> real)
    requires IsSqrt(sqrt) && Length(v, sqrt) != 0.0
    ensures Length(v, sqrt) > 0.0
    ensures Normalize(v, sqrt) == Scale(v, 1.0 / Length(v, sqrt))
  {
    var len := Length(v, sqrt);
    var n := Normalize(v, sqrt);
    forall i | 0 <= i < |v| ensures n[i] == Scale(v, 1.0 / len)[i] {
      assert v[i] / len == v[i] * (1.0 / len);
    }
  }

  /** Scaling by a positive number keeps the sign of every dot product. */
  lemma {:induction false} DotPositiveScaleSign(w: seq<real>, v: seq<real>, k: real)
    requires |w| == |v| && k > 0.0
    ensures Dot(w, Scale(v, k)) < 0.0 <==> Dot(w, v) < 0.0
    ensures Dot(w, Scale(v, k)) == 0.0 <==> Dot(w, v) == 0.0
  {
    var e, d := Dot(w, Scale(v, k)), Dot(w, v);
    DotScaleRight(w, v, k);
    assert e == k * d;
    PositiveMultipleKeepsSign(e, k, d);
  }

  /** A vector of non-zero length normalizes to unit length. */
  lemma {:induction false} NormalizeIsUnit(v: seq<real>, sqrt: real -> real)
    requires IsSqrt(sqrt) && Length(v, sqrt) != 0.0
    ensures LengthSquared(Normalize(v, sqrt)) == 1.0
  {
    NormalizeIsScale(v, sqrt);
    var len := Length(v, sqrt);
    LengthSquaredScale(v, 1.0 / len);
    InverseSquare(len);
  }

  /** The dot product of any vector with `normalize(v)` has the sign of its dot product
      with `v`. */
  lemma {:induction false} NormalizeKeepsDotSign(w: seq<real>, v: seq<real>, sqrt: real -> real)
    requires IsSqrt(sqrt) && |w| == |v|
    ensures Dot(w, Normalize(v, sqrt)) < 0.0 <==> Dot(w, v) < 0.0
    ensures Dot(w, Normalize(v, sqrt)) == 0.0 <==> Dot(w, v) == 0.0
  {
    if Length(v, sqrt) != 0.0 {
      NormalizeIsScale(v, sqrt);
      DotPositiveScaleSign(w, v, 1.0 / Length(v, sqrt));
    }
  }

  /** `near_zero`: `all` over the components of `|x| < 1e-8`. */
  function NearZero(v: seq<real>): (r: bool)
    ensures r <==> forall i :: 0 <= i < |v| ==> Abs(v[i]) < NEAR_ZERO
  {
    |v| == 0 || (Abs(v[0]) < NEAR_ZERO && NearZero(v[1..]))
  }

  lemma NearZeroExample()
    ensures NearZero([0.000000001, 0.000000001, 0.000000001])
  {
  }

  /** `cross`: the determinant formula for three-component vectors. */
  function Cross(a: Float3, b: Float3): Float3
  {
    [a[1] * b[2] - a[2] * b[1],
     a[2] * b[0] - a[0] * b[2],
     a[0] * b[1] - a[1] * b[0]]
  }

  /** The cross product is orthogonal to both factors. */
  lemma {:induction false} CrossOrthogonal(a: Float3, b: Float3)
    ensures Dot(Cross(a, b), a) == 0.0 && Dot(Cross(a, b), b) == 0.0
  {
    var c := Cross(a, b);
    Dot3(c, a);
    Dot3(c, b);
    calc {
      Dot(c, a);
      (a[1] * b[2] - a[2] * b[1]) * a[0] + (a[2] * b[0] - a[0] * b[2]) * a[1]
        + (a[0] * b[1] - a[1] * b[0]) * a[2];
      a[0] * a[1] * b[2] - a[0] * a[2] * b[1] + a[1] * a[2] * b[0] - a[0] * a[1] * b[2]
        + a[0] * a[2] * b[1] - a[1] * a[2] * b[0];
      0.0;
    }
    calc {
      Dot(c, b);
      (a[1] * b[2] - a[2] * b[1]) * b[0] + (a[2] * b[0] - a[0] * b[2]) * b[1]
        + (a[0] * b[1] - a[1] * b[0]) * b[2];
      a[1] * b[0] * b[2] - a[2] * b[0] * b[1] + a[2] * b[0] * b[1] - a[0] * b[1] * b[2]
        + a[0] * b[1] * b[2] - a[1] * b[0] * b[2];
      0.0;
    }
  }

  lemma CrossUnitAxes()
    ensures Cross([1.0, 0.0, 0.0], [0.0, 1.0, 0.0]) == [0.0, 0.0, 1.0]
  {
  }

  // ---------------------------------------------------------------------------
  // Componentwise operators: the values `a op b` computes (used by pure code)
  // ---------------------------------------------------------------------------

  function Plus(a: seq<real>, b: seq<real>): seq<real>
    requires |a| == |b|
  {
    seq(|a|, i requires 0 <= i < |a| => a[i] + b[i])
  }

  function Minus(a: seq<real>, b: seq<real>): seq<real>
    requires |a| == |b|
  {
    seq(|a|, i requires 0 <= i < |a| => a[i] - b[i])
  }

  function Times(a: seq<real>, b: seq<real>): seq<real>
    requires |a| == |b|
  {
    seq(|a|, i requires 0 <= i < |a| => a[i] * b[i])
  }

  /** True when every component is non-zero, so that dividing by it is defined. */
  predicate NonZero(b: seq<real>)
  {
    forall i :: 0 <= i < |b| ==> b[i] != 0.0
  }

  function Quotient(a: seq<real>, b: seq<real>): seq<real>
    requires |a| == |b| && NonZero(b)
  {
    seq(|a|, i requires 0 <= i < |a| => a[i] / b[i])
  }

  function Negated(a: seq<real>): seq<real>
  {
    seq(|a|, i requires 0 <= i < |a| => -a[i])
  }

  /** `Default`: every component `T::default()`, that is zero. */
  function Zero(n: nat): seq<real>
  {
    seq(n, _ => 0.0)
  }

  /** The default vector is the identity of `+` and annihilates `dot`. */
  lemma {:induction false} ZeroIsNeutral(v: seq<real>)
    ensures Plus(v, Zero(|v|)) == v
    ensures Dot(v, Zero(|v|)) == 0.0
    decreases |v|
  {
    if |v| > 0 {
      var n := |v| - 1;
      assert Zero(|v|)[..n] == Zero(n);
      ZeroIsNeutral(v[..n]);
    }
  }

  /** `-` undoes `+`, and `/` undoes `*` by a vector with no zero component. */
  lemma {:induction false} OperatorInverses(a: seq<real>, b: seq<real>)
    requires |a| == |b|
    ensures Minus(Plus(a, b), b) == a
    ensures NonZero(b) ==> Quotient(Times(a, b), b) == a
    ensures Negated(Negated(a)) == a
  {
    var m := Minus(Plus(a, b), b);
    assert forall i :: 0 <= i < |a| ==> m[i] == a[i];
    if NonZero(b) {
      var q := Quotient(Times(a, b), b);
      forall i | 0 <= i < |a| ensures q[i] == a[i] {
        assert q[i] == (a[i] * b[i]) / b[i];
      }
    }
  }

  /** Swapping the factors of `cross` negates it. */
  lemma CrossAntiCommutes(a: Float3, b: Float3)
    ensures Cross(b, a) == Negated(Cross(a, b))
  {
  }

  /** The dot product distributes over `+`. */
  lemma {:induction false} DotPlus(a: seq<real>, b: seq<real>, c: seq<real>)
    requires |a| == |b| == |c|
    ensures Dot(Plus(a, b), c) == Dot(a, c) + Dot(b, c)
    decreases |a|
  {
    if |a| > 0 {
      var n := |a| - 1;
      assert Plus(a, b)[..n] == Plus(a[..n], b[..n]);
      DotPlus(a[..n], b[..n], c[..n]);
    }
  }

  // ---------------------------------------------------------------------------
  // The operator impls: each fills a `[T::default(); N]` array in a `for` loop
  // ---------------------------------------------------------------------------

  method Add(a: seq<real>, b: seq<real>) returns (r: seq<real>)
    requires |a| == |b|
    ensures |r| == |a| && forall i :: 0 <= i < |a| ==> r[i] == a[i] + b[i]
  {
    var result := new real[|a|](_ => 0.0);
    for i := 0 to |a|
      invariant forall k :: 0 <= k < i ==> result[k] == a[k] + b[k]
    {
      result[i] := a[i] + b[i];
    }
    r := result[..];
  }

  method Sub(a: seq<real>, b: seq<real>) returns (r: seq<real>)
    requires |a| == |b|
    ensures |r| == |a| && forall i :: 0 <= i < |a| ==> r[i] == a[i] - b[i]
  {
    var result := new real[|a|](_ => 0.0);
    for i := 0 to |a|
      invariant forall k :: 0 <= k < i ==> result[k] == a[k] - b[k]
    {
      result[i] := a[i] - b[i];
    }
    r := result[..];
  }

  method Mul(a: seq<real>, b: seq<real>) returns (r: seq<real>)
    requires |a| == |b|
    ensures |r| == |a| && forall i :: 0 <= i < |a| ==> r[i] == a[i] * b[i]
  {
    var result := new real[|a|](_ => 0.0);
    for i := 0 to |a|
      invariant forall k :: 0 <= k < i ==> result[k] == a[k] * b[k]
    {
      result[i] := a[i] * b[i];
    }
    r := result[..];
  }

  method Div(a: seq<real>, b: seq<real>) returns (r: seq<real>)
    requires |a| == |b| && NonZero(b)
    ensures |r| == |a| && forall i :: 0 <= i < |a| ==> r[i] == a[i] / b[i]
  {
    var result := new real[|a|](_ => 0.0);
    for i := 0 to |a|
      invariant forall k :: 0 <= k < i ==> result[k] == a[k] / b[k]
    {
      result[i] := a[i] / b[i];
    }
    r := result[..];
  }

  method Neg(a: seq<real>) returns (r: seq<real>)
    ensures |r| == |a| && forall i :: 0 <= i < |a| ==> r[i] == -a[i]
  {
    var result := new real[|a|](_ => 0.0);
    for i := 0 to |a|
      invariant forall k :: 0 <= k < i ==> result[k] == -a[k]
    {
      result[i] := -a[i];
    }
    r := result[..];
  }

  /** A variable holding a vector. Each `x op= y` overwrites the whole value with
      `x op y`, computed from the old value of `x`. */
  class Vector {
    var elements: seq<real>

    constructor (elements: seq<real>)
      ensures this.elements == elements
    {
      this.elements := elements;
    }

    method AddAssign(other: seq<real>)
      requires |other| == |elements|
      modifies this
      ensures elements == Plus(old(elements), other)
    {
      var r := Add(elements, other);
      assert r == Plus(elements, other) by {
        forall i | 0 <= i < |r| ensures r[i] == Plus(elements, other)[i] { }
      }
      elements := r;
    }

    method SubAssign(other: seq<real>)
      requires |other| == |elements|
      modifies this
      ensures elements == Minus(old(elements), other)
    {
      var r := Sub(elements, other);
      assert r == Minus(elements, other) by {
        forall i | 0 <= i < |r| ensures r[i] == Minus(elements, other)[i] { }
      }
      elements := r;
    }

    method MulAssign(other: seq<real>)
      requires |other| == |elements|
      modifies this
      ensures elements == Times(old(elements), other)
    {
      var r := Mul(elements, other);
      assert r == Times(elements, other) by {
        forall i | 0 <= i < |r| ensures r[i] == Times(elements, other)[i] { }
      }
      elements := r;
    }

    method DivAssign(other: seq<real>)
      requires |other| == |elements| && NonZero(other)
      modifies this
      ensures elements == Quotient(old(elements), other)
    {
      var r := Div(elements, other);
      assert r == Quotient(elements, other) by {
        forall i | 0 <= i < |r| ensures r[i] == Quotient(elements, other)[i] { }
      }
      elements := r;
    }
  }

  // ---------------------------------------------------------------------------
  // PartialEq and PartialOrd
  // ---------------------------------------------------------------------------

  /** `eq`: `all` over the zipped components of `a == b`. */
  function Eq(a: seq<real>, b: seq<real>): (r: bool)
    requires |a| == |b|
    ensures r <==> a == b
  {
    |a| == 0 || (a[0] == b[0] && Eq(a[1..], b[1..]))
  }

  /** One step of the `partial_cmp` fold: a strict difference overrides the accumulator. */
  function CompareStep(acc: Ordering, x: real, y: real): Option<Ordering>
  {
    if x < y then Some(Less) else if x > y then Some(Greater) else Some(acc)
  }

  /** `try_fold` of `CompareStep`, stopping at the first `None`. */
  function TryFold(acc: Ordering, a: seq<real>, b: seq<real>): Option<Ordering>
    requires |a| == |b|
    decreases |a|
  {
    if |a| == 0 then Some(acc)
    else match CompareStep(acc, a[0], b[0])
      case None => None
      case Some(o) => TryFold(o, a[1..], b[1..])
  }

  /** `partial_cmp`: the fold started from `Equal`. */
  function PartialCmp(a: seq<real>, b: seq<real>): Option<Ordering>
    requires |a| == |b|
  {
    TryFold(Equal, a, b)
  }

  /** `k` is the last index at which `a` and `b` differ. */
  ghost predicate LastDifferenceAt(a: seq<real>, b: seq<real>, k: int)
    requires |a| == |b|
  {
    0 <= k < |a| && a[k] != b[k] && forall j :: k < j < |a| ==> a[j] == b[j]
  }

  lemma {:induction false} TryFoldLastDifference(acc: Ordering, a: seq<real>, b: seq<real>)
    requires |a| == |b|
    ensures (forall j :: 0 <= j < |a| ==> a[j] == b[j]) ==> TryFold(acc, a, b) == Some(acc)
    ensures forall k :: LastDifferenceAt(a, b, k) ==>
      TryFold(acc, a, b) == Some(if a[k] < b[k] then Less else Greater)
    decreases |a|
  {
    if |a| > 0 {
      var o := CompareStep(acc, a[0], b[0]).value;
      TryFoldLastDifference(o, a[1..], b[1..]);
      forall k | LastDifferenceAt(a, b, k)
        ensures TryFold(acc, a, b) == Some(if a[k] < b[k] then Less else Greater)
      {
        if k > 0 {
          assert LastDifferenceAt(a[1..], b[1..], k - 1);
        } else {
          assert forall j :: 0 <= j < |a| - 1 ==> a[1..][j] == b[1..][j];
        }
      }
      if forall j :: 0 <= j < |a| ==> a[j] == b[j] {
        assert forall j :: 0 <= j < |a| - 1 ==> a[1..][j] == b[1..][j];
      }
    }
  }

  /** `partial_cmp` is decided by the last index at which the components differ. */
  lemma PartialCmpDecidedByLastDifference(a: seq<real>, b: seq<real>, k: int)
    requires |a| == |b| && LastDifferenceAt(a, b, k)
    ensures PartialCmp(a, b) == Some(if a[k] < b[k] then Less else Greater)
  {
    TryFoldLastDifference(Equal, a, b);
  }

  /** `partial_cmp` is `Equal` exactly when every component agrees. */
  lemma PartialCmpEqual(a: seq<real>, b: seq<real>)
    requires |a| == |b|
    ensures PartialCmp(a, b) == Some(Equal) <==> a == b
  {
    TryFoldLastDifference(Equal, a, b);
    if a != b {
      var k :| 0 <= k < |a| && a[k] != b[k];
      LastDifferenceExists(a, b, k);
    }
  }

  /** Whenever two vectors differ there is a last index at which they differ. */
  lemma {:induction false} LastDifferenceExists(a: seq<real>, b: seq<real>, k: int)
    requires |a| == |b| && 0 <= k < |a| && a[k] != b[k]
    ensures exists m :: LastDifferenceAt(a, b, m)
    decreases |a| - k
  {
    if !LastDifferenceAt(a, b, k) {
      var j :| k < j < |a| && a[j] != b[j];
      LastDifferenceExists(a, b, j);
    }
  }

  /** `partial_cmp` never returns `None`. */
  lemma PartialCmpNeverNone(a: seq<real>, b: seq<real>)
    requires |a| == |b|
    ensures PartialCmp(a, b).Some?
  {
    TryFoldLastDifference(Equal, a, b);
    if a != b {
      var k :| 0 <= k < |a| && a[k] != b[k];
      LastDifferenceExists(a, b, k);
    }
  }

  lemma PartialCmpExamples()
    ensures PartialCmp([1.0, 2.0, 3.0], [1.0, 2.0, 4.0]) == Some(Less)
    ensures PartialCmp([2.0, 3.0, 4.0], [1.0, 2.0, 3.0]) == Some(Greater)
    ensures PartialCmp([1.0, 2.0, 3.0], [4.0, 5.0, 6.0]) == Some(Less)
  {
    PartialCmpDecidedByLastDifference([1.0, 2.0, 3.0], [1.0, 2.0, 4.0], 2);
    PartialCmpDecidedByLastDifference([2.0, 3.0, 4.0], [1.0, 2.0, 3.0], 2);
    PartialCmpDecidedByLastDifference([1.0, 2.0, 3.0], [4.0, 5.0, 6.0], 2);
  }
}
