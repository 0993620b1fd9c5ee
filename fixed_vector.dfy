/** `Vector<T, N>(pub [T; N])` of src/utils/vector.rs: the same vector API as the
    const-generic model, but the `*_assign` operators overwrite the components of the
    backing array one index at a time, `scale`, `divide` and `normalize` fill a result
    array in a loop, `length_squared` squares `length`, and `partial_cmp` folds over an
    `Option<Ordering>` accumulator. `dot`, `near_zero`, `cross`, the binary operators,
    `eq` and `Default` are written exactly as in the const-generic file and share its
    definitions. */
module FixedVector {
  import opened Prelude
  import opened VectorConstGenerics

  /** A vector that owns its component array, updated in place. */
  class Vector {
    const items: array<real>

    constructor (elements: seq<real>)
      ensures fresh(items) && items[..] == elements
    {
      items := new real[|elements|](i requires 0 <= i < |elements| => elements[i]);
    }

    /** `Default`: every component zero. */
    constructor Default(n: nat)
      ensures fresh(items) && items[..] == Zero(n)
    {
      items := new real[n](_ => 0.0);
    }

    /** `add_assign`: `*item = *item + other[i]` for each index in turn. */
    method AddAssign(other: seq<real>)
      requires |other| == items.Length
      modifies items
      ensures items[..] == Plus(old(items[..]), other)
    {
      for i := 0 to items.Length
        invariant forall k :: 0 <= k < i ==> items[k] == old(items[k]) + other[k]
        invariant forall k :: i <= k < items.Length ==> items[k] == old(items[k])
      {
        items[i] := items[i] + other[i];
      }
    }

    /** `sub_assign`: `self[i] = self[i] - other[i]` for `i in 0..N`. */
    method SubAssign(other: seq<real>)
      requires |other| == items.Length
      modifies items
      ensures items[..] == Minus(old(items[..]), other)
    {
      for i := 0 to items.Length
        invariant forall k :: 0 <= k < i ==> items[k] == old(items[k]) - other[k]
        invariant forall k :: i <= k < items.Length ==> items[k] == old(items[k])
      {
        items[i] := items[i] - other[i];
      }
    }

    /** `mul_assign`: `self[i] = self[i] * other[i]` for `i in 0..N`. */
    method MulAssign(other: seq<real>)
      requires |other| == items.Length
      modifies items
      ensures items[..] == Times(old(items[..]), other)
    {
      for i := 0 to items.Length
        invariant forall k :: 0 <= k < i ==> items[k] == old(items[k]) * other[k]
        invariant forall k :: i <= k < items.Length ==> items[k] == old(items[k])
      {
        items[i] := items[i] * other[i];
      }
      assert items[..] == Times(old(items[..]), other) by {
        forall k | 0 <= k < items.Length
          ensures items[..][k] == Times(old(items[..]), other)[k]
        {
        }
      }
    }

    /** `div_assign`: `self[i] = self[i] / other[i]` for `i in 0..N`. */
    method DivAssign(other: seq<real>)
      requires |other| == items.Length && NonZero(other)
      modifies items
      ensures items[..] == Quotient(old(items[..]), other)
    {
      for i := 0 to items.Length
        invariant forall k :: 0 <= k < i ==> items[k] == old(items[k]) / other[k]
        invariant forall k :: i <= k < items.Length ==> items[k] == old(items[k])
      {
        items[i] := items[i] / other[i];
      }
    }
  }

  /** `scale`: a result array filled with `self[i] * scalar`. */
  method ScaleInto(v: seq<real>, s: real) returns (r: seq<real>)
    ensures r == Scale(v, s)
  {
    var result := new real[|v|](_ => 0.0);
    for i := 0 to |v|
      invariant forall k :: 0 <= k < i ==> result[k] == v[k] * s
    {
      result[i] := v[i] * s;
    }
    r := result[..];
    assert r == Scale(v, s) by {
      forall k | 0 <= k < |v| ensures r[k] == Scale(v, s)[k] { }
    }
  }

  /** `divide`: a result array filled with `self[i] / scalar`. */
  method DivideInto(v: seq<real>, s: real) returns (r: seq<real>)
    requires s != 0.0
    ensures r == Divide(v, s)
  {
    var result := new real[|v|](_ => 0.0);
    for i := 0 to |v|
      invariant forall k :: 0 <= k < i ==> result[k] == v[k] / s
    {
      result[i] := v[i] / s;
    }
    r := result[..];
  }

  /** `normalize`: a result array filled with `self[i] / length`. */
  method NormalizeInto(v: seq<real>, sqrt: real -> real) returns (r: seq<real>)
    requires IsSqrt(sqrt) && Length(v, sqrt) != 0.0
    ensures r == Normalize(v, sqrt)
    ensures LengthSquared(r) == 1.0
  {
    var len := Length(v, sqrt);
    var result := new real[|v|](_ => 0.0);
    for i := 0 to |v|
      invariant forall k :: 0 <= k < i ==> result[k] == v[k] / len
    {
      result[i] := v[i] / len;
    }
    r := result[..];
    NormalizeIsUnit(v, sqrt);
  }

  /** `length_squared`: here computed as `length() * length()`, which agrees with the
      dot product of the vector with itself. */
  function SquaredLength(v: seq<real>, sqrt: real -> real): (r: real)
    requires IsSqrt(sqrt)
    ensures r == Dot(v, v)
  {
    var x := Length(v, sqrt);
    x * x
  }

  /** One step of the `partial_cmp` fold: a lost accumulator stays lost, otherwise a
      strict difference overrides it. */
  function FoldStep(acc: Option<Ordering>, x: real, y: real): Option<Ordering>
  {
    match acc
    case Some(ord) => if x < y then Some(Less) else if x > y then Some(Greater) else Some(ord)
    case None => None
  }

  /** `fold` of `FoldStep` over the zipped components. */
  function Fold(acc: Option<Ordering>, a: seq<real>, b: seq<real>): Option<Ordering>
    requires |a| == |b|
    decreases |a|
  {
    if |a| == 0 then acc else Fold(FoldStep(acc, a[0], b[0]), a[1..], b[1..])
  }

  /** `partial_cmp`: the fold started from `Some(Equal)`. */
  function PartialCmp(a: seq<real>, b: seq<real>): Option<Ordering>
    requires |a| == |b|
  {
    Fold(Some(Equal), a, b)
  }

  /** From a live accumulator the plain fold computes what the `try_fold` of the
      const-generic file computes. */
  lemma {:induction false} FoldAgreesWithTryFold(o: Ordering, a: seq<real>, b: seq<real>)
    requires |a| == |b|
    ensures Fold(Some(o), a, b) == TryFold(o, a, b)
    decreases |a|
  {
    if |a| > 0 {
      FoldAgreesWithTryFold(CompareStep(o, a[0], b[0]).value, a[1..], b[1..]);
    }
  }

  /** The two `partial_cmp` implementations agree, so this one never returns `None`,
      returns `Equal` exactly on equal vectors and is decided by the last difference. */
  lemma PartialCmpAgrees(a: seq<real>, b: seq<real>)
    requires |a| == |b|
    ensures PartialCmp(a, b) == VectorConstGenerics.PartialCmp(a, b)
    ensures PartialCmp(a, b).Some?
    ensures PartialCmp(a, b) == Some(Equal) <==> a == b
    ensures forall k :: LastDifferenceAt(a, b, k) ==>
      PartialCmp(a, b) == Some(if a[k] < b[k] then Less else Greater)
  {
    FoldAgreesWithTryFold(Equal, a, b);
    PartialCmpNeverNone(a, b);
    PartialCmpEqual(a, b);
    forall k | LastDifferenceAt(a, b, k)
      ensures PartialCmp(a, b) == Some(if a[k] < b[k] then Less else Greater)
    {
      PartialCmpDecidedByLastDifference(a, b, k);
    }
  }

  /** The `None` branch of the fold is dead weight: once lost, the result stays `None`. */
  lemma {:induction false} FoldFromNone(a: seq<real>, b: seq<real>)
    requires |a| == |b|
    ensures Fold(None, a, b) == None
    decreases |a|
  {
    if |a| > 0 {
      FoldFromNone(a[1..], b[1..]);
    }
  }

  lemma PartialCmpExamples()
    ensures PartialCmp([1.0, 2.0, 3.0], [1.0, 2.0, 4.0]) == Some(Less)
    ensures PartialCmp([2.0, 3.0, 4.0], [1.0, 2.0, 3.0]) == Some(Greater)
  {
    PartialCmpAgrees([1.0, 2.0, 3.0], [1.0, 2.0, 4.0]);
    PartialCmpAgrees([2.0, 3.0, 4.0], [1.0, 2.0, 3.0]);
    VectorConstGenerics.PartialCmpExamples();
  }

  /** `add_assign` on the running example of the source's tests. */
  method AddAssignExample() returns (r: seq<real>)
    ensures r == [5.0, 7.0, 9.0]
  {
    var v := new Vector([1.0, 2.0, 3.0]);
    v.AddAssign([4.0, 5.0, 6.0]);
    r := v.items[..];
  }
}
