/** Small shared vocabulary: Rust's Option and Ordering, absolute value,
    an abstract square root, and the extended upper bound used where the
    source starts a search at `INFINITY`. */
module Prelude {

  datatype Option<+T> = None | Some(value: T)

  /** std::cmp::Ordering */
  datatype Ordering = Less | Equal | Greater

  function Abs(x: real): real
  {
    if x < 0.0 then -x else x
  }

  /** `f32::max` and `f32::min` on numbers. */
  function Max(a: real, b: real): real
  {
    if a >= b then a else b
  }

  function Min(a: real, b: real): real
  {
    if a <= b then a else b
  }

  /** The scalar square root (`Float::sqrt`) is not definable exactly here, so every
      member that needs it takes it as a parameter constrained by this predicate. */
  ghost predicate IsSqrt(sqrt: real -> real)
  {
    forall x :: x >= 0.0 ==> sqrt(x) >= 0.0 && sqrt(x) * sqrt(x) == x
  }

  /** An upper bound that may be `FloatSize::INFINITY`. */
  datatype Bound = Infinity | Finite(t: real)
  {
    predicate Admits(x: real)
    {
      Infinity? || x <= t
    }

    /** `x < self`, the bound compared strictly. */
    predicate Exceeds(x: real)
    {
      Infinity? || x < t
    }

    /** `self.min(x)`: the smaller of the bound and `x`, which is always finite. */
    function Cap(x: real): (c: real)
      ensures c <= x && Admits(c)
      ensures c == x || (Finite? && c == t)
    {
      if Infinity? then x else Min(t, x)
    }
  }

  // Nonlinear facts the solver needs spelled out.

  lemma CancelFactor(x: real, n: real)
    requires n != 0.0
    ensures (x * n) / n == x
  {
  }

  lemma ShiftedQuotient(x: real, n: real)
    requires n != 0.0
    ensures (x - n) / n == x / n - 1.0
  {
    assert n / n == 1.0;
    assert (x - n) / n == x / n - n / n;
  }

  /** Multiplying both sides of `a <= b` by `c` keeps the order when `c >= 0` and
      reverses it when `c <= 0`. */
  lemma MultiplyOrder(a: real, b: real, c: real)
    requires a <= b
    ensures c >= 0.0 ==> a * c <= b * c
    ensures c <= 0.0 ==> b * c <= a * c
  {
    if c >= 0.0 {
      ProductNonNegative(b - a, c);
    } else {
      ProductNonNegative(b - a, -c);
    }
  }

  /** Dividing by `d` and multiplying by it again is the identity. */
  lemma UndoReciprocal(x: real, d: real)
    requires d != 0.0
    ensures x * (1.0 / d) * d == x
  {
    var k := 1.0 / d;
    assert k * d == 1.0;
    assert x * k * d == x * (k * d);
  }

  lemma ProductNonNegative(a: real, b: real)
    requires a >= 0.0 && b >= 0.0
    ensures a * b >= 0.0
  {
  }

  /** The non-negative square root of one is one. */
  lemma UnitRoot(x: real)
    requires x >= 0.0 && x * x == 1.0
    ensures x == 1.0
  {
    if x < 1.0 {
      ProductNonNegative(x, 1.0 - x);
      assert false;
    } else if x > 1.0 {
      assert false;
    }
  }

  lemma InverseSquare(x: real)
    requires x != 0.0
    ensures (1.0 / x) * (1.0 / x) * (x * x) == 1.0
  {
    var k := 1.0 / x;
    assert k * x == 1.0;
    assert k * k * (x * x) == (k * x) * (k * x);
  }

  lemma PositiveMultipleKeepsSign(e: real, k: real, d: real)
    requires k > 0.0 && e == k * d
    ensures e < 0.0 <==> d < 0.0
    ensures e == 0.0 <==> d == 0.0
  {
  }
}
