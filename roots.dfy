/** JavaScript's `Math.sqrt`, taken as a parameter of the regression. Lemmas
    that depend on what it computes require `IsSqrt`: it returns the
    non-negative square root of every non-negative argument. */
module Roots {

  /** sqrt(x) is the non-negative square root of x. */
  ghost predicate IsRoot(sqrt: real -> real, x: real)
  {
    0.0 <= sqrt(x) && sqrt(x) * sqrt(x) == x
  }

  /** Proofs obtain a particular root by mentioning `IsRoot(sqrt, x)`, so
      that the quantifier is not instantiated for every root in sight. */
  ghost predicate IsSqrt(sqrt: real -> real)
  {
    forall x: real :: 0.0 <= x ==> IsRoot(sqrt, x)
  }

  function Abs(x: real): real
  {
    if x < 0.0 then -x else x
  }

  /** Equal arguments give equal roots (stated for arguments the prover
      only knows to be equal by arithmetic). */
  lemma SameRoot(sqrt: real -> real, a: real, b: real)
    requires a == b
    ensures sqrt(a) == sqrt(b)
  {
  }

  /** Two non-negative numbers with equal squares are equal. */
  lemma NonNegativeRootUnique(a: real, b: real)
    requires 0.0 <= a && 0.0 <= b && a * a == b * b
    ensures a == b
  {
    assert (a - b) * (a + b) == 0.0;
    if a + b == 0.0 {
    } else {
      assert a - b == 0.0;
    }
  }

  /** The square root of a square is the absolute value. */
  lemma {:induction false} SqrtOfSquare(sqrt: real -> real, a: real)
    requires IsSqrt(sqrt)
    ensures sqrt(a * a) == Abs(a)
  {
    assert 0.0 <= a * a;
    assert IsRoot(sqrt, a * a);
    NonNegativeRootUnique(sqrt(a * a), Abs(a));
  }

  lemma AbsOfProduct(m: real, r: real)
    requires 0.0 < r
    ensures Abs(m * r) == Abs(m) * r
  {
    if m < 0.0 {
      assert m * r < 0.0;
    } else {
      assert 0.0 <= m * r;
    }
  }

  /** The root of (m r)^2 for a positive r is |m| r. */
  lemma SqrtOfScaledSquare(sqrt: real -> real, m: real, r: real, x: real)
    requires IsSqrt(sqrt) && 0.0 < r && x == (m * r) * (m * r)
    ensures sqrt(x) == Abs(m) * r
  {
    var a := m * r;
    SqrtOfSquare(sqrt, a);
    assert x == a * a;
    AbsOfProduct(m, r);
  }

  /** A squared factor leaves the root as its absolute value. */
  lemma SqrtScale(sqrt: real -> real, a: real, x: real)
    requires IsSqrt(sqrt) && 0.0 <= x
    ensures sqrt(a * a * x) == Abs(a) * sqrt(x)
  {
    var s := sqrt(x);
    assert IsRoot(sqrt, x);
    assert 0.0 <= a * a * x;
    assert IsRoot(sqrt, a * a * x);
    assert (Abs(a) * s) * (Abs(a) * s) == a * a * x by {
      assert Abs(a) * Abs(a) == a * a;
    }
    NonNegativeRootUnique(sqrt(a * a * x), Abs(a) * s);
  }

  /** Dividing m^2 d by k and taking the root gives |m| times the root of d / k. */
  lemma RootOfScaledQuotient(sqrt: real -> real, m: real, dy: real, d: real, k: real)
    requires IsSqrt(sqrt) && dy == m * m * d && 0.0 <= d && 0.0 < k
    ensures sqrt(dy / k) == Abs(m) * sqrt(d / k)
  {
    var x := d / k;
    var y := dy / k;
    assert y == m * m * x;
    assert 0.0 <= x;
    SqrtScale(sqrt, m, x);
  }

  /** The root is zero exactly at zero. */
  lemma SqrtZeroIff(sqrt: real -> real, x: real)
    requires IsSqrt(sqrt) && 0.0 <= x
    ensures 0.0 <= sqrt(x)
    ensures sqrt(x) == 0.0 <==> x == 0.0
  {
    assert IsRoot(sqrt, x);
    if x == 0.0 {
      NonNegativeRootUnique(sqrt(x), 0.0);
    }
  }
}
