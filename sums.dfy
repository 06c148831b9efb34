/** Columns of reals and the sums the least-squares fit of calibration.js
    accumulates over them: plain sums, sums of squares, squared deviations
    from a centre, and sums that compound with a per-step multiplier. */
module Sums {

  /** x squared. Facts about a square are stated about `Square(x)` rather
      than about the product itself. */
  function Square(x: real): (r: real)
    ensures 0.0 <= r
  {
    x * x
  }

  /** The sum of the first k entries. */
  function SumTo(xs: seq<real>, k: nat): real
    requires k <= |xs|
  {
    if k == 0 then 0.0 else SumTo(xs, k - 1) + xs[k - 1]
  }

  function Sum(xs: seq<real>): real
  {
    SumTo(xs, |xs|)
  }

  function Mean(xs: seq<real>): real
    requires |xs| > 0
  {
    Sum(xs) / (|xs| as real)
  }

  function Squares(xs: seq<real>): (r: seq<real>)
    ensures |r| == |xs|
  {
    seq(|xs|, j requires 0 <= j < |xs| => Square(xs[j]))
  }

  /** The squared deviations of the entries from c. */
  function Deviations(xs: seq<real>, c: real): (r: seq<real>)
    ensures |r| == |xs|
  {
    seq(|xs|, j requires 0 <= j < |xs| => Square(xs[j] - c))
  }

  function Scaled(xs: seq<real>, m: real): (r: seq<real>)
    ensures |r| == |xs|
  {
    seq(|xs|, j requires 0 <= j < |xs| => m * xs[j])
  }

  function Products(xs: seq<real>, ys: seq<real>): (r: seq<real>)
    requires |xs| == |ys|
    ensures |r| == |xs|
  {
    seq(|xs|, j requires 0 <= j < |xs| => xs[j] * ys[j])
  }

  /** The compounded sum after k steps: s_k = (s_{k-1} + xs[k-1]) * ws[k-1]. */
  function CompoundTo(xs: seq<real>, ws: seq<real>, k: nat): real
    requires k <= |xs| == |ws|
  {
    if k == 0 then 0.0 else (CompoundTo(xs, ws, k - 1) + xs[k - 1]) * ws[k - 1]
  }

  function Compound(xs: seq<real>, ws: seq<real>): real
    requires |xs| == |ws|
  {
    CompoundTo(xs, ws, |xs|)
  }

  // ---- positivity of squares -------------------------------------------

  lemma PositiveProduct(x: real, z: real, y: real)
    requires y == x * z && 0.0 < x && 0.0 < z
    ensures 0.0 < y
  {
  }

  lemma SquarePositive(d: real)
    requires d != 0.0
    ensures 0.0 < Square(d)
  {
    if 0.0 < d {
      PositiveProduct(d, d, Square(d));
    } else {
      PositiveProduct(-d, -d, Square(d));
    }
  }

  // ---- plain sums --------------------------------------------------------

  lemma {:induction false} SumToNonNegative(xs: seq<real>, k: nat)
    requires k <= |xs|
    requires forall j :: 0 <= j < |xs| ==> 0.0 <= xs[j]
    ensures 0.0 <= SumTo(xs, k)
  {
    if k > 0 {
      SumToNonNegative(xs, k - 1);
    }
  }

  /** A sum of non-negative entries is positive as soon as one entry is. */
  lemma {:induction false} SumToPositive(xs: seq<real>, k: nat, i: nat)
    requires i < k <= |xs|
    requires forall j :: 0 <= j < |xs| ==> 0.0 <= xs[j]
    requires 0.0 < xs[i]
    ensures 0.0 < SumTo(xs, k)
  {
    if i == k - 1 {
      SumToNonNegative(xs, k - 1);
    } else {
      SumToPositive(xs, k - 1, i);
    }
  }

  /** Summing the entrywise identity a = b - f + g. */
  lemma {:induction false} SumToLinear(a: seq<real>, b: seq<real>, f: seq<real>, g: real, k: nat)
    requires |a| == |b| == |f| && k <= |a|
    requires forall j :: 0 <= j < |a| ==> a[j] == b[j] - f[j] + g
    ensures SumTo(a, k) == SumTo(b, k) - SumTo(f, k) + (k as real) * g
  {
    if k > 0 {
      SumToLinear(a, b, f, g, k - 1);
    }
  }

  lemma {:induction false} SumToScale(xs: seq<real>, m: real, k: nat)
    requires k <= |xs|
    ensures SumTo(Scaled(xs, m), k) == m * SumTo(xs, k)
  {
    if k > 0 {
      SumToScale(xs, m, k - 1);
      assert m * SumTo(xs, k) == m * SumTo(xs, k - 1) + m * xs[k - 1];
    }
  }

  lemma SumScale(xs: seq<real>, m: real)
    ensures Sum(Scaled(xs, m)) == m * Sum(xs)
  {
    SumToScale(xs, m, |xs|);
  }

  lemma MeanScale(xs: seq<real>, m: real)
    requires |xs| > 0
    ensures Mean(Scaled(xs, m)) == m * Mean(xs)
  {
    SumScale(xs, m);
  }

  // ---- squared deviations ------------------------------------------------

  lemma SquareOfDifference(v: real, c: real)
    ensures Square(v - c) == Square(v) - 2.0 * c * v + c * c
  {
  }

  lemma DeviationsSplit(xs: seq<real>, c: real)
    ensures forall j :: 0 <= j < |xs| ==>
      Deviations(xs, c)[j] == Squares(xs)[j] - Scaled(xs, 2.0 * c)[j] + c * c
  {
    forall j | 0 <= j < |xs|
      ensures Deviations(xs, c)[j] == Squares(xs)[j] - Scaled(xs, 2.0 * c)[j] + c * c
    {
      SquareOfDifference(xs[j], c);
    }
  }

  lemma DeviationsLinear(xs: seq<real>, c: real)
    ensures Sum(Deviations(xs, c)) == Sum(Squares(xs)) - Sum(Scaled(xs, 2.0 * c)) + (|xs| as real) * (c * c)
  {
    DeviationsSplit(xs, c);
    SumToLinear(Deviations(xs, c), Squares(xs), Scaled(xs, 2.0 * c), c * c, |xs|);
  }

  lemma Regroup(d: real, q: real, f: real, s: real, c: real, n: real)
    requires d == q - f + n * (c * c) && f == 2.0 * c * s
    ensures d == q - 2.0 * c * s + n * c * c
  {
  }

  /** The squared deviations from c, expanded into the sum of squares, the
      sum and c. */
  lemma DeviationsExpand(xs: seq<real>, c: real)
    ensures Sum(Deviations(xs, c)) == Sum(Squares(xs)) - 2.0 * c * Sum(xs) + (|xs| as real) * c * c
  {
    DeviationsLinear(xs, c);
    SumScale(xs, 2.0 * c);
    Regroup(Sum(Deviations(xs, c)), Sum(Squares(xs)), Sum(Scaled(xs, 2.0 * c)), Sum(xs), c, |xs| as real);
  }

  lemma MeanTimesCount(s: real, n: real)
    requires n != 0.0
    ensures s / n * n == s
  {
  }

  lemma CenterAtMean(d: real, q: real, s: real, c: real, n: real)
    requires d == q - 2.0 * c * s + n * c * c && c * n == s
    ensures n * d == n * q - s * s
  {
    assert n * d == n * q - 2.0 * (c * n) * s + (c * n) * (c * n);
  }

  /** n times the squared deviations from the mean is n times the sum of
      squares less the squared sum. */
  lemma CenteredSquares(xs: seq<real>)
    requires |xs| > 0
    ensures (|xs| as real) * Sum(Deviations(xs, Mean(xs)))
         == (|xs| as real) * Sum(Squares(xs)) - Sum(xs) * Sum(xs)
  {
    DeviationsExpand(xs, Mean(xs));
    MeanTimesCount(Sum(xs), |xs| as real);
    CenterAtMean(Sum(Deviations(xs, Mean(xs))), Sum(Squares(xs)), Sum(xs), Mean(xs), |xs| as real);
  }

  lemma DeviationsNonNegative(xs: seq<real>, c: real)
    ensures 0.0 <= Sum(Deviations(xs, c))
  {
    SumToNonNegative(Deviations(xs, c), |xs|);
  }

  /** The squared deviations vanish exactly when every entry equals the centre. */
  lemma DeviationsZero(xs: seq<real>, c: real)
    ensures Sum(Deviations(xs, c)) == 0.0 <==> forall j :: 0 <= j < |xs| ==> xs[j] == c
  {
    if exists i :: 0 <= i < |xs| && xs[i] != c {
      var i :| 0 <= i < |xs| && xs[i] != c;
      SquarePositive(xs[i] - c);
      SumToPositive(Deviations(xs, c), |xs|, i);
    } else {
      assert Deviations(xs, c) == seq(|xs|, j => 0.0);
      ZeroSum(|xs|, |xs|);
    }
  }

  /** Two unequal entries leave a positive sum of squared deviations from the mean. */
  lemma DeviationsPositive(xs: seq<real>, i: nat, j: nat)
    requires i < |xs| && j < |xs| && xs[i] != xs[j]
    ensures 0.0 < Sum(Deviations(xs, Mean(xs)))
  {
    DeviationsZero(xs, Mean(xs));
    DeviationsNonNegative(xs, Mean(xs));
  }

  /** A column whose entries all equal c sums to k c and has mean c. */
  lemma {:induction false} ConstantSumTo(xs: seq<real>, c: real, k: nat)
    requires k <= |xs|
    requires forall j :: 0 <= j < |xs| ==> xs[j] == c
    ensures SumTo(xs, k) == (k as real) * c
  {
    if k > 0 {
      ConstantSumTo(xs, c, k - 1);
    }
  }

  lemma ConstantMean(xs: seq<real>, c: real)
    requires |xs| > 0
    requires forall j :: 0 <= j < |xs| ==> xs[j] == c
    ensures Mean(xs) == c
  {
    ConstantSumTo(xs, c, |xs|);
  }

  lemma {:induction false} ZeroSum(n: nat, k: nat)
    requires k <= n
    ensures SumTo(seq(n, j => 0.0), k) == 0.0
  {
    if k > 0 {
      ZeroSum(n, k - 1);
    }
  }

  lemma DeviationsScale(xs: seq<real>, m: real, c: real)
    ensures Sum(Deviations(Scaled(xs, m), m * c)) == m * m * Sum(Deviations(xs, c))
  {
    var lhs, rhs := Deviations(Scaled(xs, m), m * c), Scaled(Deviations(xs, c), m * m);
    forall j | 0 <= j < |xs|
      ensures lhs[j] == rhs[j]
    {
      assert m * xs[j] - m * c == m * (xs[j] - c);
    }
    assert lhs == rhs;
    SumScale(Deviations(xs, c), m * m);
  }

  /** Scaling a column by m scales its squared deviations from its own mean by m^2. */
  lemma CenteredScale(xs: seq<real>, m: real)
    requires |xs| > 0
    ensures Sum(Deviations(Scaled(xs, m), Mean(Scaled(xs, m)))) == m * m * Sum(Deviations(xs, Mean(xs)))
  {
    var ys := Scaled(xs, m);
    var c := Mean(xs);
    MeanScale(xs, m);
    var cy := Mean(ys);
    assert cy == m * c;
    DeviationsScale(xs, m, c);
    assert Deviations(ys, cy) == Deviations(ys, m * c);
  }

  // ---- compounded sums ---------------------------------------------------

  /** One step of a compounded sum, with the running total and the
      multiplier given by value. */
  lemma CompoundStep(xs: seq<real>, ws: seq<real>, i: nat, s: real, w: real)
    requires i < |xs| == |ws|
    requires s == CompoundTo(xs, ws, i) && w == ws[i]
    ensures CompoundTo(xs, ws, i + 1) == (s + xs[i]) * w
  {
  }

  lemma GrowStep(s: real, c: real, v: real, w: real)
    requires 0.0 <= s <= c && 0.0 <= v && 1.0 <= w
    ensures 0.0 <= s + v <= (c + v) * w
  {
    assert (c + v) * w - (c + v) == (c + v) * (w - 1.0);
  }

  /** With non-negative entries and multipliers of at least 1, the plain sum
      never exceeds the compounded one. */
  lemma {:induction false} CompoundToDominates(xs: seq<real>, ws: seq<real>, k: nat)
    requires k <= |xs| == |ws|
    requires forall j :: 0 <= j < |xs| ==> 0.0 <= xs[j] && 1.0 <= ws[j]
    ensures 0.0 <= SumTo(xs, k) <= CompoundTo(xs, ws, k)
  {
    if k > 0 {
      CompoundToDominates(xs, ws, k - 1);
      GrowStep(SumTo(xs, k - 1), CompoundTo(xs, ws, k - 1), xs[k - 1], ws[k - 1]);
    }
  }

  lemma CompoundDominates(xs: seq<real>, ws: seq<real>)
    requires |xs| == |ws|
    requires forall j :: 0 <= j < |xs| ==> 0.0 <= xs[j] && 1.0 <= ws[j]
    ensures 0.0 <= Sum(xs) <= Compound(xs, ws)
  {
    CompoundToDominates(xs, ws, |xs|);
  }

  lemma CompoundScaleStep(s: real, v: real, w: real, m: real)
    ensures (m * s + m * v) * w == m * ((s + v) * w)
  {
  }

  lemma {:induction false} CompoundToScale(xs: seq<real>, ws: seq<real>, m: real, k: nat)
    requires k <= |xs| == |ws|
    ensures CompoundTo(Scaled(xs, m), ws, k) == m * CompoundTo(xs, ws, k)
  {
    if k > 0 {
      CompoundToScale(xs, ws, m, k - 1);
      CompoundScaleStep(CompoundTo(xs, ws, k - 1), xs[k - 1], ws[k - 1], m);
    }
  }

  lemma CompoundScale(xs: seq<real>, ws: seq<real>, m: real)
    requires |xs| == |ws|
    ensures Compound(Scaled(xs, m), ws) == m * Compound(xs, ws)
  {
    CompoundToScale(xs, ws, m, |xs|);
  }
}
