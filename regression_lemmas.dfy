/** Properties of the recency-weighted least-squares fit `Regression.Lsr`. */
module RegressionProperties {
  import opened Records
  import opened Roots
  import opened Sums
  import opened Regression
  import opened Acceptance

  /** Pairs in ascending time order. */
  ghost predicate TimeOrdered(ps: seq<Pair>)
  {
    forall j, k :: 0 <= j <= k < |ps| ==> ps[j].readDateMills <= ps[k].readDateMills
  }

  /** For pairs in time order whose last pair is later than the first, the
      boundary check of line 85 never fires: every multiplier after the
      first is exactly 1 + tarr[i-1] / (2 tarr[n-1]), and at most 1.5. */
  lemma NoResetWhenOrdered(ps: seq<Pair>, i: nat)
    requires TimeOrdered(ps) && |ps| >= 2 && Spread(ps) > 0
    requires 1 <= i < |ps|
    ensures Multiplier(ps, i) == 1.0 + (Elapsed(ps, i - 1) as real) / ((Spread(ps) * 2) as real)
    ensures Multiplier(ps, i) <= 1.5
  {
    var e := Elapsed(ps, i - 1) as real;
    var t := (Spread(ps) * 2) as real;
    assert 0.0 <= e && e + e <= t;
    FractionAtMostHalf(e, t);
  }

  lemma FractionAtMostHalf(e: real, t: real)
    requires 0.0 < t && 0.0 <= e && e + e <= t
    ensures 0.0 <= e / t <= 0.5
  {
    assert e / t * t == e;
  }

  lemma ScaleLe(n: real, a: real, b: real)
    requires 0.0 <= n && a <= b
    ensures n * a <= n * b
  {
    assert n * b - n * a == n * (b - a);
  }

  /** Every multiplier is at least 1, so a radicand is at least n times
      the column's squared deviations from its mean. */
  lemma RadicandBound(xs: seq<real>, ws: seq<real>)
    requires 0 < |xs| == |ws|
    requires forall j :: 0 <= j < |ws| ==> 1.0 <= ws[j]
    ensures (|xs| as real) * Sum(Deviations(xs, Mean(xs))) <= Radicand(xs, ws)
  {
    SquaresDominated(xs, ws);
    CenteredSquares(xs);
    BelowByDifference(|xs| as real, Sum(Deviations(xs, Mean(xs))), Sum(Squares(xs)),
                      Compound(Squares(xs), ws), Sum(xs));
  }

  lemma SquaresDominated(xs: seq<real>, ws: seq<real>)
    requires |xs| == |ws|
    requires forall j :: 0 <= j < |ws| ==> 1.0 <= ws[j]
    ensures Sum(Squares(xs)) <= Compound(Squares(xs), ws)
  {
    var sq := Squares(xs);
    forall j | 0 <= j < |xs|
      ensures 0.0 <= sq[j] && 1.0 <= ws[j]
    {
    }
    CompoundDominates(sq, ws);
  }

  lemma BelowByDifference(n: real, d: real, q: real, c: real, s: real)
    requires 0.0 <= n && n * d == n * q - s * s && q <= c
    ensures n * d <= n * c - s * s
  {
    ScaleLe(n, q, c);
  }

  /** The number whose square root line 97 takes is never negative once the
      pairs span some time: both radicands are non-negative. */
  lemma RadicandsNonNegative(ps: seq<Pair>)
    requires |ps| >= 2 && Spread(ps) != 0
    ensures 0.0 <= Radicand(Glucoses(ps), Weights(ps))
    ensures 0.0 <= Radicand(Unfiltereds(ps), Weights(ps))
    ensures 0.0 <= Radicand(Glucoses(ps), Weights(ps)) * Radicand(Unfiltereds(ps), Weights(ps))
  {
    var xs, ys, ws := Glucoses(ps), Unfiltereds(ps), Weights(ps);
    var n := |ps| as real;
    RadicandBound(xs, ws);
    RadicandBound(ys, ws);
    DeviationsNonNegative(xs, Mean(xs));
    DeviationsNonNegative(ys, Mean(ys));
    ScaleLe(n, 0.0, Sum(Deviations(xs, Mean(xs))));
    ScaleLe(n, 0.0, Sum(Deviations(ys, Mean(ys))));
    ScaleLe(Radicand(xs, ws), 0.0, Radicand(ys, ws));
  }

  /** A column with two different entries has a positive standard deviation. */
  lemma StdDevPositive(xs: seq<real>, sqrt: real -> real, i: nat, j: nat)
    requires IsSqrt(sqrt) && |xs| >= 2
    requires i < |xs| && j < |xs| && xs[i] != xs[j]
    ensures 0.0 < StdDev(xs, sqrt)
  {
    var d := Sum(Deviations(xs, Mean(xs)));
    DeviationsPositive(xs, i, j);
    var v := d / ((|xs| - 1) as real);
    assert 0.0 < v;
    SqrtZeroIff(sqrt, v);
  }

  /** A column whose entries are all equal has standard deviation 0. */
  lemma StdDevZero(xs: seq<real>, sqrt: real -> real)
    requires IsSqrt(sqrt) && |xs| >= 2
    requires forall j :: 0 <= j < |xs| ==> xs[j] == xs[0]
    ensures StdDev(xs, sqrt) == 0.0
  {
    ConstantMean(xs, xs[0]);
    DeviationsZero(xs, Mean(xs));
    SqrtZeroIff(sqrt, 0.0);
    SameRoot(sqrt, Sum(Deviations(xs, Mean(xs))) / ((|xs| - 1) as real), 0.0);
  }

  /** A column with two different entries has a positive radicand. */
  lemma RadicandPositive(xs: seq<real>, ws: seq<real>, i: nat, j: nat)
    requires 0 < |xs| == |ws|
    requires forall k :: 0 <= k < |ws| ==> 1.0 <= ws[k]
    requires i < |xs| && j < |xs| && xs[i] != xs[j]
    ensures 0.0 < Radicand(xs, ws)
  {
    RadicandBound(xs, ws);
    DeviationsPositive(xs, i, j);
    PositiveProduct(|xs| as real, Sum(Deviations(xs, Mean(xs))), (|xs| as real) * Sum(Deviations(xs, Mean(xs))));
  }

  lemma FitWhenNonZero(n: real, sumX: real, sumY: real, meanX: real, meanY: real,
                       stddevX: real, stddevY: real, sumXY: real, sumXSq: real, sumYSq: real,
                       sqrt: real -> real, rx: real, ry: real)
    requires rx == n * sumXSq - sumX * sumX && ry == n * sumYSq - sumY * sumY
    requires sqrt(rx * ry) != 0.0 && stddevX != 0.0
    ensures FitFromSums(n, sumX, sumY, meanX, meanY, stddevX, stddevY, sumXY, sumXSq, sumYSq, sqrt).Fitted?
  {
    SameRoot(sqrt, rx * ry, (n * sumXSq - sumX * sumX) * (n * sumYSq - sumY * sumY));
  }

  /** Pairs that span some time and vary in both glucose and signal always
      give a line: neither the denominator nor stddevX is 0 (line 98). */
  lemma VaryingPairsFit(ps: seq<Pair>, sqrt: real -> real, i: nat, j: nat, k: nat, l: nat)
    requires IsSqrt(sqrt) && |ps| >= 2 && Spread(ps) != 0
    requires i < |ps| && j < |ps| && ps[i].glucose != ps[j].glucose
    requires k < |ps| && l < |ps| && ps[k].unfiltered != ps[l].unfiltered
    ensures Lsr(ps, sqrt).Fitted?
  {
    var xs, ys, ws := Glucoses(ps), Unfiltereds(ps), Weights(ps);
    var n := |ps| as real;
    var sx, sy, cx, cy := Sum(xs), Sum(ys), Compound(Squares(xs), ws), Compound(Squares(ys), ws);
    var rx, ry := Radicand(xs, ws), Radicand(ys, ws);
    assert rx == n * cx - sx * sx;
    assert ry == n * cy - sy * sy;
    RadicandPositive(xs, ws, i, j);
    RadicandPositive(ys, ws, k, l);
    var product := rx * ry;
    PositiveProduct(rx, ry, product);
    SqrtZeroIff(sqrt, product);
    StdDevPositive(xs, sqrt, i, j);
    LsrSpread(ps, sqrt);
    FitWhenNonZero(n, sx, sy, Mean(xs), Mean(ys), StdDev(xs, sqrt), StdDev(ys, sqrt),
                   Compound(Products(xs, ys), ws), cx, cy, sqrt, rx, ry);
  }

  /** Pairs that all carry the same glucose give no line: stddevX is 0, so
      `lsrCalibration` returns null whether or not the pairs span time. */
  lemma ConstantGlucoseNoFit(ps: seq<Pair>, sqrt: real -> real)
    requires IsSqrt(sqrt) && |ps| >= 2
    requires forall j :: 0 <= j < |ps| ==> ps[j].glucose == ps[0].glucose
    ensures Lsr(ps, sqrt) == NullFit
  {
    StdDevZero(Glucoses(ps), sqrt);
  }

  /** Pairs that all carry the same signal give a flat line at that signal:
      stddevY is 0, so the slope is 0 and the intercept is the mean signal. */
  lemma ConstantSignalFlat(ps: seq<Pair>, sqrt: real -> real)
    requires IsSqrt(sqrt) && |ps| >= 2
    requires forall j :: 0 <= j < |ps| ==> ps[j].unfiltered == ps[0].unfiltered
    ensures Lsr(ps, sqrt).Fitted? ==> Lsr(ps, sqrt).fit == Fit(0.0, ps[0].unfiltered, LeastSquaresRegression)
  {
    var ys := Unfiltereds(ps);
    StdDevZero(ys, sqrt);
    ConstantMean(ys, ps[0].unfiltered);
  }

  lemma ProportionalRadicands(n: real, s: real, c: real, m: real, sumY: real, sumYSq: real)
    requires sumY == m * s && sumYSq == m * m * c
    ensures (n * c - s * s) * (n * sumYSq - sumY * sumY) == (m * (n * c - s * s)) * (m * (n * c - s * s))
  {
    var r := n * c - s * s;
    assert n * sumYSq - sumY * sumY == m * m * r;
  }

  lemma ProportionalCovariance(n: real, s: real, c: real, m: real, sumY: real, sumXY: real)
    requires sumY == m * s && sumXY == m * c
    ensures n * sumXY - s * sumY == m * (n * c - s * s)
  {
  }

  /** m r / (|m| r) times |m| sigma / sigma is m. */
  lemma ProportionalSlope(m: real, r: real, sigma: real, covariance: real, denominator: real, stddevY: real)
    requires m != 0.0 && 0.0 < r && 0.0 < sigma
    requires covariance == m * r && denominator == Abs(m) * r && stddevY == Abs(m) * sigma
    ensures covariance / denominator * stddevY / sigma == m
  {
    var a := Abs(m);
    assert 0.0 < a;
    assert covariance / denominator == m / a;
    assert m / a * stddevY == m * sigma;
  }

  /** The denominator of line 97 for sums of pairs lying on y = m x:
      abs(m) times the glucose radicand, hence not 0. */
  lemma ProportionalDenominator(sqrt: real -> real, n: real, s: real, c: real, m: real, sumY: real, sumYSq: real)
    requires IsSqrt(sqrt) && m != 0.0 && 0.0 < n * c - s * s
    requires sumY == m * s && sumYSq == m * m * c
    ensures sqrt((n * c - s * s) * (n * sumYSq - sumY * sumY)) == Abs(m) * (n * c - s * s)
    ensures sqrt((n * c - s * s) * (n * sumYSq - sumY * sumY)) != 0.0
  {
    var r := n * c - s * s;
    ProportionalRadicands(n, s, c, m, sumY, sumYSq);
    SqrtOfScaledSquare(sqrt, m, r, (n * c - s * s) * (n * sumYSq - sumY * sumY));
    PositiveProduct(Abs(m), r, Abs(m) * r);
  }

  /** The fit from the sums of pairs lying on y = m x. */
  lemma FitOfProportionalSums(sqrt: real -> real, n: real, s: real, mu: real, sigma: real, c: real, m: real,
                              sumY: real, meanY: real, stddevY: real, sumXY: real, sumYSq: real)
    requires IsSqrt(sqrt) && m != 0.0 && 0.0 < sigma && 0.0 < n * c - s * s
    requires sumY == m * s && meanY == m * mu && stddevY == Abs(m) * sigma
    requires sumXY == m * c && sumYSq == m * m * c
    ensures FitFromSums(n, s, sumY, mu, meanY, sigma, stddevY, sumXY, c, sumYSq, sqrt)
         == Fitted(Fit(m, 0.0, LeastSquaresRegression))
  {
    ProportionalDenominator(sqrt, n, s, c, m, sumY, sumYSq);
    ProportionalCovariance(n, s, c, m, sumY, sumXY);
    ProportionalSlope(m, n * c - s * s, sigma, n * sumXY - s * sumY,
                      sqrt((n * c - s * s) * (n * sumYSq - sumY * sumY)), stddevY);
    FitThroughOrigin(n, s, sumY, mu, meanY, sigma, stddevY, sumXY, c, sumYSq, sqrt, m);
  }

  /** A fit whose slope works out to m, with meanY = m meanX, is the line
      y = m x. */
  lemma FitThroughOrigin(n: real, sumX: real, sumY: real, meanX: real, meanY: real,
                         stddevX: real, stddevY: real, sumXY: real, sumXSq: real, sumYSq: real,
                         sqrt: real -> real, m: real)
    requires sqrt((n * sumXSq - sumX * sumX) * (n * sumYSq - sumY * sumY)) != 0.0 && stddevX != 0.0
    requires (n * sumXY - sumX * sumY) / sqrt((n * sumXSq - sumX * sumX) * (n * sumYSq - sumY * sumY))
             * stddevY / stddevX == m
    requires meanY == m * meanX
    ensures FitFromSums(n, sumX, sumY, meanX, meanY, stddevX, stddevY, sumXY, sumXSq, sumYSq, sqrt)
         == Fitted(Fit(m, 0.0, LeastSquaresRegression))
  {
  }

  /** The columns of pairs whose signal is m times their glucose. */
  lemma ProportionalColumns(ps: seq<Pair>, m: real)
    requires forall k :: 0 <= k < |ps| ==> ps[k].unfiltered == m * ps[k].glucose
    ensures Unfiltereds(ps) == Scaled(Glucoses(ps), m)
    ensures Products(Glucoses(ps), Unfiltereds(ps)) == Scaled(Squares(Glucoses(ps)), m)
    ensures Squares(Unfiltereds(ps)) == Scaled(Squares(Glucoses(ps)), m * m)
  {
    var xs, ys := Glucoses(ps), Unfiltereds(ps);
    var sq := Squares(xs);
    forall k | 0 <= k < |ps|
      ensures ys[k] == Scaled(xs, m)[k]
      ensures Products(xs, ys)[k] == Scaled(sq, m)[k]
      ensures Squares(ys)[k] == Scaled(sq, m * m)[k]
    {
      assert xs[k] * (m * xs[k]) == m * (xs[k] * xs[k]);
      assert (m * xs[k]) * (m * xs[k]) == m * m * (xs[k] * xs[k]);
    }
  }

  /** `Lsr` for pairs that span some time, with its sums spelled out. */
  lemma LsrSpread(ps: seq<Pair>, sqrt: real -> real)
    requires |ps| >= 2 && Spread(ps) != 0
    ensures var xs, ys, ws := Glucoses(ps), Unfiltereds(ps), Weights(ps);
      Lsr(ps, sqrt) == FitFromSums(|ps| as real, Sum(xs), Sum(ys), Mean(xs), Mean(ys),
                                   StdDev(xs, sqrt), StdDev(ys, sqrt), Compound(Products(xs, ys), ws),
                                   Compound(Squares(xs), ws), Compound(Squares(ys), ws), sqrt)
  {
  }

  /** The plain sums and spreads of pairs whose signal is m times their
      glucose, in terms of the glucose column alone. */
  lemma ProportionalMoments(ps: seq<Pair>, sqrt: real -> real, m: real)
    requires IsSqrt(sqrt) && |ps| >= 2
    requires forall k :: 0 <= k < |ps| ==> ps[k].unfiltered == m * ps[k].glucose
    ensures Sum(Unfiltereds(ps)) == m * Sum(Glucoses(ps))
    ensures Mean(Unfiltereds(ps)) == m * Mean(Glucoses(ps))
    ensures StdDev(Unfiltereds(ps), sqrt) == Abs(m) * StdDev(Glucoses(ps), sqrt)
  {
    var xs := Glucoses(ps);
    ProportionalColumns(ps, m);
    SumScale(xs, m);
    MeanScale(xs, m);
    StdDevScale(xs, sqrt, m);
  }

  /** The compounded sums of pairs whose signal is m times their glucose,
      in terms of the glucose column alone. */
  lemma ProportionalCompounds(ps: seq<Pair>, m: real)
    requires |ps| >= 2 && Spread(ps) != 0
    requires forall k :: 0 <= k < |ps| ==> ps[k].unfiltered == m * ps[k].glucose
    ensures Compound(Products(Glucoses(ps), Unfiltereds(ps)), Weights(ps)) == m * Compound(Squares(Glucoses(ps)), Weights(ps))
    ensures Compound(Squares(Unfiltereds(ps)), Weights(ps)) == m * m * Compound(Squares(Glucoses(ps)), Weights(ps))
  {
    var sq, ws := Squares(Glucoses(ps)), Weights(ps);
    ProportionalColumns(ps, m);
    CompoundScale(sq, ws, m);
    CompoundScale(sq, ws, m * m);
  }

  /** The sums `Lsr` uses, for pairs whose signal is m times their glucose
      and whose glucose varies, related to the glucose column alone. */
  ghost predicate ProportionalStats(ps: seq<Pair>, sqrt: real -> real, m: real)
    requires |ps| >= 2 && Spread(ps) != 0
  {
    var xs, ys, ws := Glucoses(ps), Unfiltereds(ps), Weights(ps);
    && 0.0 < StdDev(xs, sqrt)
    && 0.0 < (|ps| as real) * Compound(Squares(xs), ws) - Sum(xs) * Sum(xs)
    && Sum(ys) == m * Sum(xs)
    && Mean(ys) == m * Mean(xs)
    && StdDev(ys, sqrt) == Abs(m) * StdDev(xs, sqrt)
    && Compound(Products(xs, ys), ws) == m * Compound(Squares(xs), ws)
    && Compound(Squares(ys), ws) == m * m * Compound(Squares(xs), ws)
  }

  lemma RadicandOfPairs(ps: seq<Pair>, xs: seq<real>)
    requires |ps| >= 2 && Spread(ps) != 0 && xs == Glucoses(ps)
    ensures Radicand(xs, Weights(ps)) == (|ps| as real) * Compound(Squares(xs), Weights(ps)) - Sum(xs) * Sum(xs)
  {
  }

  lemma ProportionalStatsHold(ps: seq<Pair>, sqrt: real -> real, m: real, i: nat, j: nat)
    requires IsSqrt(sqrt) && |ps| >= 2 && Spread(ps) != 0
    requires forall k :: 0 <= k < |ps| ==> ps[k].unfiltered == m * ps[k].glucose
    requires i < |ps| && j < |ps| && ps[i].glucose != ps[j].glucose
    ensures ProportionalStats(ps, sqrt, m)
  {
    ProportionalMoments(ps, sqrt, m);
    StdDevPositive(Glucoses(ps), sqrt, i, j);
    ProportionalCompounds(ps, m);
    RadicandPositive(Glucoses(ps), Weights(ps), i, j);
    RadicandOfPairs(ps, Glucoses(ps));
  }

  /** The fit `Lsr` computes from those sums is y = m x. */
  lemma ProportionalFit(ps: seq<Pair>, sqrt: real -> real, m: real)
    requires IsSqrt(sqrt) && |ps| >= 2 && Spread(ps) != 0 && m != 0.0
    requires ProportionalStats(ps, sqrt, m)
    ensures var xs, ys, ws := Glucoses(ps), Unfiltereds(ps), Weights(ps);
      FitFromSums(|ps| as real, Sum(xs), Sum(ys), Mean(xs), Mean(ys),
                  StdDev(xs, sqrt), StdDev(ys, sqrt), Compound(Products(xs, ys), ws),
                  Compound(Squares(xs), ws), Compound(Squares(ys), ws), sqrt)
      == Fitted(Fit(m, 0.0, LeastSquaresRegression))
  {
    var xs, ys, ws := Glucoses(ps), Unfiltereds(ps), Weights(ps);
    assert Compound(Squares(ys), ws) == m * m * Compound(Squares(xs), ws);
    assert Compound(Products(xs, ys), ws) == m * Compound(Squares(xs), ws);
    FitOfProportionalSums(sqrt, |ps| as real, Sum(xs), Mean(xs), StdDev(xs, sqrt), Compound(Squares(xs), ws), m,
                          Sum(ys), Mean(ys), StdDev(ys, sqrt), Compound(Products(xs, ys), ws), Compound(Squares(ys), ws));
  }

  /** Pairs whose signal is exactly m times their glucose, with m non-zero,
      at least two different glucose values and some time between the first
      and last pair, give back the line y = m x. */
  lemma ProportionalPairsRecovered(ps: seq<Pair>, sqrt: real -> real, m: real, i: nat, j: nat)
    requires IsSqrt(sqrt) && |ps| >= 2 && Spread(ps) != 0 && m != 0.0
    requires forall k :: 0 <= k < |ps| ==> ps[k].unfiltered == m * ps[k].glucose
    requires i < |ps| && j < |ps| && ps[i].glucose != ps[j].glucose
    ensures Lsr(ps, sqrt) == Fitted(Fit(m, 0.0, LeastSquaresRegression))
  {
    LsrSpread(ps, sqrt);
    ProportionalStatsHold(ps, sqrt, m, i, j);
    ProportionalFit(ps, sqrt, m);
  }

  /** Scaling a column by m scales its standard deviation by |m|. */
  lemma StdDevScale(xs: seq<real>, sqrt: real -> real, m: real)
    requires IsSqrt(sqrt) && |xs| >= 2
    ensures StdDev(Scaled(xs, m), sqrt) == Abs(m) * StdDev(xs, sqrt)
  {
    var d := Sum(Deviations(xs, Mean(xs)));
    var dy := Sum(Deviations(Scaled(xs, m), Mean(Scaled(xs, m))));
    CenteredScale(xs, m);
    DeviationsNonNegative(xs, Mean(xs));
    RootOfScaledQuotient(sqrt, m, dy, d, (|xs| - 1) as real);
  }

  /** Pairs whose first and last timestamps agree but which hold two
      different glucose values give the NaN fit, and that fit passes the
      slope bound check: a LeastSquaresRegression calibration with NaN slope
      and intercept is emitted. */
  lemma NoSpreadNaNAccepted(ps: seq<Pair>, sqrt: real -> real, now: int, i: nat, j: nat)
    requires IsSqrt(sqrt) && |ps| >= 2 && Spread(ps) == 0
    requires i < |ps| && j < |ps| && ps[i].glucose != ps[j].glucose
    ensures Lsr(ps, sqrt) == NaNFit
    ensures AcceptLsr(Lsr(ps, sqrt), now) == NaNCalibration(now)
  {
    StdDevPositive(Glucoses(ps), sqrt, i, j);
  }

  lemma SumOfThree(xs: seq<real>)
    requires |xs| == 3
    ensures Sum(xs) == xs[0] + xs[1] + xs[2]
  {
    assert SumTo(xs, 1) == xs[0];
    assert SumTo(xs, 2) == xs[0] + xs[1];
  }

  lemma CompoundOfThree(xs: seq<real>, ws: seq<real>)
    requires |xs| == |ws| == 3
    ensures Compound(xs, ws) == ((xs[0] * ws[0] + xs[1]) * ws[1] + xs[2]) * ws[2]
  {
    assert CompoundTo(xs, ws, 1) == xs[0] * ws[0];
    assert CompoundTo(xs, ws, 2) == (xs[0] * ws[0] + xs[1]) * ws[1];
  }

  /** A slope of 1 would need the denominator to be 21, whose square is 441
      rather than the radicand 457.875. */
  lemma SlopeNotOne(d: real)
    requires d * d == 16.5 * 27.75
    ensures d == 0.0 || (3.0 * 25.0 - 6.0 * 9.0) / d * 1.0 / 1.0 != 1.0
  {
    if d != 0.0 {
      assert 21.0 / d * d == 21.0;
    }
  }

  /** The three pairs on the line y = x + 1 used below. */
  function InterceptLinePairs(): seq<Pair>
  {
    [Pair(1.0, 2.0, 0), Pair(2.0, 3.0, 1), Pair(3.0, 4.0, 2)]
  }

  /** The statistics `lsrCalibration` computes for those pairs. */
  lemma InterceptLineSums(sqrt: real -> real)
    requires IsSqrt(sqrt)
    ensures var ps := InterceptLinePairs();
      var xs, ys, ws := Glucoses(ps), Unfiltereds(ps), Weights(ps);
      && Sum(xs) == 6.0 && Sum(ys) == 9.0 && Mean(xs) == 2.0 && Mean(ys) == 3.0
      && StdDev(xs, sqrt) == 1.0 && StdDev(ys, sqrt) == 1.0
      && Compound(Products(xs, ys), ws) == 25.0
      && Compound(Squares(xs), ws) == 17.5 && Compound(Squares(ys), ws) == 36.25
  {
    var ps := InterceptLinePairs();
    var xs, ys := Glucoses(ps), Unfiltereds(ps);
    assert xs == [1.0, 2.0, 3.0] && ys == [2.0, 3.0, 4.0];
    assert Spread(ps) == 2;
    var ws := Weights(ps);
    assert ws == [1.0, 1.0, 1.25] by {
      assert Multiplier(ps, 1) == 1.0 && Multiplier(ps, 2) == 1.25;
    }
    SumOfThree(xs);
    SumOfThree(ys);
    SumOfThree(Deviations(xs, 2.0));
    SumOfThree(Deviations(ys, 3.0));
    assert IsRoot(sqrt, 1.0);
    NonNegativeRootUnique(sqrt(1.0), 1.0);
    var sxy, sxx, syy := Products(xs, ys), Squares(xs), Squares(ys);
    assert sxy == [2.0, 6.0, 12.0] && sxx == [1.0, 4.0, 9.0] && syy == [4.0, 9.0, 16.0];
    CompoundOfThree(sxy, ws);
    CompoundOfThree(sxx, ws);
    CompoundOfThree(syy, ws);
  }

  /** Three pairs on the line y = x + 1, a millisecond apart, are not fitted
      with slope 1 and intercept 1: the recency weights (1, 1, 1.25) enter
      the square and cross sums but not the plain sums. */
  lemma InterceptLineNotRecovered(sqrt: real -> real)
    requires IsSqrt(sqrt)
    ensures Lsr(InterceptLinePairs(), sqrt) != Fitted(Fit(1.0, 1.0, LeastSquaresRegression))
  {
    InterceptLineSums(sqrt);
    var radicand := (3.0 * 17.5 - 6.0 * 6.0) * (3.0 * 36.25 - 9.0 * 9.0);
    assert IsRoot(sqrt, radicand);
    SlopeNotOne(sqrt(radicand));
  }
}
