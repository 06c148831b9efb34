/** The recency-weighted least-squares fit `lsrCalibration`
    (calibration.js:26-123): x is the reference glucose, y the unfiltered
    signal. The weighted sums compound: each step multiplies the running
    total, not just the new term, by that step's recency multiplier. */
module Regression {
  import opened Records
  import opened Roots
  import opened Sums

  /** The x column: the reference glucose of each pair. */
  function Glucoses(ps: seq<Pair>): (r: seq<real>)
    ensures |r| == |ps|
  {
    seq(|ps|, j requires 0 <= j < |ps| => ps[j].glucose)
  }

  /** The y column: the unfiltered signal of each pair. */
  function Unfiltereds(ps: seq<Pair>): (r: seq<real>)
    ensures |r| == |ps|
  {
    seq(|ps|, j requires 0 <= j < |ps| => ps[j].unfiltered)
  }

  /** Sample standard deviation of a column (denominator n - 1), lines 60-69. */
  function StdDev(xs: seq<real>, sqrt: real -> real): real
    requires |xs| >= 2
  {
    sqrt(Sum(Deviations(xs, Mean(xs))) / ((|xs| - 1) as real))
  }

  /** `tarr[i]`: milliseconds since the first pair (lines 72-76). */
  function Elapsed(ps: seq<Pair>, i: nat): int
    requires i < |ps|
  {
    ps[i].readDateMills - ps[0].readDateMills
  }

  /** `tarr[n-1]`, the time covered by the pairs. */
  function Spread(ps: seq<Pair>): int
    requires |ps| > 0
  {
    Elapsed(ps, |ps| - 1)
  }

  /** The multiplier applied at step i (lines 80-88). Step 0 keeps the
      initial 1; later steps use 1 + tarr[i-1] / (2 tarr[n-1]) and fall
      back to 1 outside [1, 2]. When tarr[n-1] is 0 the quotient is not a
      number; that case is kept out here and handled by `Lsr`. */
  function Multiplier(ps: seq<Pair>, i: nat): (m: real)
    requires i < |ps|
    requires i == 0 || Spread(ps) != 0
    ensures 1.0 <= m <= 2.0
  {
    if i == 0 then 1.0
    else
      var w := 1.0 + (Elapsed(ps, i - 1) as real) / ((Spread(ps) * 2) as real);
      if w < 1.0 || w > 2.0 then 1.0 else w
  }

  /** The multipliers of all steps; defined when the pairs span some time. */
  function Weights(ps: seq<Pair>): (ws: seq<real>)
    requires |ps| <= 1 || Spread(ps) != 0
    ensures |ws| == |ps|
    ensures forall i :: 0 <= i < |ps| ==> 1.0 <= ws[i] <= 2.0
  {
    seq(|ps|, i requires 0 <= i < |ps| => Multiplier(ps, i))
  }

  /** `n * sumSq - sum^2` for a column compounded with weights ws: the two
      factors under the square root of the denominator (line 97). */
  function Radicand(xs: seq<real>, ws: seq<real>): real
    requires |ws| == |xs|
  {
    (|xs| as real) * Compound(Squares(xs), ws) - Sum(xs) * Sum(xs)
  }

  /** Lines 97-104: the fit from the sums, means and deviations. The
      denominator is the square root of the product of the two radicands;
      `null` when it or stddevX is 0. */
  function FitFromSums(n: real, sumX: real, sumY: real, meanX: real, meanY: real,
                       stddevX: real, stddevY: real, sumXY: real, sumXSq: real, sumYSq: real,
                       sqrt: real -> real): (r: FitResult)
    ensures r != NaNFit
    ensures r == NullFit <==>
      sqrt((n * sumXSq - sumX * sumX) * (n * sumYSq - sumY * sumY)) == 0.0 || stddevX == 0.0
    ensures r.Fitted? ==> r.fit.calibrationType == LeastSquaresRegression
    ensures r.Fitted? ==> r.fit.slope * meanX + r.fit.yIntercept == meanY
  {
    var denominator := sqrt((n * sumXSq - sumX * sumX) * (n * sumYSq - sumY * sumY));
    if denominator == 0.0 || stddevX == 0.0 then NullFit
    else
      var correlation := (n * sumXY - sumX * sumY) / denominator;
      var slope := correlation * stddevY / stddevX;
      Fitted(Fit(slope, meanY - slope * meanX, LeastSquaresRegression))
  }

  /** What `lsrCalibration` returns for at least two pairs.
      If the first and last pair share a timestamp, the multiplier at step 1
      is 0/0 (line 82), which is NaN and passes the boundary check of line
      85; every compounded sum and the denominator become NaN, and since NaN
      is unequal to 0 the function returns null only when stddevX is 0 and
      otherwise a fit whose slope and intercept are NaN. */
  function Lsr(ps: seq<Pair>, sqrt: real -> real): (r: FitResult)
    requires |ps| >= 2
    ensures Spread(ps) == 0 ==> !r.Fitted?
    ensures r == NaNFit ==> Spread(ps) == 0
    ensures r.Fitted? ==> r.fit.calibrationType == LeastSquaresRegression
    ensures r.Fitted? ==>
      r.fit.slope * Mean(Glucoses(ps)) + r.fit.yIntercept == Mean(Unfiltereds(ps))
  {
    var xs, ys := Glucoses(ps), Unfiltereds(ps);
    var stddevX := StdDev(xs, sqrt);
    if Spread(ps) == 0 then
      if stddevX == 0.0 then NullFit else NaNFit
    else
      var ws := Weights(ps);
      FitFromSums(|ps| as real, Sum(xs), Sum(ys), Mean(xs), Mean(ys), stddevX, StdDev(ys, sqrt),
                  Compound(Products(xs, ys), ws), Compound(Squares(xs), ws), Compound(Squares(ys), ws), sqrt)
  }

  /** The three compounded sums after i steps. */
  ghost predicate SumsAt(ps: seq<Pair>, i: nat, sumXY: real, sumXSq: real, sumYSq: real)
    requires i <= |ps| && 0 < |ps| && Spread(ps) != 0
  {
    ColumnSumsAt(Glucoses(ps), Unfiltereds(ps), Weights(ps), i, sumXY, sumXSq, sumYSq)
  }

  /** The three compounded sums over columns xs and ys after i steps. */
  ghost predicate ColumnSumsAt(xs: seq<real>, ys: seq<real>, ws: seq<real>, i: nat, sumXY: real, sumXSq: real, sumYSq: real)
    requires i <= |xs| == |ys| == |ws|
  {
    && sumXY == CompoundTo(Products(xs, ys), ws, i)
    && sumXSq == CompoundTo(Squares(xs), ws, i)
    && sumYSq == CompoundTo(Squares(ys), ws, i)
  }

  lemma ColumnSumsStep(xs: seq<real>, ys: seq<real>, ws: seq<real>, i: nat, sumXY: real, sumXSq: real, sumYSq: real,
                       multiplier: real)
    requires i < |xs| == |ys| == |ws| && multiplier == ws[i]
    requires ColumnSumsAt(xs, ys, ws, i, sumXY, sumXSq, sumYSq)
    ensures ColumnSumsAt(xs, ys, ws, i + 1, (sumXY + Products(xs, ys)[i]) * multiplier,
                         (sumXSq + Squares(xs)[i]) * multiplier, (sumYSq + Squares(ys)[i]) * multiplier)
  {
    CompoundStep(Products(xs, ys), ws, i, sumXY, multiplier);
    CompoundStep(Squares(xs), ws, i, sumXSq, multiplier);
    CompoundStep(Squares(ys), ws, i, sumYSq, multiplier);
  }

  lemma SumsStep(ps: seq<Pair>, i: nat, sumXY: real, sumXSq: real, sumYSq: real, multiplier: real)
    requires i < |ps| && Spread(ps) != 0 && multiplier == Multiplier(ps, i)
    requires SumsAt(ps, i, sumXY, sumXSq, sumYSq)
    ensures SumsAt(ps, i + 1, (sumXY + Products(Glucoses(ps), Unfiltereds(ps))[i]) * multiplier,
                   (sumXSq + Squares(Glucoses(ps))[i]) * multiplier,
                   (sumYSq + Squares(Unfiltereds(ps))[i]) * multiplier)
  {
    ColumnSumsStep(Glucoses(ps), Unfiltereds(ps), Weights(ps), i, sumXY, sumXSq, sumYSq, multiplier);
  }

  /** Lines 80-89: the multiplier of step i, or `nan` when it is 0/0. */
  method StepMultiplier(ps: seq<Pair>, tarr: seq<int>, i: nat) returns (nan: bool, multiplier: real)
    requires i < |ps| == |tarr|
    requires forall j :: 0 <= j < |ps| ==> tarr[j] == Elapsed(ps, j)
    ensures nan <==> 1 <= i && Spread(ps) == 0 && Elapsed(ps, i - 1) == 0
    ensures !nan && (i == 0 || Spread(ps) != 0) ==> multiplier == Multiplier(ps, i)
  {
    var n := |tarr|;
    nan, multiplier := false, 1.0;
    if i != 0 {
      if tarr[n - 1] == 0 {
        // tarr[i-1] / 0 is NaN when tarr[i-1] is 0 and an infinity
        // otherwise, which the boundary check resets to 1
        nan := tarr[i - 1] == 0;
      } else {
        multiplier := 1.0 + (tarr[i - 1] as real) / ((tarr[n - 1] * 2) as real);
        if multiplier < 1.0 || multiplier > 2.0 {
          multiplier := 1.0;
        }
      }
    }
  }

  /** Lines 92-94: one step of the three compounded sums. */
  method Accumulate(ps: seq<Pair>, i: nat, multiplier: real, sumXY: real, sumXSq: real, sumYSq: real)
    returns (sumXY': real, sumXSq': real, sumYSq': real)
    requires i < |ps|
    ensures sumXY' == (sumXY + Products(Glucoses(ps), Unfiltereds(ps))[i]) * multiplier
    ensures sumXSq' == (sumXSq + Squares(Glucoses(ps))[i]) * multiplier
    ensures sumYSq' == (sumYSq + Squares(Unfiltereds(ps))[i]) * multiplier
  {
    var x, y := ps[i].glucose, ps[i].unfiltered;
    sumXY' := (sumXY + x * y) * multiplier;
    sumXSq' := (sumXSq + x * x) * multiplier;
    sumYSq' := (sumYSq + y * y) * multiplier;
  }

  /** The weighting loop of lines 78-95, over `tarr` as built at lines
      72-76. `isNaN` says that the multiplier, and with it every compounded
      sum, has become NaN; the sums are then meaningless. */
  method WeightedSums(ps: seq<Pair>, tarr: seq<int>) returns (isNaN: bool, sumXY: real, sumXSq: real, sumYSq: real)
    requires |ps| >= 2 && |tarr| == |ps|
    requires forall j :: 0 <= j < |ps| ==> tarr[j] == Elapsed(ps, j)
    ensures isNaN <==> Spread(ps) == 0
    ensures !isNaN ==> sumXY == Compound(Products(Glucoses(ps), Unfiltereds(ps)), Weights(ps))
    ensures !isNaN ==> sumXSq == Compound(Squares(Glucoses(ps)), Weights(ps))
    ensures !isNaN ==> sumYSq == Compound(Squares(Unfiltereds(ps)), Weights(ps))
  {
    var n := |ps|;
    var multiplier;
    isNaN := false;
    sumXY, sumXSq, sumYSq := 0.0, 0.0, 0.0;
    var i := 0;
    while i < n
      invariant 0 <= i <= n
      invariant isNaN <==> (2 <= i && Spread(ps) == 0)
      invariant Spread(ps) != 0 ==> SumsAt(ps, i, sumXY, sumXSq, sumYSq)
    {
      var nan;
      nan, multiplier := StepMultiplier(ps, tarr, i);
      isNaN := isNaN || nan;
      if Spread(ps) != 0 {
        SumsStep(ps, i, sumXY, sumXSq, sumYSq, multiplier);
      }
      if !isNaN {
        sumXY, sumXSq, sumYSq := Accumulate(ps, i, multiplier, sumXY, sumXSq, sumYSq);
      }
      i := i + 1;
    }
  }

  /** Lines 52-55: the plain sums of both columns. */
  method ColumnSums(ps: seq<Pair>) returns (sumX: real, sumY: real)
    ensures sumX == Sum(Glucoses(ps)) && sumY == Sum(Unfiltereds(ps))
  {
    ghost var xs, ys := Glucoses(ps), Unfiltereds(ps);
    sumX, sumY := 0.0, 0.0;
    var i := 0;
    while i < |ps|
      invariant 0 <= i <= |ps|
      invariant sumX == SumTo(xs, i) && sumY == SumTo(ys, i)
    {
      sumX := sumX + ps[i].glucose;
      sumY := sumY + ps[i].unfiltered;
      i := i + 1;
    }
  }

  /** Lines 60-66: the squared deviations of both columns from the given means. */
  method SquaredDeviationSums(ps: seq<Pair>, meanX: real, meanY: real) returns (sumSqDiffX: real, sumSqDiffY: real)
    ensures sumSqDiffX == Sum(Deviations(Glucoses(ps), meanX))
    ensures sumSqDiffY == Sum(Deviations(Unfiltereds(ps), meanY))
  {
    ghost var devX, devY := Deviations(Glucoses(ps), meanX), Deviations(Unfiltereds(ps), meanY);
    sumSqDiffX, sumSqDiffY := 0.0, 0.0;
    var i := 0;
    while i < |ps|
      invariant 0 <= i <= |ps|
      invariant sumSqDiffX == SumTo(devX, i) && sumSqDiffY == SumTo(devY, i)
    {
      var diff := ps[i].glucose - meanX;
      sumSqDiffX := sumSqDiffX + diff * diff;
      diff := ps[i].unfiltered - meanY;
      sumSqDiffY := sumSqDiffY + diff * diff;
      i := i + 1;
    }
  }

  /** Lines 72-76: each pair's time since the first one. */
  method ElapsedTimes(ps: seq<Pair>) returns (tarr: seq<int>)
    requires |ps| > 0
    ensures |tarr| == |ps|
    ensures forall j :: 0 <= j < |ps| ==> tarr[j] == Elapsed(ps, j)
  {
    var firstDate := ps[0].readDateMills;
    tarr := [];
    var i := 0;
    while i < |ps|
      invariant 0 <= i <= |ps| && |tarr| == i
      invariant forall j :: 0 <= j < i ==> tarr[j] == Elapsed(ps, j)
    {
      tarr := tarr + [ps[i].readDateMills - firstDate];
      i := i + 1;
    }
  }

  /** `lsrCalibration` as the source writes it. */
  method LsrCalibration(calibrationPairs: seq<Pair>, sqrt: real -> real) returns (r: FitResult)
    requires |calibrationPairs| >= 2
    ensures r == Lsr(calibrationPairs, sqrt)
  {
    var ps := calibrationPairs;
    var n := |ps|;
    var sumX, sumY := ColumnSums(ps);
    var meanX := sumX / (n as real);
    var meanY := sumY / (n as real);
    var sumSqDiffX, sumSqDiffY := SquaredDeviationSums(ps, meanX, meanY);
    var stddevX := sqrt(sumSqDiffX / ((n - 1) as real));
    var stddevY := sqrt(sumSqDiffY / ((n - 1) as real));
    var tarr := ElapsedTimes(ps);
    var isNaN, sumXY, sumXSq, sumYSq := WeightedSums(ps, tarr);
    assert meanX == Mean(Glucoses(ps)) && meanY == Mean(Unfiltereds(ps));
    assert stddevX == StdDev(Glucoses(ps), sqrt) && stddevY == StdDev(Unfiltereds(ps), sqrt);

    if isNaN {
      // the denominator is NaN, which compares unequal to 0
      if stddevX == 0.0 {
        r := NullFit;
      } else {
        r := NaNFit;
      }
      return;
    }
    r := FitFromSums(n as real, sumX, sumY, meanX, meanY, stddevX, stddevY, sumXY, sumXSq, sumYSq, sqrt);
  }
}
