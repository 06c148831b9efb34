/** `expiredCalibration` (calibration.js:239-306): a calibration computed
    from reference blood-glucose checks once the transmitter's own session
    has expired. */
module ExpiredCalibration {
  import opened Records
  import opened Regression
  import opened PointCalibration
  import opened Acceptance

  /** Fifteen hours in milliseconds: checks taken this soon after sensor
      insertion are dropped when later ones exist. The comment at line 254
      speaks of 12 hours; the code compares against 15. */
  const WarmUp: int := 54000000

  /** Line 245: the check is not a 'Unity' check and has a truthy
      (present and non-zero) unfiltered value. */
  predicate Usable(check: BgCheck)
  {
    check.kind != "Unity" && check.unfiltered.Some? && check.unfiltered.value != 0.0
  }

  function CheckPair(check: BgCheck): Pair
    requires check.unfiltered.Some?
  {
    Pair(check.glucose, check.unfiltered.value, check.dateMills)
  }

  /** Lines 243-251: the pairs of the usable checks, in check order. */
  function UsablePairs(bgChecks: seq<BgCheck>): (r: seq<Pair>)
    ensures |r| <= |bgChecks|
    ensures forall k :: 0 <= k < |r| ==> r[k].unfiltered != 0.0
  {
    if |bgChecks| == 0 then []
    else
      var earlier := UsablePairs(bgChecks[..|bgChecks| - 1]);
      if Usable(Last(bgChecks)) then earlier + [CheckPair(Last(bgChecks))] else earlier
  }

  /** Every usable check contributes a pair, and only those do. */
  lemma {:induction false} UsablePairsCount(bgChecks: seq<BgCheck>)
    ensures (|UsablePairs(bgChecks)| == 0) == (forall k :: 0 <= k < |bgChecks| ==> !Usable(bgChecks[k]))
  {
    if |bgChecks| > 0 {
      var front := bgChecks[..|bgChecks| - 1];
      UsablePairsCount(front);
      if forall k :: 0 <= k < |front| ==> !Usable(front[k]) {
        assert forall k :: 0 <= k < |bgChecks| - 1 ==> bgChecks[k] == front[k];
      } else {
        var k :| 0 <= k < |front| && Usable(front[k]);
        assert bgChecks[k] == front[k];
      }
    }
  }

  /** The usable pairs of two stretches of checks are those of the first
      followed by those of the second: with the one-check case read off the
      definition, one pair per usable check, in check order. */
  lemma {:induction false} UsablePairsAppend(a: seq<BgCheck>, b: seq<BgCheck>)
    ensures UsablePairs(a + b) == UsablePairs(a) + UsablePairs(b)
  {
    if |b| > 0 {
      var front := b[..|b| - 1];
      assert (a + b)[..|a + b| - 1] == a + front;
      assert Last(a + b) == Last(b);
      UsablePairsAppend(a, front);
    } else {
      assert a + b == a;
    }
  }

  /** The newest pair comes from the newest usable check. */
  lemma {:induction false} UsablePairsNewest(bgChecks: seq<BgCheck>)
    requires UsablePairs(bgChecks) != []
    ensures exists k ::
              && 0 <= k < |bgChecks| && Usable(bgChecks[k])
              && Last(UsablePairs(bgChecks)) == CheckPair(bgChecks[k])
              && (forall j :: k < j < |bgChecks| ==> !Usable(bgChecks[j]))
  {
    var n := |bgChecks|;
    var front := bgChecks[..n - 1];
    if Usable(bgChecks[n - 1]) {
      assert Last(UsablePairs(bgChecks)) == CheckPair(bgChecks[n - 1]);
    } else {
      assert UsablePairs(bgChecks) == UsablePairs(front);
      UsablePairsNewest(front);
      var k :| 0 <= k < |front| && Usable(front[k])
        && Last(UsablePairs(front)) == CheckPair(front[k])
        && (forall j :: k < j < |front| ==> !Usable(front[j]));
      assert bgChecks[k] == front[k];
      assert forall j :: k < j < n - 1 ==> bgChecks[j] == front[j];
    }
  }

  /** Line 257: the pair was read within the warm-up after sensor insertion;
      without an insertion time every pair counts as warming up. */
  predicate InWarmUp(p: Pair, sensorInsert: Option<int>)
  {
    sensorInsert.None? || p.readDateMills - sensorInsert.value < WarmUp
  }

  /** Lines 255-259: one past the last warm-up pair, 0 when there is none. */
  function WarmUpEnd(ps: seq<Pair>, sensorInsert: Option<int>): (r: nat)
    ensures r <= |ps|
    ensures r > 0 ==> InWarmUp(ps[r - 1], sensorInsert)
    ensures forall k :: r <= k < |ps| ==> !InWarmUp(ps[k], sensorInsert)
  {
    if |ps| == 0 then 0
    else if InWarmUp(Last(ps), sensorInsert) then |ps|
    else WarmUpEnd(ps[..|ps| - 1], sensorInsert)
  }

  /** Lines 254-267: the pairs kept for the fit. They are a suffix of the
      usable ones, never empty when there is a usable pair. Either every
      kept pair is past warm-up and the pair just before them (if any) is
      not, or the latest pair is in warm-up and it alone is kept. */
  function Kept(ps: seq<Pair>, sensorInsert: Option<int>): (kept: seq<Pair>)
    ensures |kept| <= |ps| && kept == ps[|ps| - |kept|..]
    ensures |ps| > 0 ==> |kept| > 0
    ensures |ps| > 0 ==>
      || ((forall k :: 0 <= k < |kept| ==> !InWarmUp(kept[k], sensorInsert))
          && (|kept| < |ps| ==> InWarmUp(ps[|ps| - |kept| - 1], sensorInsert)))
      || (InWarmUp(Last(ps), sensorInsert) && kept == [Last(ps)])
  {
    if |ps| == 0 then []
    else
      var end := WarmUpEnd(ps, sensorInsert);
      if end >= |ps| then
        assert ps[|ps| - 1..] == [Last(ps)];
        ps[|ps| - 1..]
      else
        assert forall k :: 0 <= k < |ps| - end ==> ps[end..][k] == ps[end + k];
        ps[end..]
  }

  /** The outcome of `expiredCalibration`. Only the single-point path
      divides by a glucose, that of the newest usable check. */
  function ExpiredOutcome(bgChecks: seq<BgCheck>, sensorInsert: Option<int>, now: int, sqrt: real -> real): (o: Outcome)
    requires 1 <= |Kept(UsablePairs(bgChecks), sensorInsert)| <= 3 ==> Last(UsablePairs(bgChecks)).glucose != 0.0
    ensures UsablePairs(bgChecks) == [] ==> o == NoCalibration
    ensures o.Calibrated? && o.cal.calibrationType == LeastSquaresRegression ==>
      MINSLOPE <= o.cal.slope <= MAXSLOPE
    ensures o.Calibrated? && o.cal.calibrationType == SinglePoint ==>
      var p := Last(UsablePairs(bgChecks));
      o.cal.intercept == 0.0 && o.cal.slope * p.glucose == p.unfiltered
    ensures o.NaNCalibration? ==> o.date == now
    ensures o.Calibrated? ==> o.cal.date == now && o.cal.scale == 1.0
  {
    var calPairs := Kept(UsablePairs(bgChecks), sensorInsert);
    if |calPairs| > 3 then AcceptLsr(Lsr(calPairs, sqrt), now)
    else if |calPairs| > 0 then
      assert Last(calPairs) == Last(UsablePairs(bgChecks));
      AcceptSinglePoint(SinglePointFit(calPairs), now)
    else NoCalibration
  }

  /** Without a sensor insertion time every pair counts as warming up, so
      only the latest check is kept and the result is always a single-point
      calibration through it. */
  lemma NoInsertSinglePoint(bgChecks: seq<BgCheck>, now: int, sqrt: real -> real)
    requires UsablePairs(bgChecks) != [] && Last(UsablePairs(bgChecks)).glucose != 0.0
    ensures var o := ExpiredOutcome(bgChecks, None, now, sqrt);
      var p := Last(UsablePairs(bgChecks));
      o == Calibrated(Calibration(now, 1.0, 0.0, p.unfiltered / p.glucose, SinglePoint))
  {
    var ps := UsablePairs(bgChecks);
    assert WarmUpEnd(ps, None) == |ps|;
    assert Kept(ps, None) == [Last(ps)];
  }

  /** With more than three kept pairs the least-squares fit is used, and a
      fit whose slope is out of range yields no calibration. */
  lemma ManyPairsUseLsr(bgChecks: seq<BgCheck>, sensorInsert: Option<int>, now: int, sqrt: real -> real)
    requires |Kept(UsablePairs(bgChecks), sensorInsert)| > 3
    ensures var kept := Kept(UsablePairs(bgChecks), sensorInsert);
      && (forall k :: 0 <= k < |kept| ==> !InWarmUp(kept[k], sensorInsert))
      && ExpiredOutcome(bgChecks, sensorInsert, now, sqrt) == AcceptLsr(Lsr(kept, sqrt), now)
  {
    var kept := Kept(UsablePairs(bgChecks), sensorInsert);
    assert kept != [Last(UsablePairs(bgChecks))];
  }

  /** One to three kept pairs give the single-point calibration through the
      newest usable check, whether or not a sensor insertion time is known. */
  lemma FewPairsSinglePoint(bgChecks: seq<BgCheck>, sensorInsert: Option<int>, now: int, sqrt: real -> real)
    requires 1 <= |Kept(UsablePairs(bgChecks), sensorInsert)| <= 3
    requires Last(UsablePairs(bgChecks)).glucose != 0.0
    ensures var p := Last(UsablePairs(bgChecks));
      ExpiredOutcome(bgChecks, sensorInsert, now, sqrt)
        == Calibrated(Calibration(now, 1.0, 0.0, p.unfiltered / p.glucose, SinglePoint))
  {
    assert Last(Kept(UsablePairs(bgChecks), sensorInsert)) == Last(UsablePairs(bgChecks));
  }

  /** A least-squares outcome (a bounded line, a NaN line or the throw on a
      `null` fit) needs more than three kept pairs. */
  lemma LsrNeedsManyPairs(bgChecks: seq<BgCheck>, sensorInsert: Option<int>, now: int, sqrt: real -> real)
    requires 1 <= |Kept(UsablePairs(bgChecks), sensorInsert)| <= 3 ==> Last(UsablePairs(bgChecks)).glucose != 0.0
    ensures var o := ExpiredOutcome(bgChecks, sensorInsert, now, sqrt);
      ((o.Calibrated? && o.cal.calibrationType == LeastSquaresRegression) || o.NaNCalibration? || o == NullFitThrows)
      ==> |Kept(UsablePairs(bgChecks), sensorInsert)| > 3
  {
    var kept := Kept(UsablePairs(bgChecks), sensorInsert);
    if |kept| == 0 {
      assert ExpiredOutcome(bgChecks, sensorInsert, now, sqrt) == NoCalibration;
    } else if |kept| <= 3 {
      FewPairsSinglePoint(bgChecks, sensorInsert, now, sqrt);
    }
  }

  /** Lines 243-252: push a pair for every usable check. */
  method CollectUsable(bgChecks: seq<BgCheck>) returns (calPairs: seq<Pair>)
    ensures calPairs == UsablePairs(bgChecks)
  {
    calPairs := [];
    for i := 0 to |bgChecks|
      invariant calPairs == UsablePairs(bgChecks[..i])
    {
      assert bgChecks[..i + 1][..i] == bgChecks[..i];
      if bgChecks[i].kind != "Unity" && bgChecks[i].unfiltered.Some? && bgChecks[i].unfiltered.value != 0.0 {
        calPairs := calPairs + [CheckPair(bgChecks[i])];
      }
    }
    assert bgChecks[..|bgChecks|] == bgChecks;
  }

  /** Lines 254-268: find where warm-up ends, keep at least the latest
      pair, and drop the rest. */
  method DropWarmUp(calPairs: seq<Pair>, sensorInsert: Option<int>) returns (kept: seq<Pair>)
    ensures kept == Kept(calPairs, sensorInsert)
  {
    kept := calPairs;
    if |calPairs| > 0 {
      var calPairsStart := 0;
      for i := 0 to |calPairs|
        invariant calPairsStart == WarmUpEnd(calPairs[..i], sensorInsert)
      {
        assert calPairs[..i + 1][..i] == calPairs[..i];
        if sensorInsert.None? || calPairs[i].readDateMills - sensorInsert.value < WarmUp {
          calPairsStart := i + 1;
        }
      }
      assert calPairs[..|calPairs|] == calPairs;

      if calPairsStart >= |calPairs| {
        calPairsStart := |calPairs| - 1;
      }
      kept := calPairs[calPairsStart..];
    }
  }

  /** `expiredCalibration`; `now` stands for `Date.now()` and `sqrt` for
      `Math.sqrt`. */
  method ExpiredCalibration(bgChecks: seq<BgCheck>, sensorInsert: Option<int>, now: int, sqrt: real -> real)
    returns (o: Outcome)
    requires 1 <= |Kept(UsablePairs(bgChecks), sensorInsert)| <= 3 ==> Last(UsablePairs(bgChecks)).glucose != 0.0
    ensures o == ExpiredOutcome(bgChecks, sensorInsert, now, sqrt)
  {
    var calPairs := CollectUsable(bgChecks);
    calPairs := DropWarmUp(calPairs, sensorInsert);

    if |calPairs| > 3 {
      var calResult := LsrCalibration(calPairs, sqrt);
      o := AcceptLsr(calResult, now);
    } else if |calPairs| > 0 {
      var calResult := SinglePointFit(calPairs);
      o := AcceptSinglePoint(calResult, now);
    } else {
      o := NoCalibration;
    }
  }
}
