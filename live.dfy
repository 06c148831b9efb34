/** `calculateG5Calibration` (calibration.js:141-226): whether a live
    reading calls for a new calibration, the pairs it is computed from, and
    which fit is used. */
module LiveCalibration {
  import opened Records
  import opened Roots
  import opened Regression
  import opened PointCalibration
  import opened Glucose
  import opened Acceptance

  /** The history reading count limit: at most 10 pairs, the current
      reading included. */
  const MaxPairs: nat := 10

  /** Twelve minutes in milliseconds: how long a transmitter calibration
      takes to show in the readings. */
  const SettleTime: int := 720000

  /** Line 147: the current reading is within [80, 300]; both ends pass. */
  predicate InRange(sgv: Sgv)
  {
    80.0 <= sgv.glucose <= 300.0
  }

  /** Line 179: a history reading usable as a calibration pair. Unlike the
      guard of line 147, both ends are excluded. */
  predicate Qualifies(sgv: Sgv, lastG5CalTime: int, sensorInsert: Option<int>)
  {
    && sgv.readDateMills > lastG5CalTime + SettleTime
    && sgv.glucose < 300.0 && sgv.glucose > 80.0
    && sgv.g5calibrated
    && (sensorInsert.None? || sgv.readDateMills > sensorInsert.value)
  }

  /** Every qualifying reading of the history, in history order. */
  function Qualifying(hist: seq<Sgv>, lastG5CalTime: int, sensorInsert: Option<int>): (r: seq<Sgv>)
    ensures |r| <= |hist|
    ensures forall k :: 0 <= k < |r| ==> r[k] in hist && Qualifies(r[k], lastG5CalTime, sensorInsert)
  {
    if |hist| == 0 then []
    else
      var earlier := Qualifying(hist[..|hist| - 1], lastG5CalTime, sensorInsert);
      if Qualifies(Last(hist), lastG5CalTime, sensorInsert) then earlier + [Last(hist)] else earlier
  }

  /** What the backward scan of lines 175-182 keeps: walking from the newest
      reading, the qualifying ones until `room` of them are found, in history
      order. */
  function Selected(hist: seq<Sgv>, room: nat, lastG5CalTime: int, sensorInsert: Option<int>): seq<Sgv>
  {
    if |hist| == 0 || room == 0 then []
    else if Qualifies(Last(hist), lastG5CalTime, sensorInsert) then
      Selected(hist[..|hist| - 1], room - 1, lastG5CalTime, sensorInsert) + [Last(hist)]
    else Selected(hist[..|hist| - 1], room, lastG5CalTime, sensorInsert)
  }

  /** The scan keeps exactly the newest `room` qualifying readings (all of
      them when there are fewer), in history order. */
  lemma {:induction false} SelectedIsNewestQualifying(hist: seq<Sgv>, room: nat, lastG5CalTime: int, sensorInsert: Option<int>)
    ensures var q := Qualifying(hist, lastG5CalTime, sensorInsert);
      var k := if room < |q| then room else |q|;
      Selected(hist, room, lastG5CalTime, sensorInsert) == q[|q| - k..]
  {
    if |hist| > 0 && room > 0 {
      var front := hist[..|hist| - 1];
      if Qualifies(Last(hist), lastG5CalTime, sensorInsert) {
        SelectedIsNewestQualifying(front, room - 1, lastG5CalTime, sensorInsert);
      } else {
        SelectedIsNewestQualifying(front, room, lastG5CalTime, sensorInsert);
      }
    }
  }

  function ToPair(sgv: Sgv): Pair
  {
    Pair(sgv.glucose, sgv.unfiltered, sgv.readDateMills)
  }

  function AsPairs(ss: seq<Sgv>): (r: seq<Pair>)
    ensures |r| == |ss|
  {
    seq(|ss|, k requires 0 <= k < |ss| => ToPair(ss[k]))
  }

  /** The calibration pairs of lines 165-182: the newest qualifying history
      readings, at most 9, followed by the current reading. */
  function LivePairs(hist: seq<Sgv>, currSGV: Sgv, lastG5CalTime: int, sensorInsert: Option<int>): seq<Sgv>
  {
    Selected(hist, MaxPairs - 1, lastG5CalTime, sensorInsert) + [currSGV]
  }

  /** The shape of the pair list: the current reading last, and before it
      the newest min(9, n) of the n qualifying history readings, in history
      order; hence at most 10 entries. */
  lemma LivePairsShape(hist: seq<Sgv>, currSGV: Sgv, lastG5CalTime: int, sensorInsert: Option<int>)
    ensures var ps := LivePairs(hist, currSGV, lastG5CalTime, sensorInsert);
      var q := Qualifying(hist, lastG5CalTime, sensorInsert);
      && 1 <= |ps| <= MaxPairs
      && Last(ps) == currSGV
      && |ps| - 1 == (if |q| < MaxPairs - 1 then |q| else MaxPairs - 1)
      && ps[..|ps| - 1] == q[|q| - (|ps| - 1)..]
      && (forall k :: 0 <= k < |ps| - 1 ==> ps[k] in hist && Qualifies(ps[k], lastG5CalTime, sensorInsert))
  {
    var q := Qualifying(hist, lastG5CalTime, sensorInsert);
    SelectedIsNewestQualifying(hist, MaxPairs - 1, lastG5CalTime, sensorInsert);
    var ps := LivePairs(hist, currSGV, lastG5CalTime, sensorInsert);
    assert ps[..|ps| - 1] == Selected(hist, MaxPairs - 1, lastG5CalTime, sensorInsert);
    forall k | 0 <= k < |ps| - 1
      ensures ps[k] in hist && Qualifies(ps[k], lastG5CalTime, sensorInsert)
    {
      assert ps[k] == q[|q| - (|ps| - 1) + k];
    }
  }

  /** Line 158: how far the last calibration is off for the current reading;
      100 when there is no last calibration (line 152). */
  function CalErr(lastCal: Option<Calibration>, currSGV: Sgv): (e: real)
    requires lastCal.Some? ==> lastCal.value.slope != 0.0
    ensures 0.0 <= e
    ensures lastCal.None? ==> e == 100.0
    ensures lastCal.Some? ==> var g := CalcGlucose(currSGV, lastCal.value) as real;
      && (e == 0.0 <==> g == currSGV.glucose)
      && (e <= 5.0 <==> currSGV.glucose - 5.0 <= g <= currSGV.glucose + 5.0)
  {
    if lastCal.Some? then Abs(CalcGlucose(currSGV, lastCal.value) as real - currSGV.glucose) else 100.0
  }

  /** Line 164. */
  predicate NeedsCalibration(lastCal: Option<Calibration>, calErr: real)
  {
    lastCal.None? || calErr > 5.0 || lastCal.value.calibrationType == SinglePoint
  }

  /** What `calculateG5Calibration` does. */
  function LiveOutcome(lastCal: Option<Calibration>, lastG5CalTime: int, sensorInsert: Option<int>,
                       hist: seq<Sgv>, currSGV: Sgv, now: int, sqrt: real -> real): (o: Outcome)
    requires lastCal.Some? && InRange(currSGV) ==> lastCal.value.slope != 0.0
    ensures !InRange(currSGV) ==> o == NoCalibration
    ensures InRange(currSGV) && !NeedsCalibration(lastCal, CalErr(lastCal, currSGV)) ==> o == NoCalibration
    ensures o.Calibrated? && o.cal.calibrationType == LeastSquaresRegression ==>
      MINSLOPE <= o.cal.slope <= MAXSLOPE
    ensures o.Calibrated? && o.cal.calibrationType == SinglePoint ==>
      && InRange(currSGV)
      && CalErr(lastCal, currSGV) > 5.0
      && o.cal.intercept == 0.0
      && o.cal.slope * currSGV.glucose == currSGV.unfiltered
    ensures o.NaNCalibration? ==> o.date == now
    ensures InRange(currSGV) && CalErr(lastCal, currSGV) <= 5.0 && o != NoCalibration ==>
      |LivePairs(hist, currSGV, lastG5CalTime, sensorInsert)| > 8
  {
    if !InRange(currSGV) then NoCalibration
    else
      var calErr := CalErr(lastCal, currSGV);
      if !NeedsCalibration(lastCal, calErr) then NoCalibration
      else
        var calPairs := LivePairs(hist, currSGV, lastG5CalTime, sensorInsert);
        if (calErr > 5.0 && |calPairs| > 3) || |calPairs| > 8 then
          AcceptLsr(Lsr(AsPairs(calPairs), sqrt), now)
        else if calErr > 5.0 && |calPairs| > 0 then
          AcceptSinglePoint(SinglePointFit(AsPairs(calPairs)), now)
        else NoCalibration
  }

  /** With an error above 5: more than 3 pairs give the least-squares
      result, otherwise the single-point line through the current reading. */
  lemma LargeErrorMethod(lastCal: Option<Calibration>, lastG5CalTime: int, sensorInsert: Option<int>,
                         hist: seq<Sgv>, currSGV: Sgv, now: int, sqrt: real -> real)
    requires lastCal.Some? ==> lastCal.value.slope != 0.0
    requires InRange(currSGV) && CalErr(lastCal, currSGV) > 5.0
    ensures var ps := LivePairs(hist, currSGV, lastG5CalTime, sensorInsert);
      var o := LiveOutcome(lastCal, lastG5CalTime, sensorInsert, hist, currSGV, now, sqrt);
      && (|ps| > 3 ==> o == AcceptLsr(Lsr(AsPairs(ps), sqrt), now))
      && (|ps| <= 3 ==> o == Calibrated(Calibration(now, 1.0, 0.0, currSGV.unfiltered / currSGV.glucose, SinglePoint)))
  {
    LivePairsShape(hist, currSGV, lastG5CalTime, sensorInsert);
  }

  /** With an error of at most 5 (so there is a last calibration), only a
      single-point last calibration is replaced, and only by the
      least-squares result over more than 8 pairs; otherwise nothing changes. */
  lemma SmallErrorMethod(lastCal: Option<Calibration>, lastG5CalTime: int, sensorInsert: Option<int>,
                         hist: seq<Sgv>, currSGV: Sgv, now: int, sqrt: real -> real)
    requires lastCal.Some? ==> lastCal.value.slope != 0.0
    requires InRange(currSGV) && CalErr(lastCal, currSGV) <= 5.0
    ensures lastCal.Some?
    ensures var ps := LivePairs(hist, currSGV, lastG5CalTime, sensorInsert);
      var o := LiveOutcome(lastCal, lastG5CalTime, sensorInsert, hist, currSGV, now, sqrt);
      && (lastCal.value.calibrationType == SinglePoint && |ps| > 8 ==> o == AcceptLsr(Lsr(AsPairs(ps), sqrt), now))
      && (lastCal.value.calibrationType != SinglePoint || |ps| <= 8 ==> o == NoCalibration)
  {
  }

  /** Lines 175-182: the backward scan, prepending each qualifying reading
      until 10 pairs are held. */
  method CollectPairs(glucoseHist: seq<Sgv>, currSGV: Sgv, lastG5CalTime: int, sensorInsert: Option<int>)
    returns (calPairs: seq<Sgv>)
    ensures calPairs == LivePairs(glucoseHist, currSGV, lastG5CalTime, sensorInsert)
  {
    calPairs := [currSGV];
    var i := |glucoseHist| - 1;
    assert glucoseHist[..i + 1] == glucoseHist;
    while i >= 0 && |calPairs| < MaxPairs
      invariant -1 <= i < |glucoseHist|
      invariant 1 <= |calPairs| <= MaxPairs
      invariant Selected(glucoseHist[..i + 1], MaxPairs - |calPairs|, lastG5CalTime, sensorInsert) + calPairs
             == LivePairs(glucoseHist, currSGV, lastG5CalTime, sensorInsert)
      decreases i + 1
    {
      var sgv := glucoseHist[i];
      assert glucoseHist[..i + 1][..i] == glucoseHist[..i];
      if Qualifies(sgv, lastG5CalTime, sensorInsert) {
        calPairs := [sgv] + calPairs;
      }
      i := i - 1;
    }
  }

  /** `calculateG5Calibration`; `now` stands for `Date.now()` and `sqrt` for
      `Math.sqrt`. */
  method CalculateG5Calibration(lastCal: Option<Calibration>, lastG5CalTime: int, sensorInsert: Option<int>,
                                glucoseHist: seq<Sgv>, currSGV: Sgv, now: int, sqrt: real -> real)
    returns (o: Outcome)
    requires lastCal.Some? && InRange(currSGV) ==> lastCal.value.slope != 0.0
    ensures o == LiveOutcome(lastCal, lastG5CalTime, sensorInsert, glucoseHist, currSGV, now, sqrt)
  {
    if currSGV.glucose > 300.0 || currSGV.glucose < 80.0 {
      return NoCalibration;
    }
    var calErr := 100.0;
    if lastCal.Some? {
      var calValue := CalcGlucose(currSGV, lastCal.value);
      calErr := Abs(calValue as real - currSGV.glucose);
    }
    if lastCal.None? || calErr > 5.0 || lastCal.value.calibrationType == SinglePoint {
      var calPairs := CollectPairs(glucoseHist, currSGV, lastG5CalTime, sensorInsert);
      if (calErr > 5.0 && |calPairs| > 3) || |calPairs| > 8 {
        var calResult := LsrCalibration(AsPairs(calPairs), sqrt);
        return AcceptLsr(calResult, now);
      } else if calErr > 5.0 && |calPairs| > 0 {
        var calResult := SinglePointFit(AsPairs(calPairs));
        return AcceptSinglePoint(calResult, now);
      } else if calErr > 5.0 {
        return NoCalibration;
      }
    }
    return NoCalibration;
  }
}
