/** `calcGlucose` (calibration.js:228-235): raw signal to mg/dL through a
    calibration line, rounded as JavaScript's `Math.round` does and clamped
    from below at 39. */
module Glucose {
  import opened Records

  /** `Math.round`: the nearest integer, halves rounding up. */
  function Round(x: real): (r: int)
    ensures r as real - 0.5 <= x < r as real + 0.5
  {
    (x + 0.5).Floor
  }

  /** Any integer within half a unit below and strictly less than half a
      unit above x is its rounding. */
  lemma RoundUnique(x: real, k: int)
    requires k as real - 0.5 <= x < k as real + 0.5
    ensures Round(x) == k
  {
  }

  /** The glucose the line (unfiltered = slope * glucose + intercept) gives
      for a raw reading, before rounding. */
  function LineValue(unfiltered: real, cal: Calibration): real
    requires cal.slope != 0.0
  {
    (unfiltered - cal.intercept) / cal.slope
  }

  /** Readings whose rounded value is under 40 are reported as 39 (the
      display floor of the uploader), all others as the rounding itself.
      The division requires a non-zero slope. */
  function CalcGlucose(sgv: Sgv, cal: Calibration): (r: int)
    requires cal.slope != 0.0
    ensures 39 <= r
    ensures r == 39 <==> LineValue(sgv.unfiltered, cal) < 39.5
    ensures r != 39 ==> r as real - 0.5 <= LineValue(sgv.unfiltered, cal) < r as real + 0.5
  {
    var glucose := Round(LineValue(sgv.unfiltered, cal));
    if glucose < 40 then 39 else glucose
  }

  /** Round trip: a reading that lies exactly on the calibration line at an
      integer glucose of 40 or more is reported as that glucose. */
  lemma CalcGlucoseInvertsLine(sgv: Sgv, cal: Calibration, g: int)
    requires cal.slope != 0.0 && 40 <= g
    requires sgv.unfiltered == cal.slope * (g as real) + cal.intercept
    ensures CalcGlucose(sgv, cal) == g
  {
    assert LineValue(sgv.unfiltered, cal) == g as real by {
      assert sgv.unfiltered - cal.intercept == cal.slope * (g as real);
    }
    RoundUnique(g as real, g);
  }

  /** With a positive slope a larger raw reading never reports a lower glucose. */
  lemma CalcGlucoseMonotone(a: Sgv, b: Sgv, cal: Calibration)
    requires 0.0 < cal.slope && a.unfiltered <= b.unfiltered
    ensures CalcGlucose(a, cal) <= CalcGlucose(b, cal)
  {
    var va, vb := LineValue(a.unfiltered, cal), LineValue(b.unfiltered, cal);
    assert va <= vb by {
      assert vb - va == (b.unfiltered - a.unfiltered) / cal.slope;
    }
  }
}
