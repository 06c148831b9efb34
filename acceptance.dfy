/** What both entry points do with a least-squares result
    (calibration.js:187-203 and 271-288): read its slope, refuse slopes
    outside [MINSLOPE, MAXSLOPE], and otherwise emit it. */
module Acceptance {
  import opened Records

  function AcceptLsr(r: FitResult, now: int): (o: Outcome)
    ensures o.Calibrated? <==> r.Fitted? && MINSLOPE <= r.fit.slope <= MAXSLOPE
    ensures o.Calibrated? ==> o.cal == Emit(r.fit, now)
    ensures o == NullFitThrows <==> r == NullFit
    ensures o.NaNCalibration? <==> r == NaNFit
    ensures o.NaNCalibration? ==> o.date == now
  {
    match r
    case NullFit =>
      // reading `.slope` of null throws
      NullFitThrows
    case NaNFit =>
      // NaN compares false with both bounds and passes the check
      NaNCalibration(now)
    case Fitted(fit) =>
      if fit.slope > MAXSLOPE || fit.slope < MINSLOPE then NoCalibration
      else Calibrated(Emit(fit, now))
  }

  /** The record emitted for a single-point fit (lines 206-216 and 290-297). */
  function AcceptSinglePoint(fit: Fit, now: int): (o: Outcome)
    ensures o.Calibrated? && o.cal.date == now && o.cal.scale == 1.0
    ensures o.cal.slope == fit.slope && o.cal.intercept == fit.yIntercept
    ensures o.cal.calibrationType == fit.calibrationType
  {
    Calibrated(Emit(fit, now))
  }
}
