/** `singlePointCalibration` (calibration.js:125-139): the line through the
    origin and the most recent pair. */
module PointCalibration {
  import opened Records

  /** The slope is unfiltered / glucose of the last pair, so the line passes
      through that pair; the intercept is 0. The division is only defined for
      a non-zero glucose, which is required here. */
  function SinglePointFit(ps: seq<Pair>): (r: Fit)
    requires |ps| > 0 && Last(ps).glucose != 0.0
    ensures r.calibrationType == SinglePoint && r.yIntercept == 0.0
    ensures r.slope * Last(ps).glucose == Last(ps).unfiltered
  {
    Fit(Last(ps).unfiltered / Last(ps).glucose, 0.0, SinglePoint)
  }
}
