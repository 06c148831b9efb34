/** Values exchanged by the calibration engine of calibration.js. */
module Records {

  datatype Option<+T> = None | Some(value: T)

  /** Slope bounds for an accepted least-squares calibration (calibration.js:19-20). */
  const MAXSLOPE: real := 12500.0
  const MINSLOPE: real := 450.0

  /** One calibration pair: the reference ("true") glucose, the sensor's raw
      unfiltered signal and its read time in milliseconds since the epoch. */
  datatype Pair = Pair(glucose: real, unfiltered: real, readDateMills: int)

  /** A sensor glucose value from the transmitter history. */
  datatype Sgv = Sgv(glucose: real, unfiltered: real, readDateMills: int, g5calibrated: bool)

  /** A reference blood-glucose check. `unfiltered` is None when the check
      carries no raw value (JavaScript `undefined` or `null`). */
  datatype BgCheck = BgCheck(kind: string, glucose: real, unfiltered: Option<real>, dateMills: int)

  datatype CalibrationType = LeastSquaresRegression | SinglePoint

  /** What `lsrCalibration` and `singlePointCalibration` return. */
  datatype Fit = Fit(slope: real, yIntercept: real, calibrationType: CalibrationType)

  /** The calibration record emitted to the caller; `scale` is always 1. */
  datatype Calibration = Calibration(date: int, scale: real, intercept: real, slope: real, calibrationType: CalibrationType)

  /** The three ways `lsrCalibration` can end: a fitted line, `null`
      (degenerate denominator or zero deviation), or a line whose slope and
      intercept are NaN because every recency multiplier is 0/0. */
  datatype FitResult = Fitted(fit: Fit) | NullFit | NaNFit

  /** What a calibration entry point does for its caller:
      - NoCalibration: returns `null`;
      - Calibrated: returns a calibration with real slope and intercept;
      - NaNCalibration: returns a LeastSquaresRegression calibration dated
        `date` whose slope and intercept are NaN;
      - NullFitThrows: reads `.slope` of a `null` fit and throws a TypeError. */
  datatype Outcome =
    | NoCalibration
    | Calibrated(cal: Calibration)
    | NaNCalibration(date: int)
    | NullFitThrows

  function Last<T>(s: seq<T>): T
    requires |s| > 0
  {
    s[|s| - 1]
  }

  /** The calibration record built from a fit at time `now`. */
  function Emit(fit: Fit, now: int): Calibration
  {
    Calibration(now, 1.0, fit.yIntercept, fit.slope, fit.calibrationType)
  }
}
