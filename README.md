# Lookout calibration engine, modelled in Dafny

Lookout drives a Dexcom G5/G6 transmitter and keeps a calibration line of
its own. While the transmitter session runs, Lookout fits that line to the
transmitter's calibrated readings whenever its own last calibration is
missing, more than 5 mg/dL off, or single-point. After the session has
expired, it fits the line to blood-glucose checks instead. A calibration
is a line `unfiltered = slope * glucose + intercept` between the sensor's
raw ("unfiltered") signal and reference glucose values. This project models
`calibration.js`:

- `lsrCalibration`: a recency-weighted least-squares fit over calibration
  pairs, including its compounded weighted sums and its `null` and NaN
  outcomes (module `Regression`, properties in `RegressionProperties`);
- `singlePointCalibration`: the line through the origin and the newest
  pair (`PointCalibration`);
- `calcGlucose`: applying a calibration to a raw value, rounded and floored
  at 39 (`Glucose`);
- `calculateG5Calibration`: whether a live reading needs a new calibration,
  which history readings become pairs, and which fit is used
  (`LiveCalibration`);
- `expiredCalibration`: a calibration from reference blood-glucose checks
  after the transmitter session has expired, dropping checks taken during
  sensor warm-up (`ExpiredCalibration`);
- `interpolateUnfiltered`: the raw signal at a check's time, interpolated
  between two readings (`Interpolation`);
- the slope bounds `MAXSLOPE` = 12500 and `MINSLOPE` = 450 (`Records`), and
  the bound check both entry points apply to a least-squares fit
  (`Acceptance`).

Glucose, signal and multiplier values are `real`; timestamps are `int`
milliseconds. `Math.sqrt` is a parameter `sqrt: real -> real`; lemmas that
rely on its meaning require `Roots.IsSqrt(sqrt)`, which says that `sqrt(x)`
is the non-negative square root of every `x >= 0`. `Date.now()` is a
parameter `now`. `Math.round` is `floor(x + 0.5)`.

The loops of the source are methods (`Regression.LsrCalibration`,
`LiveCalibration.CollectPairs`, `ExpiredCalibration.ExpiredCalibration`, …)
proved equal to specification functions (`Regression.Lsr`,
`LiveCalibration.LivePairs`, `ExpiredCalibration.ExpiredOutcome`, …); the
properties are lemmas about those functions.

An entry point can end four ways (`Records.Outcome`): it returns `null`
(`NoCalibration`), a calibration (`Calibrated`), a calibration whose slope
and intercept are NaN (`NaNCalibration`), or it throws a TypeError reading
`.slope` of a `null` fit (`NullFitThrows`).

The NaN case: when the first and last pair share a timestamp, the second
weighting multiplier is `0/0`. NaN passes the `< 1 || > 2` boundary check,
so every compounded sum and the denominator are NaN. NaN is not 0, so
`lsrCalibration` returns `null` only when `stddevX` is 0. Otherwise it
returns a fit with NaN slope and intercept, which also passes the slope
bound check. `Regression.Lsr` returns `NaNFit` for it, and
`RegressionProperties.NoSpreadNaNAccepted` proves that such pairs with two
different glucose values are emitted as a NaN calibration. A least-squares
calibration with a slope outside [450, 12500] is therefore not impossible:
the slope is NaN. Such a calibration does not correct itself. Passed back
as the last calibration, it makes `calcGlucose` NaN, so `calErr > 5` is
false. Its type is not SinglePoint, so `calculateG5Calibration` returns
`null` at every later reading (calibration.js:156-164, 224-225).

Where the code and its comments disagree, the model follows the code:

- The warm-up filter of `expiredCalibration` compares against 15 hours
  (calibration.js:257), although its comments say 12 hours.
- The comment at calibration.js:185 says "at least 8" pairs, but the test
  is `> 8`.
- The comments at calibration.js:7-8, 184 and 270 say least squares is used
  from 3 pairs on, but both tests are `> 3` (calibration.js:187, 271). With
  exactly 3 pairs the code makes a single-point calibration
  (`ExpiredCalibration.FewPairsSinglePoint`,
  `LiveCalibration.LargeErrorMethod`).

The least-squares fit does not recover an arbitrary exact line
`y = m x + b`. The recency weights enter `sumXY`, `sumXSq` and `sumYSq` but
not `sumX` and `sumY`. Exact recovery is proved only for lines through the
origin (`RegressionProperties.ProportionalPairsRecovered`).
`RegressionProperties.InterceptLineNotRecovered` gives three pairs on
`y = x + 1` that are not fitted with slope 1 and intercept 1.

## Model

| member | source | states |
|---|---|---|
| Regression.StdDev | calibration.js:60-69 | the sample standard deviation of a column, with denominator n - 1 |
| Regression.Elapsed | calibration.js:72-76 | `tarr[i]`, the pair's time since the first pair |
| Regression.Spread | calibration.js:82 | `tarr[n-1]`, the time from the first pair to the last |
| Regression.Radicand | calibration.js:97 | one factor under the square root of the denominator: n times the compounded square sum minus the squared plain sum |
| Regression.Multiplier | calibration.js:78-88 | the recency multiplier of every pair lies in [1, 2] once the boundary check has run |
| Regression.Weights | calibration.js:80-88 | one multiplier per pair, each in [1, 2] |
| Regression.FitFromSums | calibration.js:97-105 | the fit from the sums is never NaN; it is `null` exactly when the denominator or stddevX is 0; a fitted line is of type LeastSquaresRegression and passes through (meanX, meanY) |
| Regression.Lsr | calibration.js:26-123 | pairs with no time spread never give a line; a NaN result happens only with no time spread; a fitted line is of type LeastSquaresRegression and passes through the mean point |
| Regression.WeightedSums | calibration.js:78-95 | the loop's sums are NaN exactly when the time spread is 0, otherwise the compounded weighted sums |
| Regression.ColumnSums | calibration.js:52-55 | the loop yields the sums of the glucose and signal columns |
| Regression.SquaredDeviationSums | calibration.js:60-66 | the loop yields the sums of squared deviations from the given means |
| Regression.ElapsedTimes | calibration.js:72-76 | each entry is the pair's time since the first pair |
| Regression.LsrCalibration | calibration.js:26-123 | the imperative fit returns exactly Lsr |
| RegressionProperties.NoResetWhenOrdered | calibration.js:80-88 | for time-ordered pairs with a positive spread, the boundary reset never fires and every multiplier is at most 1.5 |
| RegressionProperties.RadicandBound | calibration.js:97 | each radicand factor is at least n times the sum of squared deviations |
| RegressionProperties.RadicandsNonNegative | calibration.js:97 | both radicand factors and their product are non-negative, so the square root is real |
| RegressionProperties.RadicandPositive | calibration.js:97 | a column with two different values has a positive radicand factor |
| RegressionProperties.StdDevPositive | calibration.js:68-69 | a column with two different values has a positive standard deviation |
| RegressionProperties.StdDevZero | calibration.js:68-69 | a constant column has standard deviation 0 |
| RegressionProperties.StdDevScale | calibration.js:68-69 | scaling a column by m scales its standard deviation by abs(m) |
| RegressionProperties.VaryingPairsFit | calibration.js:97-104 | pairs spanning time, with two different glucose values and two different signals, always give a line |
| RegressionProperties.ConstantGlucoseNoFit | calibration.js:98-99 | pairs with one glucose value give `null` |
| RegressionProperties.ConstantSignalFlat | calibration.js:101-104 | pairs with one signal value give, if anything, the flat line at that signal |
| RegressionProperties.ProportionalMoments | calibration.js:52-69 | if signal = m * glucose, the signal's sum and mean are m times the glucose's, and its spread abs(m) times |
| RegressionProperties.ProportionalCompounds | calibration.js:92-94 | if signal = m * glucose, the compounded cross and signal sums are m and m*m times the glucose's compounded square sum |
| RegressionProperties.NoSpreadNaNAccepted | calibration.js:80-104 | pairs whose first and last timestamps agree, with two different glucose values, give the NaN fit, and the bound check of lines 190 and 274 lets it through as a NaN calibration |
| RegressionProperties.InterceptLineNotRecovered | calibration.js:26-123 | three pairs on y = x + 1, a millisecond apart, are not fitted with slope 1 and intercept 1 |
| RegressionProperties.ProportionalPairsRecovered | calibration.js:26-123 | pairs lying exactly on y = m x (m non-zero, two glucose values, a time spread) give back slope m and intercept 0 |
| PointCalibration.SinglePointFit | calibration.js:125-139 | a SinglePoint line through the origin and the newest pair |
| Glucose.Round | calibration.js:229 | the result is the integer nearest x, with halves rounded up |
| Glucose.LineValue | calibration.js:229 | the glucose on the calibration line for a raw value, before rounding |
| Glucose.CalcGlucose | calibration.js:228-235 | the glucose is the rounded inverse of the calibration line, and 39 whenever that is below 39.5 |
| Glucose.CalcGlucoseInvertsLine | calibration.js:228-235 | a signal on the calibration line at glucose g (g >= 40) is read back as g |
| Glucose.CalcGlucoseMonotone | calibration.js:228-235 | for a positive slope, a larger signal never gives a lower glucose |
| Interpolation.InterpolateUnfiltered | calibration.js:308-329 | no value exactly when the readings are more than 10 minutes apart |
| Interpolation.InterpolationMeetsEndpoints | calibration.js:309-323 | at either reading's time the value is that reading's signal |
| Interpolation.InterpolationIsLinear | calibration.js:309-323 | the values lie on the chord between the two readings |
| Interpolation.InterpolationBetween | calibration.js:309-323 | a time between the readings gets a value between their signals |
| Acceptance.AcceptLsr | calibration.js:188-204 | a calibration is returned exactly when the fit is a line with slope in [MINSLOPE, MAXSLOPE], and it is that line dated now with scale 1; a `null` fit throws and a NaN fit yields a NaN calibration dated now |
| Acceptance.AcceptSinglePoint | calibration.js:207-217 | the single-point line is returned as a calibration dated now with scale 1 |
| LiveCalibration.InRange | calibration.js:147-150 | the current reading may be calibrated when its glucose is in [80, 300], both ends included |
| LiveCalibration.Qualifies | calibration.js:179 | a history reading is usable when it is more than 12 minutes after the last transmitter calibration, strictly between 80 and 300, calibrated by the transmitter, and after the sensor insertion when one is known |
| LiveCalibration.Qualifying | calibration.js:179 | every reading kept is a qualifying history reading |
| LiveCalibration.Selected | calibration.js:175-182 | walking back from the newest reading, the qualifying readings until `room` are found, in history order |
| LiveCalibration.SelectedIsNewestQualifying | calibration.js:175-182 | the backward scan keeps the newest `room` qualifying readings (all of them if fewer) in history order |
| LiveCalibration.LivePairs | calibration.js:165-182 | the pairs: at most 9 selected history readings, then the current reading |
| LiveCalibration.LivePairsShape | calibration.js:165-182 | the pairs are the newest min(9, n) qualifying history readings in order, then the current reading; at most 10 in all |
| LiveCalibration.CalErr | calibration.js:152-161 | the calibration error is non-negative; 100 without a last calibration; otherwise 0 exactly when the last calibration reads the current glucose, and at most 5 exactly when it reads within 5 of it |
| LiveCalibration.NeedsCalibration | calibration.js:164 | a new calibration is considered without a last calibration, with an error above 5, or when the last one is single-point |
| LiveCalibration.LiveOutcome | calibration.js:141-226 | out-of-range readings give `null` whatever the last calibration; in-range readings whose calibration is still good give `null`; an accepted LSR slope is within the bounds; a single-point result needs an error above 5 and goes through the current reading and the origin; with an error of at most 5, any update uses more than 8 pairs |
| LiveCalibration.LargeErrorMethod | calibration.js:184-217 | with an error above 5, more than 3 pairs give the bounded least-squares result, otherwise the single-point line through the current reading |
| LiveCalibration.SmallErrorMethod | calibration.js:164-204 | with an error of at most 5, a single-point last calibration is replaced by the least-squares result when there are more than 8 pairs; any other case gives `null` |
| LiveCalibration.CollectPairs | calibration.js:165-182 | the backward loop yields exactly LivePairs |
| LiveCalibration.CalculateG5Calibration | calibration.js:141-226 | the imperative entry point returns exactly LiveOutcome |
| ExpiredCalibration.Usable | calibration.js:245 | a check is used when it is not a 'Unity' check and its unfiltered value is present and non-zero |
| ExpiredCalibration.UsablePairs | calibration.js:244-252 | at most one pair per check, each with a non-zero signal |
| ExpiredCalibration.UsablePairsAppend | calibration.js:244-252 | the pairs of two stretches of checks are those of the first followed by those of the second; with the one-check case, one pair per usable check in check order |
| ExpiredCalibration.UsablePairsNewest | calibration.js:244-252 | the newest pair comes from the newest usable check |
| ExpiredCalibration.UsablePairsCount | calibration.js:244-252 | there are no pairs exactly when no check is usable |
| ExpiredCalibration.InWarmUp | calibration.js:257 | a pair is in warm-up when it was read less than 15 hours after the sensor insertion, or when no insertion time is known |
| ExpiredCalibration.WarmUpEnd | calibration.js:255-260 | the start index is one past the last warm-up pair: every pair from it on is past warm-up |
| ExpiredCalibration.Kept | calibration.js:254-268 | the kept pairs are a non-empty suffix of the usable ones. Either all of them are past warm-up and the pair just before them is not, or the latest pair is in warm-up and is kept alone |
| ExpiredCalibration.ExpiredOutcome | calibration.js:239-306 | no usable check gives `null`; an accepted LSR slope is within the bounds; a single-point result goes through the origin and the newest usable check; a calibration is dated now with scale 1 |
| ExpiredCalibration.NoInsertSinglePoint | calibration.js:255-267 | without a sensor insertion time, only the newest usable check is kept, and the result is always the single-point calibration through it |
| ExpiredCalibration.ManyPairsUseLsr | calibration.js:270-287 | more than three kept pairs are all past warm-up, and the least-squares fit with its slope bound check is used |
| ExpiredCalibration.FewPairsSinglePoint | calibration.js:289-300 | one to three kept pairs give the single-point calibration through the newest usable check |
| ExpiredCalibration.LsrNeedsManyPairs | calibration.js:270-300 | a least-squares outcome (bounded line, NaN line or the throw on a `null` fit) needs more than three kept pairs |
| ExpiredCalibration.CollectUsable | calibration.js:243-252 | the push loop yields exactly UsablePairs |
| ExpiredCalibration.DropWarmUp | calibration.js:254-268 | the start-index loop, the clamp and the slice yield exactly Kept |
| ExpiredCalibration.ExpiredCalibration | calibration.js:239-306 | the imperative entry point returns exactly ExpiredOutcome |

## Left out

- `console.log` output, and the unused error estimates `yError` and `slopeError` (calibration.js:106-117).
- IEEE floating point. Values are exact reals. NaN is modelled only on the path where it decides the outcome (the `0/0` multiplier). Infinity and rounding error are not modelled.
- `Date.now()` and `Math.sqrt` are parameters. No property depends on the clock. `Math.sqrt` is assumed exact, through `Roots.IsSqrt`.
- Regression.Lsr: requires at least two pairs. Both callers pass more than three.
- Glucose.CalcGlucose: requires a non-zero slope; JavaScript would divide by 0.
- LiveCalibration.CalculateG5Calibration: requires a non-zero slope on the last calibration when the reading is in range, for the same reason. Out-of-range readings are answered before any division.
- PointCalibration.SinglePointFit: requires a non-zero glucose on the newest pair. A zero would divide by 0.
- ExpiredCalibration.ExpiredCalibration: requires a non-zero glucose on the newest usable check when one to three pairs are kept, for the same reason. No other path divides by a glucose.
- Interpolation.InterpolateUnfiltered: requires the two readings to have different timestamps. The time fraction is computed before the 10-minute check.
- RegressionProperties.ProportionalPairsRecovered: proves exact recovery only for lines through the origin. The weighting does not recover lines with a non-zero intercept.
- A `null` or `undefined` check type, a non-numeric `unfiltered`, and a `sensorInsert` that is an invalid Date. Option values stand for present or absent; no other JavaScript truthiness is modelled.
- The rest of the repository: the transmitter driver, the web client, and storage. None of them is part of this model.
