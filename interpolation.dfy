/** `interpolateUnfiltered` (calibration.js:308-329): the raw signal at a
    reference check's time, interpolated between the readings before and
    after it. */
module Interpolation {
  import opened Records

  /** The longest gap interpolated over: 10 minutes in milliseconds. */
  const MaxGap: int := 600000

  /** None when the readings are more than 10 minutes apart. The quotient
      (valueTime - before) / (after - before) is taken before that check,
      so the readings must not share a timestamp. */
  function InterpolateUnfiltered(before: Sgv, after: Sgv, valueTime: int): (r: Option<real>)
    requires after.readDateMills != before.readDateMills
    ensures r.None? <==> after.readDateMills - before.readDateMills > MaxGap
  {
    var totalTime := after.readDateMills - before.readDateMills;
    var totalDelta := after.unfiltered - before.unfiltered;
    var fractionTime := ((valueTime - before.readDateMills) as real) / (totalTime as real);
    if totalTime > MaxGap then None
    else Some(totalDelta * fractionTime + before.unfiltered)
  }

  /** At either reading's own time the interpolation gives that reading's value. */
  lemma InterpolationMeetsEndpoints(before: Sgv, after: Sgv)
    requires after.readDateMills != before.readDateMills
    requires after.readDateMills - before.readDateMills <= MaxGap
    ensures InterpolateUnfiltered(before, after, before.readDateMills) == Some(before.unfiltered)
    ensures InterpolateUnfiltered(before, after, after.readDateMills) == Some(after.unfiltered)
  {
    var totalTime := (after.readDateMills - before.readDateMills) as real;
    WholeFraction(totalTime);
  }

  lemma WholeFraction(t: real)
    requires t != 0.0
    ensures t / t == 1.0
  {
    assert (t / t) * t == 1.0 * t;
  }

  /** The interpolated values lie on one straight line: between two times
      they change by the time difference times the slope of the chord. */
  lemma InterpolationIsLinear(before: Sgv, after: Sgv, t1: int, t2: int)
    requires after.readDateMills != before.readDateMills
    requires after.readDateMills - before.readDateMills <= MaxGap
    ensures var totalTime := (after.readDateMills - before.readDateMills) as real;
      (InterpolateUnfiltered(before, after, t2).value - InterpolateUnfiltered(before, after, t1).value) * totalTime
      == ((t2 - t1) as real) * (after.unfiltered - before.unfiltered)
  {
    var totalTime := (after.readDateMills - before.readDateMills) as real;
    var totalDelta := after.unfiltered - before.unfiltered;
    var f1 := ((t1 - before.readDateMills) as real) / totalTime;
    var f2 := ((t2 - before.readDateMills) as real) / totalTime;
    assert (totalDelta * f2 - totalDelta * f1) * totalTime == totalDelta * (f2 * totalTime - f1 * totalTime);
  }

  /** A time between the two readings gets a value between theirs. */
  lemma InterpolationBetween(before: Sgv, after: Sgv, valueTime: int)
    requires before.readDateMills < after.readDateMills
    requires after.readDateMills - before.readDateMills <= MaxGap
    requires before.readDateMills <= valueTime <= after.readDateMills
    ensures var v := InterpolateUnfiltered(before, after, valueTime).value;
      (before.unfiltered <= after.unfiltered ==> before.unfiltered <= v <= after.unfiltered) &&
      (after.unfiltered <= before.unfiltered ==> after.unfiltered <= v <= before.unfiltered)
  {
    var totalTime := (after.readDateMills - before.readDateMills) as real;
    var f := ((valueTime - before.readDateMills) as real) / totalTime;
    assert 0.0 <= f <= 1.0 by {
      assert f * totalTime == (valueTime - before.readDateMills) as real;
    }
    var d := after.unfiltered - before.unfiltered;
    if 0.0 <= d {
      assert 0.0 <= d * f <= d * 1.0;
    } else {
      assert d * 1.0 <= d * f <= 0.0;
    }
  }
}
