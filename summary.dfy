/**
 * The completeness rule of the recording summary: the bytes captured are
 * compared with the bytes the nominal rate would give over the session's
 * duration, and a warning is raised when they differ by more than 10%.
 * Exact reals stand in for the source's floats.
 */
module Summary {
  import Frame

  const SampleRate: real := 16000.0

  function Abs(x: real): (r: real)
    ensures r >= 0.0 && (r == x || r == -x)
  {
    if x < 0.0 then -x else x
  }

  /** `duration * SAMPLE_RATE * SAMPLE_WIDTH`. */
  function ExpectedBytes(duration: real): (e: real)
    ensures duration > 0.0 <==> e > 0.0
  {
    duration * SampleRate * Frame.SampleWidth as real
  }

  /** `actual / expected`, taken as 0 when nothing is expected. */
  function DataRatio(actual: nat, duration: real): (r: real)
    ensures ExpectedBytes(duration) <= 0.0 ==> r == 0.0
    ensures ExpectedBytes(duration) > 0.0 ==> r * ExpectedBytes(duration) == actual as real
  {
    var expected := ExpectedBytes(duration);
    if expected > 0.0 then actual as real / expected else 0.0
  }

  /** The "significant difference" warning: `abs(1 - ratio) > 0.1`, a ratio outside [0.9, 1.1]. */
  predicate CompletenessWarning(actual: nat, duration: real)
    ensures CompletenessWarning(actual, duration)
        <==> DataRatio(actual, duration) < 0.9 || DataRatio(actual, duration) > 1.1
  {
    Abs(1.0 - DataRatio(actual, duration)) > 0.1
  }

  /** Without a positive duration the ratio is 0, so the warning always fires. */
  lemma WarnsWithoutDuration(actual: nat, duration: real)
    requires duration <= 0.0
    ensures CompletenessWarning(actual, duration)
  {
  }

  /** The rule in integer-friendly form: `10 * |expected - actual| > expected`. */
  lemma WarningCrossMultiplied(actual: nat, duration: real)
    requires duration > 0.0
    ensures CompletenessWarning(actual, duration)
        <==> 10.0 * Abs(ExpectedBytes(duration) - actual as real) > ExpectedBytes(duration)
  {
    RelativeDeviation(ExpectedBytes(duration), actual as real, DataRatio(actual, duration));
  }

  /** For a ratio `r = a / e` with `e > 0`, `|1 - r| > 0.1` is `10 * |e - a| > e`. */
  lemma RelativeDeviation(e: real, a: real, r: real)
    requires e > 0.0 && r * e == a
    ensures Abs(1.0 - r) > 0.1 <==> 10.0 * Abs(e - a) > e
  {
    var d := Abs(1.0 - r);
    var g := Abs(e - a);
    assert e - a == e * (1.0 - r);
    AbsScale(e, 1.0 - r);
    assert g == e * d;
    ScaleComparison(d, 0.1, e);
    assert d > 0.1 <==> g > e * 0.1;
    assert g > e * 0.1 <==> 10.0 * g > e;
  }

  lemma AbsScale(c: real, x: real)
    requires c > 0.0
    ensures Abs(c * x) == c * Abs(x)
  {
    if x < 0.0 {
      assert c * x < 0.0;
      assert -(c * x) == c * -x;
    } else {
      assert c * x >= 0.0;
    }
  }

  lemma ScaleComparison(a: real, b: real, c: real)
    requires c > 0.0
    ensures a > b <==> c * a > c * b
  {
    assert c * a - c * b == c * (a - b);
  }

  /** Ten seconds at exactly the nominal rate is complete: ratio 1, no warning. */
  lemma NominalRateIsComplete()
    ensures DataRatio(320000, 10.0) == 1.0
    ensures !CompletenessWarning(320000, 10.0)
  {
  }

  /** A buffer at least 20% short of the nominal rate is flagged. */
  lemma ShortfallWarns(actual: nat, duration: real)
    requires duration > 0.0
    requires actual as real <= 0.8 * ExpectedBytes(duration)
    ensures CompletenessWarning(actual, duration)
  {
    WarningCrossMultiplied(actual, duration);
  }
}
