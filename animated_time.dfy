/** `src/components/ui/AnimatedTime.tsx`: a time in seconds split into the
    four digits the slot counters show (mm:ss). JavaScript numbers are
    modelled as reals; `Math.floor` is `.Floor` and `%` is JavaScript's
    remainder, which truncates toward zero. */
module AnimatedTime {

  /** JavaScript `Math.trunc`. */
  function Trunc(x: real): int
  {
    if x >= 0.0 then x.Floor else -((-x).Floor)
  }

  /** JavaScript `a % b` on numbers: the result takes the sign of `a`. */
  function JsRem(a: real, b: real): real
    requires b != 0.0
  {
    a - b * (Trunc(a / b) as real)
  }

  /** The values the component computes before rendering. */
  datatype ClockDigits = ClockDigits(
    minutes: int, seconds: int,
    minuteTens: int, minuteOnes: int,
    secondTens: int, secondOnes: int)

  /** `AnimatedTime({ timeInSeconds })` before rendering. */
  function Digits(timeInSeconds: real): (d: ClockDigits)
    ensures timeInSeconds >= 0.0 ==>
      && d.minutes == (timeInSeconds / 60.0).Floor
      && 0 <= d.seconds <= 59
      && 60 * d.minutes + d.seconds == timeInSeconds.Floor
    ensures timeInSeconds >= 0.0 ==>
      && d.minuteTens * 10 + d.minuteOnes == d.minutes
      && 0 <= d.minuteOnes <= 9
    ensures timeInSeconds >= 0.0 ==>
      && d.secondTens * 10 + d.secondOnes == d.seconds
      && 0 <= d.secondTens <= 5
      && 0 <= d.secondOnes <= 9
  {
    var minutes := (timeInSeconds / 60.0).Floor;
    var seconds := JsRem(timeInSeconds, 60.0).Floor;
    var d := ClockDigits(
      minutes, seconds,
      (minutes as real / 10.0).Floor, JsRem(minutes as real, 10.0).Floor,
      (seconds as real / 10.0).Floor, JsRem(seconds as real, 10.0).Floor);
    if timeInSeconds >= 0.0 then
      SplitSeconds(timeInSeconds);
      DigitSplit(minutes);
      DigitSplit(seconds);
      d
    else d
  }

  /** For t >= 0, the floor of t / 60 and the floor of t % 60 recombine to
      the floor of t, and the second part lies in [0, 59]. */
  lemma SplitSeconds(t: real)
    requires t >= 0.0
    ensures 0 <= JsRem(t, 60.0).Floor <= 59
    ensures 60 * (t / 60.0).Floor + JsRem(t, 60.0).Floor == t.Floor
  {
    var m := (t / 60.0).Floor;
    assert m >= 0;
    assert Trunc(t / 60.0) == m;
    var r := t - 60.0 * (m as real);
    assert 0.0 <= r < 60.0;
    assert JsRem(t, 60.0) == r;
    FloorShift(r, 60 * m);
    assert t == r + ((60 * m) as real);
  }

  /** Adding an integer commutes with the floor. */
  lemma FloorShift(r: real, k: int)
    ensures (r + k as real).Floor == r.Floor + k
  {
  }

  /** The decimal split of a non-negative whole number of minutes or seconds. */
  lemma DigitSplit(n: int)
    requires n >= 0
    ensures (n as real / 10.0).Floor == n / 10
    ensures JsRem(n as real, 10.0).Floor == n % 10
  {
    var q := n / 10;
    assert (n as real / 10.0) == (q as real) + ((n % 10) as real) / 10.0;
    FloorShift(((n % 10) as real) / 10.0, q);
    assert Trunc(n as real / 10.0) == q;
    assert JsRem(n as real, 10.0) == (n % 10) as real;
  }

  /** The minute-tens counter stays a single digit exactly below 100
      minutes (6000 seconds); from then on it shows 10 and more. */
  lemma MinuteTensSingleDigit(t: real)
    requires t >= 0.0
    ensures Digits(t).minuteTens <= 9 <==> t < 6000.0
  {
    var m := (t / 60.0).Floor;
    assert m < 100 <==> t < 6000.0;
  }
}
