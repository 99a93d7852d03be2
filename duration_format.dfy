/**
 * The hours/minutes/seconds split the dashboard shows for a duration
 * (`toHours()`, `toMinutes() % 60`, `getSeconds() % 60`, all Java long
 * arithmetic). The two-digit zero padding of the rendered string is not modelled.
 */
module DurationFormat {
  import opened JavaMath

  datatype Hms = Hms(hours: int, minutes: int, seconds: int)

  /** The number of seconds an h/m/s triple stands for. */
  function ToSeconds(t: Hms): int
  {
    3600 * t.hours + 60 * t.minutes + t.seconds
  }

  /**
   * `formatDuration`: the triple adds back up to the duration, and for a
   * non-negative duration minutes and seconds are below sixty.
   */
  function FormatDuration(d: int): (t: Hms)
    ensures ToSeconds(t) == d
    ensures d >= 0 ==> t.hours >= 0 && 0 <= t.minutes < 60 && 0 <= t.seconds < 60
    ensures d < 0 ==> t.hours <= 0 && -60 < t.minutes <= 0 && -60 < t.seconds <= 0
  {
    TruncDivNested(d);
    TruncRemBounds(d, 60);
    TruncRemBounds(TruncDiv(d, 60), 60);
    TruncRemBounds(d, 3600);
    Hms(TruncDiv(d, 3600), TruncRem(TruncDiv(d, 60), 60), TruncRem(d, 60))
  }

  /** Every normalised triple is what `formatDuration` shows for its own number of seconds. */
  lemma {:induction false} FormatRoundTrip(t: Hms)
    requires t.hours >= 0 && 0 <= t.minutes < 60 && 0 <= t.seconds < 60
    ensures FormatDuration(ToSeconds(t)) == t
  {
    var d := ToSeconds(t);
    var f := FormatDuration(d);
    var q := 60 * t.hours + t.minutes;
    assert d == 60 * q + t.seconds;
    assert d / 60 == q;
    assert d % 60 == t.seconds;
    TruncRemBounds(d, 60);
    TruncRemBounds(q, 60);
    assert q / 60 == t.hours && q % 60 == t.minutes;
    assert f.seconds == t.seconds;
    assert f.minutes == t.minutes;
  }
}
