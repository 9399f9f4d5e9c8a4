/**
 * The facial module's `format_duration`: a number of seconds as hours, minutes and seconds,
 * each printed with at least two digits and joined by ':'. Python's `//` and `%` floor; with
 * the positive divisors used here that is what Dafny's `/` and `%` compute.
 */
module Helpers {
  import opened Wrappers
  import opened Decimal

  datatype Hms = Hms(hours: int, minutes: int, seconds: int)

  /** The integer split `format_duration` makes. */
  function SplitDuration(s: int): (d: Hms)
    ensures 0 <= d.minutes < 60 && 0 <= d.seconds < 60
    ensures d.hours * 3600 + d.minutes * 60 + d.seconds == s
    ensures s >= 0 ==> d.hours >= 0
  {
    var r := s % 3600;
    assert r == (r / 60) * 60 + r % 60;
    assert s % 60 == r % 60;
    Hms(s / 3600, r / 60, s % 60)
  }

  /** `format_duration(seconds)`. */
  function FormatDuration(s: int): string {
    var d := SplitDuration(s);
    Format02d(d.hours) + ":" + Format02d(d.minutes) + ":" + Format02d(d.seconds)
  }

  /** Reads "HH:MM:SS" back; `None` for any other shape. */
  function ParseDuration(t: string): (r: Option<int>)
    ensures r.Some? ==> r.value >= 0
  {
    if |t| == 8 && t[2] == ':' && t[5] == ':' &&
       AllDigits(t[..2]) && AllDigits(t[3..5]) && AllDigits(t[6..])
    then Some(Value(t[..2]) * 3600 + Value(t[3..5]) * 60 + Value(t[6..]))
    else None
  }

  /** Below 100 hours the text is exactly "HH:MM:SS", and reading it back gives the duration. */
  lemma FormatDurationRoundTrip(s: int)
    requires 0 <= s < 360000
    ensures |FormatDuration(s)| == 8
    ensures ParseDuration(FormatDuration(s)) == Some(s)
  {
    var d := SplitDuration(s);
    Format02dSpec(d.hours);
    Format02dSpec(d.minutes);
    Format02dSpec(d.seconds);
    var h := Format02d(d.hours);
    var m := Format02d(d.minutes);
    var x := Format02d(d.seconds);
    var t := h + ":" + m + ":" + x;
    assert t[..2] == h && t[3..5] == m && t[6..] == x;
  }

  /** A negative duration prints a signed hour field. */
  lemma NegativeDuration(s: int)
    requires s < 0
    ensures FormatDuration(s)[0] == '-'
  {
    Format02dSpec(SplitDuration(s).hours);
  }
}
