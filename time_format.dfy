/** The `m:ss` clock text under the carousel's progress bar (and its copy on the
    landing page): whole minutes, a colon, and whole seconds padded to two digits. */
module TimeFormat {

  import opened Wrappers

  predicate IsDigit(c: char) { '0' <= c <= '9' }

  predicate AllDigits(s: string) { forall i :: 0 <= i < |s| ==> IsDigit(s[i]) }

  function DigitChar(d: nat): (c: char)
    requires d < 10
    ensures IsDigit(c)
  {
    ('0' as int + d) as char
  }

  function DigitValue(c: char): (d: nat)
    requires IsDigit(c)
    ensures d < 10
  {
    c as int - '0' as int
  }

  /** How a template literal renders a non-negative integer: decimal digits with
      no leading zero. */
  function Decimal(n: nat): (r: string)
    ensures 1 <= |r| && AllDigits(r)
    ensures (r[0] == '0') == (n == 0)
    ensures (|r| == 1) == (n < 10)
  {
    if n < 10 then [DigitChar(n)] else Decimal(n / 10) + [DigitChar(n % 10)]
  }

  /** The number a string of decimal digits denotes. */
  function Value(s: string): nat
    requires AllDigits(s)
  {
    if s == [] then 0 else Value(s[..|s| - 1]) * 10 + DigitValue(s[|s| - 1])
  }

  /** Reading back a rendered natural gives the natural. */
  lemma {:induction false} DecimalRoundTrip(n: nat)
    ensures Value(Decimal(n)) == n
  {
    if n >= 10 {
      DecimalRoundTrip(n / 10);
      var s := Decimal(n);
      assert s[..|s| - 1] == Decimal(n / 10);
    }
  }

  /** The clock text for a whole number of seconds. */
  function FormatTime(seconds: nat): string
  {
    var mins := seconds / 60;
    var secs := seconds % 60;
    Decimal(mins) + ":" + (if secs < 10 then "0" else "") + Decimal(secs)
  }

  /** Reads an `m:ss` clock text back to seconds: digits, a colon, exactly two
      digits below 60. */
  function ParseClock(text: string): Option<nat>
  {
    if |text| >= 4 && text[|text| - 3] == ':'
       && AllDigits(text[..|text| - 3]) && AllDigits(text[|text| - 2..])
       && Value(text[|text| - 2..]) < 60
    then Some(Value(text[..|text| - 3]) * 60 + Value(text[|text| - 2..]))
    else None
  }

  /** The seconds field: two digits denoting `secs`. */
  lemma PaddedSeconds(secs: nat)
    requires secs < 60
    ensures var p := (if secs < 10 then "0" else "") + Decimal(secs);
            |p| == 2 && AllDigits(p) && Value(p) == secs
  {
    DecimalRoundTrip(secs);
    var p := (if secs < 10 then "0" else "") + Decimal(secs);
    if secs < 10 {
      assert p[..1] == "0";
    }
  }

  /** Reading back text assembled from a minutes field and a seconds field. */
  lemma ParseClockOf(m: string, p: string)
    requires 1 <= |m| && AllDigits(m) && |p| == 2 && AllDigits(p) && Value(p) < 60
    ensures ParseClock(m + ":" + p) == Some(Value(m) * 60 + Value(p))
  {
    var text := m + ":" + p;
    assert text[..|text| - 3] == m;
    assert text[|text| - 2..] == p;
  }

  /** The clock text shows exactly `seconds`: minutes times 60 plus the padded
      seconds field (which is below 60) gives back the input. */
  lemma FormatTimeRoundTrip(seconds: nat)
    ensures ParseClock(FormatTime(seconds)) == Some(seconds)
  {
    var mins, secs := seconds / 60, seconds % 60;
    var p := (if secs < 10 then "0" else "") + Decimal(secs);
    assert FormatTime(seconds) == Decimal(mins) + ":" + p;
    PaddedSeconds(secs);
    DecimalRoundTrip(mins);
    ParseClockOf(Decimal(mins), p);
  }

  /** Sample renderings: seconds below 10 get a leading zero, minutes do not. */
  lemma FormatTimeSamples()
    ensures FormatTime(0) == "0:00"
    ensures FormatTime(65) == "1:05"
    ensures FormatTime(600) == "10:00"
  {
  }

  /** Two different times never show the same text. */
  lemma FormatTimeInjective(a: nat, b: nat)
    requires FormatTime(a) == FormatTime(b)
    ensures a == b
  {
    FormatTimeRoundTrip(a);
    FormatTimeRoundTrip(b);
  }

  /** The source's own computation on a non-negative number of seconds:
      `Math.floor(t / 60)` minutes and `Math.floor(t % 60)` seconds, where `%`
      of a non-negative number is `t - 60 * floor(t / 60)`. */
  function FormatSeconds(t: real): string
    requires t >= 0.0
  {
    var mins := (t / 60.0).Floor;
    var secs := (t - 60.0 * mins as real).Floor;
    assert mins >= 0 && secs >= 0 by { FloorParts(t); }
    Decimal(mins) + ":" + (if secs < 10 then "0" else "") + Decimal(secs)
  }

  /** For non-negative `t`, flooring `t / 60` and `t % 60` gives the quotient
      and remainder of the whole seconds `floor(t)`. */
  lemma FloorParts(t: real)
    requires t >= 0.0
    ensures t.Floor >= 0
    ensures (t / 60.0).Floor == t.Floor / 60
    ensures (t - 60.0 * ((t / 60.0).Floor as real)).Floor == t.Floor % 60
  {
    var f := t.Floor;
    var q, r := f / 60, f % 60;
    assert f == 60 * q + r;
    assert (60 * q) as real <= t < (60 * q + 60) as real;
    assert q as real <= t / 60.0 < q as real + 1.0;
    assert (t / 60.0).Floor == q;
    assert r as real <= t - 60.0 * (q as real) < r as real + 1.0;
  }

  /** The fractional part of the time never shows: the text is that of the
      whole seconds, so everything proved of `FormatTime` holds of it. */
  lemma FormatSecondsIsWholeSeconds(t: real)
    requires t >= 0.0
    ensures t.Floor >= 0 && FormatSeconds(t) == FormatTime(t.Floor)
  {
    FloorParts(t);
  }
}
