/**
 * `formatDuration`: milliseconds rendered as "<minutes>:<seconds, two digits>".
 * Minutes are never folded into hours, so they grow without bound.
 */
module DurationFormat {
  import opened Wrappers


  predicate IsDigit(c: char) { '0' <= c <= '9' }

  /** Every character of `s` is a decimal digit. */
  predicate AllDigits(s: string)
  {
    s == [] || (IsDigit(s[|s| - 1]) && AllDigits(s[..|s| - 1]))
  }

  /** The value of a digit character; other characters count as 0. */
  function DigitValue(c: char): (d: nat)
    ensures d < 10
  {
    if IsDigit(c) then c as int - '0' as int else 0
  }

  function DigitChar(d: nat): (c: char)
    requires d < 10
    ensures IsDigit(c) && DigitValue(c) == d
  {
    ('0' as int + d) as char
  }

  /** The number a run of decimal digits denotes, most significant digit first. */
  function DigitsValue(s: string): nat
  {
    if s == [] then 0 else DigitsValue(s[..|s| - 1]) * 10 + DigitValue(s[|s| - 1])
  }

  /**
   * `n.toString()` for a non-negative integer: its decimal digits, with no
   * leading zero except for 0 itself.
   */
  function DecimalString(n: nat): (s: string)
    ensures |s| >= 1 && AllDigits(s)
    ensures DigitsValue(s) == n
    ensures (s[0] == '0') == (n == 0)
    ensures (|s| == 1) == (n < 10)
    decreases n
  {
    if n < 10 then [DigitChar(n)]
    else
      var front := DecimalString(n / 10);
      var s := front + [DigitChar(n % 10)];
      assert s[..|s| - 1] == front;
      s
  }

  /** `fill` repeated `count` times. */
  function Repeat(fill: char, count: nat): (r: string)
    ensures |r| == count && forall i :: 0 <= i < count ==> r[i] == fill
  {
    seq(count, _ => fill)
  }

  /** `s.padStart(width, fill)` for a one-character `fill`. */
  function PadStart(s: string, width: nat, fill: char): (r: string)
    ensures |r| == if |s| >= width then |s| else width
    ensures r[|r| - |s|..] == s
    ensures forall i :: 0 <= i < |r| - |s| ==> r[i] == fill
  {
    if |s| >= width then s else Repeat(fill, width - |s|) + s
  }

  /** The template `${minutes}:${seconds.toString().padStart(2, '0')}`. */
  function Render(minutes: nat, seconds: nat): string
  {
    DecimalString(minutes) + ":" + PadStart(DecimalString(seconds), 2, '0')
  }

  /** `formatDuration(durationMs)`: whole minutes, then whole seconds within the minute. */
  function FormatDuration(durationMs: nat): string
  {
    Render(durationMs / 60000, (durationMs % 60000) / 1000)
  }

  /**
   * Reads a "<minutes>:<two-digit seconds>" string back as a count of whole
   * seconds; None for anything that is not of that shape.
   */
  function ParseDuration(s: string): (r: Option<nat>)
    ensures r.Some? ==> |s| >= 4 && s[|s| - 3] == ':'
  {
    if |s| < 4 || s[|s| - 3] != ':' then None
    else
      var minutes, seconds := s[..|s| - 3], s[|s| - 2..];
      if !AllDigits(minutes) || !AllDigits(seconds) || DigitsValue(seconds) >= 60 then None
      else Some(DigitsValue(minutes) * 60 + DigitsValue(seconds))
  }

  /** Minutes and seconds of a duration are those of its count of whole seconds. */
  lemma MinutesAndSeconds(ms: nat)
    ensures ms / 60000 == (ms / 1000) / 60
    ensures (ms % 60000) / 1000 == (ms / 1000) % 60
  {
    var s, r0 := ms / 1000, ms % 1000;
    var m, k := s / 60, s % 60;
    var rest := k * 1000 + r0;
    assert ms == m * 60000 + rest && rest < 60000;
    assert ms / 60000 == m && ms % 60000 == rest;
    assert rest / 1000 == k;
  }

  /** A seconds value below 60, padded to two characters, is two digits denoting it. */
  lemma {:induction false} SecondsField(seconds: nat)
    requires seconds < 60
    ensures var f := PadStart(DecimalString(seconds), 2, '0');
      |f| == 2 && AllDigits(f) && DigitsValue(f) == seconds && f[0] <= '5'
    ensures seconds >= 10 ==> PadStart(DecimalString(seconds), 2, '0') == DecimalString(seconds)
  {
    var d := DecimalString(seconds);
    var f := PadStart(d, 2, '0');
    if seconds < 10 {
      assert f == ['0'] + d;
      assert f[..1] == ['0'];
      assert DigitsValue(f) == DigitsValue(['0']) * 10 + DigitValue(d[0]);
    } else {
      assert f == d;
      assert f[..1] == DecimalString(seconds / 10);
    }
  }

  /**
   * The rendered template is the minutes in decimal (however many digits),
   * a colon, then exactly two digits naming the seconds.
   */
  lemma RenderShape(minutes: nat, seconds: nat)
    requires seconds < 60
    ensures var r := Render(minutes, seconds);
      && |r| >= 4 && r[|r| - 3] == ':'
      && r[..|r| - 3] == DecimalString(minutes)
      && AllDigits(r[|r| - 2..])
      && DigitsValue(r[|r| - 2..]) == seconds
  {
    SecondsField(seconds);
    var mm := DecimalString(minutes);
    var ss := PadStart(DecimalString(seconds), 2, '0');
    var r := Render(minutes, seconds);
    assert r == mm + ":" + ss;
    assert r[..|r| - 3] == mm;
    assert r[|r| - 2..] == ss;
  }

  /** The seconds within the minute are below 60. */
  lemma SecondsBelowSixty(ms: nat, seconds: nat)
    requires seconds == (ms % 60000) / 1000
    ensures seconds < 60
  {
    var rest := ms % 60000;
    assert rest < 60000;
  }

  /** Parsing the rendered template gives minutes times sixty plus seconds. */
  lemma ParseRender(minutes: nat, seconds: nat, total: nat)
    requires seconds < 60 && total == minutes * 60 + seconds
    ensures ParseDuration(Render(minutes, seconds)) == Some(total)
  {
    SecondsField(seconds);
    ParseJoined(DecimalString(minutes), PadStart(DecimalString(seconds), 2, '0'));
  }

  /** Digits, a colon and two digits below 60 parse to minutes times sixty plus seconds. */
  lemma ParseJoined(minutes: string, seconds: string)
    requires |minutes| >= 1 && AllDigits(minutes)
    requires |seconds| == 2 && AllDigits(seconds) && DigitsValue(seconds) < 60
    ensures ParseDuration(minutes + ":" + seconds)
      == Some(DigitsValue(minutes) * 60 + DigitsValue(seconds))
  {
    var r := minutes + ":" + seconds;
    assert |r| >= 4 && r[|r| - 3] == ':';
    assert r[..|r| - 3] == minutes;
    assert r[|r| - 2..] == seconds;
    assert ParseDuration(r) == Some(DigitsValue(r[..|r| - 3]) * 60 + DigitsValue(r[|r| - 2..]));
  }

  /** Parsing a rendered duration gives back its count of whole seconds. */
  lemma ParseFormatDuration(ms: nat)
    ensures ParseDuration(FormatDuration(ms)) == Some(ms / 1000)
  {
    var q, k := ms / 60000, (ms % 60000) / 1000;
    WholeSeconds(ms, q, k);
    SecondsBelowSixty(ms, k);
    ParseRender(q, k, ms / 1000);
  }

  /** Minutes times sixty plus seconds is the count of whole seconds. */
  lemma WholeSeconds(ms: nat, minutes: nat, seconds: nat)
    requires minutes == ms / 60000 && seconds == (ms % 60000) / 1000
    ensures minutes * 60 + seconds == ms / 1000
  {
    MinutesAndSeconds(ms);
    var s := ms / 1000;
    assert s == (s / 60) * 60 + s % 60;
  }

  /**
   * Two durations render alike exactly when they agree to the whole second:
   * the milliseconds are floored away and nothing else is lost.
   */
  lemma FormatDurationSameSecond(a: nat, b: nat)
    ensures FormatDuration(a) == FormatDuration(b) <==> a / 1000 == b / 1000
  {
    ParseFormatDuration(a);
    ParseFormatDuration(b);
    MinutesAndSeconds(a);
    MinutesAndSeconds(b);
  }

  /** The worked examples: no rounding up and no hour rollover. */
  lemma FormatDurationExamples()
    ensures FormatDuration(0) == "0:00"
    ensures FormatDuration(61000) == "1:01"
    ensures FormatDuration(3600000) == "60:00"
  {
    assert DecimalString(60) == DecimalString(6) + ['0'];
  }
}
