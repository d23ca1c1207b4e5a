/** The two clock renderings of the application: `FormatDuration` of the
    long-file processor (whole seconds, unbounded hours) and `FormatTimeSpan`
    of the real-time transcriber and the main window (the components of a
    `TimeSpan`, whose hours wrap at 24). Both print `h:mm:ss` when the hours
    are positive and `m:ss` otherwise. Times are in whole milliseconds. */
module TimeFormat {
  import opened Wrappers
  import opened Text

  /** C#'s integer `/` for a positive divisor: truncation toward zero. */
  function TruncDiv(a: int, b: int): (q: int)
    requires b > 0
    ensures a >= 0 ==> q == a / b
    ensures a < 0 ==> q == -((-a) / b)
  {
    if a >= 0 then a / b else -((-a) / b)
  }

  /** C#'s integer `%` for a positive divisor: the remainder takes the sign
      of the dividend. */
  function TruncMod(a: int, b: int): (r: int)
    requires b > 0
    ensures a == b * TruncDiv(a, b) + r
    ensures a >= 0 ==> r == a % b
  {
    a - b * TruncDiv(a, b)
  }

  /** The shared rendering: `{h}:{m:D2}:{s:D2}` when `h > 0`, else `{m}:{s:D2}`. */
  function RenderClock(h: int, m: int, s: int): string
  {
    if h > 0 then IntToString(h) + ":" + Pad2(m) + ":" + Pad2(s)
    else IntToString(m) + ":" + Pad2(s)
  }

  /** The hours/minutes/seconds of a whole number of seconds, as
      `ChunkedProcessor.FormatDuration` computes them. */
  function DurationParts(total: nat): (r: (nat, nat, nat))
    ensures r.0 * 3600 + r.1 * 60 + r.2 == total
    ensures r.1 < 60 && r.2 < 60
  {
    (total / 3600, (total % 3600) / 60, total % 60)
  }

  /** `ChunkedProcessor.FormatDuration`; its callers pass only non-negative
      second counts. */
  function FormatDuration(total: nat): string
  {
    var (h, m, s) := DurationParts(total);
    RenderClock(h, m, s)
  }

  /** The `Hours`, `Minutes` and `Seconds` components of a `TimeSpan` of `ms`
      milliseconds: each truncates toward zero, and the hours wrap at 24
      because whole days are a separate component. */
  function SpanParts(ms: int): (int, int, int)
  {
    (TruncMod(TruncDiv(ms, 3600000), 24),
     TruncMod(TruncDiv(ms, 60000), 60),
     TruncMod(TruncDiv(ms, 1000), 60))
  }

  /** `FormatTimeSpan` of `RealTimeTranscriber` and `MainWindow` (the two
      copies are identical). */
  function FormatTimeSpan(ms: int): string
  {
    var (h, m, s) := SpanParts(ms);
    RenderClock(h, m, s)
  }

  /** Reads a clock string back: `m:ss` or `h:mm:ss`, every field a
      non-empty run of decimal digits. */
  function ParseClock(s: string): Option<nat>
  {
    ParseFields(SplitOn(s, ':'))
  }

  /** The value of the colon-separated fields of a clock string. */
  function ParseFields(f: seq<string>): Option<nat>
  {
    if |f| == 2 && |f[0]| > 0 && |f[1]| > 0 && IsDigits(f[0]) && IsDigits(f[1]) then
      Some(ParseNat(f[0]) * 60 + ParseNat(f[1]))
    else if |f| == 3 && |f[0]| > 0 && |f[1]| > 0 && |f[2]| > 0
            && IsDigits(f[0]) && IsDigits(f[1]) && IsDigits(f[2]) then
      Some(ParseNat(f[0]) * 3600 + ParseNat(f[1]) * 60 + ParseNat(f[2]))
    else None
  }

  lemma DigitsHaveNoColon(s: string)
    requires IsDigits(s)
    ensures ':' !in s
  {
  }

  /** Rendering non-negative components and parsing them back recovers
      `h*3600 + m*60 + s`; three fields exactly when `h > 0`. */
  lemma RenderClockRoundTrip(h: nat, m: nat, s: nat)
    ensures ParseClock(RenderClock(h, m, s)) == Some(h * 3600 + m * 60 + s)
    ensures |SplitOn(RenderClock(h, m, s), ':')| == (if h > 0 then 3 else 2)
  {
    if h > 0 {
      RenderedHoursParse(h, m, s);
    } else {
      RenderedMinutesParse(h, m, s);
    }
  }

  lemma RenderedHoursParse(h: nat, m: nat, s: nat)
    requires h > 0
    ensures ParseClock(RenderClock(h, m, s)) == Some(h * 3600 + m * 60 + s)
    ensures |SplitOn(RenderClock(h, m, s), ':')| == 3
  {
    var hs, pm, ps := NatToString(h), Pad2(m), Pad2(s);
    SplitRenderedHours(h, m, s);
    ParseNatToString(h);
    FieldsOfThree(hs, pm, ps);
  }

  lemma RenderedMinutesParse(h: nat, m: nat, s: nat)
    requires h == 0
    ensures ParseClock(RenderClock(h, m, s)) == Some(m * 60 + s)
    ensures |SplitOn(RenderClock(h, m, s), ':')| == 2
  {
    var ms, ps := NatToString(m), Pad2(s);
    SplitRenderedMinutes(m, s);
    ParseNatToString(m);
    FieldsOfTwo(ms, ps);
  }

  /** Three non-empty digit fields are read as hours, minutes, seconds. */
  lemma FieldsOfThree(a: string, b: string, c: string)
    requires |a| > 0 && |b| > 0 && |c| > 0 && IsDigits(a) && IsDigits(b) && IsDigits(c)
    ensures ParseFields([a, b, c]) == Some(ParseNat(a) * 3600 + ParseNat(b) * 60 + ParseNat(c))
  {
    var f := [a, b, c];
    assert f[0] == a && f[1] == b && f[2] == c;
  }

  /** Two non-empty digit fields are read as minutes and seconds. */
  lemma FieldsOfTwo(a: string, b: string)
    requires |a| > 0 && |b| > 0 && IsDigits(a) && IsDigits(b)
    ensures ParseFields([a, b]) == Some(ParseNat(a) * 60 + ParseNat(b))
  {
    var f := [a, b];
    assert f[0] == a && f[1] == b;
  }

  /** With hours, the rendering splits at its colons into the three fields. */
  lemma SplitRenderedHours(h: nat, m: nat, s: nat)
    requires h > 0
    ensures SplitOn(RenderClock(h, m, s), ':') == [NatToString(h), Pad2(m), Pad2(s)]
  {
    var hs, pm, ps := NatToString(h), Pad2(m), Pad2(s);
    DigitsHaveNoColon(hs);
    DigitsHaveNoColon(pm);
    DigitsHaveNoColon(ps);
    SplitOnFree(ps, ':');
    SplitOnCons(pm, ps, ':');
    assert RenderClock(h, m, s) == hs + [':'] + (pm + [':'] + ps);
    SplitOnCons(hs, pm + [':'] + ps, ':');
  }

  /** Without hours, the rendering splits at its colon into two fields. */
  lemma SplitRenderedMinutes(m: nat, s: nat)
    ensures SplitOn(RenderClock(0, m, s), ':') == [NatToString(m), Pad2(s)]
  {
    var ms, ps := NatToString(m), Pad2(s);
    DigitsHaveNoColon(ms);
    DigitsHaveNoColon(ps);
    SplitOnFree(ps, ':');
    assert RenderClock(0, m, s) == ms + [':'] + ps;
    SplitOnCons(ms, ps, ':');
  }

  /** `FormatDuration` is undone by `ParseClock`: no duration is lost or
      confused with another, and the `h:mm:ss` form appears exactly from one
      hour on. */
  lemma FormatDurationRoundTrip(total: nat)
    ensures ParseClock(FormatDuration(total)) == Some(total)
    ensures |SplitOn(FormatDuration(total), ':')| == (if total >= 3600 then 3 else 2)
  {
    var (h, m, s) := DurationParts(total);
    RenderClockRoundTrip(h, m, s);
  }

  /** For a non-negative span, `FormatTimeSpan` prints the time of day the
      span reaches: its whole seconds modulo one day, formatted like a
      duration. Spans of a day or more therefore lose their days. */
  lemma TimeSpanIsDurationModDay(ms: int)
    requires ms >= 0
    ensures FormatTimeSpan(ms) == FormatDuration((ms / 1000) % 86400)
    ensures ParseClock(FormatTimeSpan(ms)) == Some((ms / 1000) % 86400)
  {
    SpanPartsOfDay(ms);
    FormatDurationRoundTrip((ms / 1000) % 86400);
  }

  /** The components of a non-negative span are those of its seconds
      within the day. */
  lemma SpanPartsOfDay(ms: int)
    requires ms >= 0
    ensures SpanParts(ms) == DurationParts((ms / 1000) % 86400)
  {
    var sec := ms / 1000;
    SecondsOfSpan(ms);
    var rem := sec % 86400;
    DayComponents(sec);
    assert SpanParts(ms) == ((sec / 3600) % 24, (sec / 60) % 60, sec % 60);
  }

  /** Whole hours and minutes of a span count its whole seconds. */
  lemma SecondsOfSpan(ms: int)
    requires ms >= 0
    ensures ms / 3600000 == (ms / 1000) / 3600
    ensures ms / 60000 == (ms / 1000) / 60
  {
  }

  /** Hours, minutes and seconds within the day of a second count. */
  lemma DayComponents(sec: nat)
    ensures (sec / 3600) % 24 == (sec % 86400) / 3600
    ensures (sec / 60) % 60 == ((sec % 86400) % 3600) / 60
    ensures sec % 60 == (sec % 86400) % 60
  {
    var days, rem := sec / 86400, sec % 86400;
    HoursOfDay(days, rem);
    MinutesOfDay(days, rem);
    SecondsOfDay(days, rem);
  }

  /** Division by 60 is determined by any quotient and remainder. */
  lemma DivBy60(a: int, q: int, r: int)
    requires a == 60 * q + r && 0 <= r < 60
    ensures a / 60 == q && a % 60 == r
  {
  }

  /** Division by 3600 is determined by any quotient and remainder. */
  lemma DivBy3600(a: int, q: int, r: int)
    requires a == 3600 * q + r && 0 <= r < 3600
    ensures a / 3600 == q && a % 3600 == r
  {
  }

  /** Division by 24 is determined by any quotient and remainder. */
  lemma DivBy24(a: int, q: int, r: int)
    requires a == 24 * q + r && 0 <= r < 24
    ensures a / 24 == q && a % 24 == r
  {
  }

  lemma HoursOfDay(days: nat, rem: nat)
    requires rem < 86400
    ensures ((86400 * days + rem) / 3600) % 24 == rem / 3600
  {
    var h, x := rem / 3600, rem % 3600;
    DivBy3600(rem, h, x);
    DivBy3600(86400 * days + rem, 24 * days + h, x);
    DivBy24(24 * days + h, days, h);
  }

  lemma MinutesOfDay(days: nat, rem: nat)
    requires rem < 86400
    ensures ((86400 * days + rem) / 60) % 60 == (rem % 3600) / 60
  {
    var h, x := rem / 3600, rem % 3600;
    var m, y := x / 60, x % 60;
    DivBy3600(rem, h, x);
    DivBy60(x, m, y);
    DivBy60(86400 * days + rem, 60 * (24 * days + h) + m, y);
    DivBy60(60 * (24 * days + h) + m, 24 * days + h, m);
  }

  lemma SecondsOfDay(days: nat, rem: nat)
    requires rem < 86400
    ensures (86400 * days + rem) % 60 == rem % 60
  {
    DivBy60(rem, rem / 60, rem % 60);
    DivBy60(86400 * days + rem, 1440 * days + rem / 60, rem % 60);
  }
}
