/**
 * Elapsed-time text: `_formatDuration`'s "Hh Mm" and the status-bar clock
 * "H:MM:SS", computed with JavaScript's arithmetic on integer milliseconds.
 */
module Duration {
  import opened Decimal

  const MsPerSecond: nat := 1000
  const SecondsPerMinute: nat := 60
  const SecondsPerHour: nat := 3600

  /** Math.floor(a / b) for a positive divisor (Dafny's `/` then already rounds down). */
  function FloorDiv(a: int, b: int): (q: int)
    requires b > 0
    ensures q * b <= a < q * b + b
  {
    a / b
  }

  /** JavaScript's a % b for a positive divisor: the remainder takes the sign of a. */
  function JsRem(a: int, b: int): (r: int)
    requires b > 0
    ensures a >= 0 ==> 0 <= r < b
    ensures a < 0 ==> -b < r <= 0
    ensures exists q: int :: a == q * b + r
  {
    if a >= 0 then
      assert a == (a / b) * b + a % b;
      a % b
    else
      assert a == -((-a) / b) * b + -((-a) % b);
      -((-a) % b)
  }

  datatype HoursMinutes = HoursMinutes(hours: int, minutes: int)

  /** The two numbers `_formatDuration` prints for the span from startMs to endMs. */
  function DurationParts(startMs: int, endMs: int): (hm: HoursMinutes)
    ensures startMs <= endMs ==> hm.hours >= 0 && 0 <= hm.minutes < 60
    ensures startMs <= endMs ==>
      (hm.hours * 3600 + hm.minutes * 60) * 1000 <= endMs - startMs < (hm.hours * 3600 + hm.minutes * 60 + 60) * 1000
  {
    var totalSeconds := FloorDiv(endMs - startMs, MsPerSecond);
    HoursMinutes(FloorDiv(totalSeconds, SecondsPerHour),
                 FloorDiv(JsRem(totalSeconds, SecondsPerHour), SecondsPerMinute))
  }

  /** `_formatDuration(start, end)`: "{hours}h {minutes}m". */
  function FormatDuration(startMs: int, endMs: int): (s: string)
    ensures |s| >= 4 && s[|s| - 1] == 'm'
  {
    var hm := DurationParts(startMs, endMs);
    IntToDecimal(hm.hours) + "h " + IntToDecimal(hm.minutes) + "m"
  }

  /** a / b is the unique q with q * b <= a < q * b + b (b a constant at every use). */
  lemma DivIsUnique(a: int, b: int, q: int)
    requires b > 0 && q * b <= a < q * b + b
    ensures a / b == q
  {
    var r := a / b;
    if r < q {
      MulMonotone(r + 1, q, b);
    } else if r > q {
      MulMonotone(q + 1, r, b);
    }
  }

  lemma MulMonotone(x: int, y: int, b: int)
    requires x <= y && b > 0
    ensures x * b <= y * b
  {
  }

  /**
   * A span of h whole hours and m whole minutes (m < 60), plus less than
   * one further minute, formats as the digits of h, "h ", the digits of m, "m".
   */
  lemma FormatDurationMeaning(startMs: int, endMs: int, h: nat, m: nat)
    requires m < 60
    requires (h * 3600 + m * 60) * 1000 <= endMs - startMs < (h * 3600 + m * 60 + 60) * 1000
    ensures FormatDuration(startMs, endMs) == NatToDecimal(h) + "h " + NatToDecimal(m) + "m"
  {
    var t := (endMs - startMs) / 1000;
    assert h * 3600 + m * 60 <= t < h * 3600 + m * 60 + 60;
    DivIsUnique(t, 3600, h);
    assert JsRem(t, 3600) == t - h * 3600;
    DivIsUnique(t - h * 3600, 60, m);
  }

  /** The case the extension's test states: 2 h 35 min (plus under a minute) prints "2h 35m". */
  lemma TwoHoursThirtyFiveMinutes(startMs: int, slackMs: nat)
    requires slackMs < 60000
    ensures FormatDuration(startMs, startMs + (2 * 3600 + 35 * 60) * 1000 + slackMs) == "2h 35m"
  {
    FormatDurationMeaning(startMs, startMs + (2 * 3600 + 35 * 60) * 1000 + slackMs, 2, 35);
    assert NatToDecimal(2) == "2";
    assert NatToDecimal(35) == NatToDecimal(3) + "5";
  }

  datatype ClockParts = ClockParts(hours: int, minutes: int, seconds: int)

  /** The three numbers the status-bar clock shows after elapsedMs milliseconds. */
  function ClockPartsOf(elapsedMs: int): (c: ClockParts)
    ensures elapsedMs >= 0 ==> c.hours >= 0 && 0 <= c.minutes < 60 && 0 <= c.seconds < 60
    ensures elapsedMs >= 0 ==>
      (c.hours * 3600 + c.minutes * 60 + c.seconds) * 1000 <= elapsedMs < (c.hours * 3600 + c.minutes * 60 + c.seconds + 1) * 1000
  {
    var totalSeconds := FloorDiv(elapsedMs, MsPerSecond);
    ClockParts(FloorDiv(totalSeconds, SecondsPerHour),
               FloorDiv(JsRem(totalSeconds, SecondsPerHour), SecondsPerMinute),
               JsRem(totalSeconds, SecondsPerMinute))
  }

  /** The clock text of given hours, minutes and seconds, as the status bar builds it. */
  function ClockText(hours: int, minutes: int, seconds: int): string {
    IntToDecimal(hours) + ":" + PadStart(IntToDecimal(minutes), 2, '0') + ":" + PadStart(IntToDecimal(seconds), 2, '0')
  }

  /** The clock text: hours unpadded, minutes and seconds padded to two characters with "0". */
  function ClockString(elapsedMs: int): (s: string)
    ensures ':' in s
  {
    var c := ClockPartsOf(elapsedMs);
    var s := ClockText(c.hours, c.minutes, c.seconds);
    assert s[|IntToDecimal(c.hours)|] == ':';
    s
  }

  /** Whether s reads as "H:MM:SS" with hours h, minutes m and seconds sec. */
  ghost predicate ReadsAsClock(s: string, h: nat, m: nat, sec: nat) {
    var n := |s|;
    n >= 7 && s[n - 6] == ':' && s[n - 3] == ':'
    && IsDigits(s[..n - 6]) && IsDigits(s[n - 5..n - 3]) && IsDigits(s[n - 2..])
    && (n - 6 > 1 ==> s[0] != '0')
    && DigitsValue(s[..n - 6]) == h && DigitsValue(s[n - 5..n - 3]) == m && DigitsValue(s[n - 2..]) == sec
  }

  lemma ClockTextReads(h: nat, m: nat, sec: nat)
    requires m < 60 && sec < 60
    ensures ReadsAsClock(ClockText(h, m, sec), h, m, sec)
  {
    var hh := NatToDecimal(h);
    var mm := PadStart(NatToDecimal(m), 2, '0');
    var ss := PadStart(NatToDecimal(sec), 2, '0');
    TwoDigits(m);
    TwoDigits(sec);
    NatToDecimalRoundTrip(h);
    assert ClockText(h, m, sec) == hh + ":" + mm + ":" + ss;
    FieldsReadAsClock(hh, mm, ss, h, m, sec);
  }

  lemma FieldsReadAsClock(hh: string, mm: string, ss: string, h: nat, m: nat, sec: nat)
    requires |hh| >= 1 && IsDigits(hh) && (|hh| > 1 ==> hh[0] != '0') && DigitsValue(hh) == h
    requires |mm| == 2 && IsDigits(mm) && DigitsValue(mm) == m
    requires |ss| == 2 && IsDigits(ss) && DigitsValue(ss) == sec
    ensures ReadsAsClock(hh + ":" + mm + ":" + ss, h, m, sec)
  {
    ClockFields(hh, mm, ss);
  }

  /** Where the three fields sit in "H:MM:SS" when MM and SS have two characters. */
  lemma ClockFields(hh: string, mm: string, ss: string)
    requires |mm| == 2 && |ss| == 2
    ensures var s := hh + ":" + mm + ":" + ss;
            var n := |s|;
            n == |hh| + 6 && s[n - 6] == ':' && s[n - 3] == ':'
            && s[..n - 6] == hh && s[n - 5..n - 3] == mm && s[n - 2..] == ss
            && (|hh| > 0 ==> s[0] == hh[0])
  {
  }

  /**
   * For a non-negative elapsed time the clock reads "H:MM:SS": the hours are
   * unpadded digits, minutes and seconds are exactly two digits below 60,
   * and together they give the whole seconds elapsed.
   */
  lemma ClockStringReadsBack(elapsedMs: int)
    requires elapsedMs >= 0
    ensures exists h: nat, m: nat, sec: nat {:trigger ReadsAsClock(ClockString(elapsedMs), h, m, sec)} ::
              ReadsAsClock(ClockString(elapsedMs), h, m, sec) && m < 60 && sec < 60
              && h * 3600 + m * 60 + sec == elapsedMs / 1000
  {
    var c := ClockPartsOf(elapsedMs);
    ClockTextReads(c.hours, c.minutes, c.seconds);
    DivIsUnique(elapsedMs, 1000, c.hours * 3600 + c.minutes * 60 + c.seconds);
    var h: nat, m: nat, sec: nat := c.hours, c.minutes, c.seconds;
    assert ReadsAsClock(ClockString(elapsedMs), h, m, sec);
  }

  /**
   * A running timer whose begin instant lies one millisecond ahead of the
   * local clock (clock skew) shows every clock field as -1; a recorded
   * timesheet whose end lies one millisecond before its begin shows the
   * duration "-1h -1m".
   */
  lemma NegativeSpanShowsMinusOne()
    ensures ClockString(-1) == "-1:-1:-1"
    ensures FormatDuration(1, 0) == "-1h -1m"
  {
    assert NatToDecimal(1) == "1";
    assert IntToDecimal(-1) == "-1";
    assert PadStart("-1", 2, '0') == "-1";
    assert FloorDiv(-1, 1000) == -1;
    assert FloorDiv(-1, 3600) == -1;
    assert JsRem(-1, 3600) == -1;
    assert FloorDiv(-1, 60) == -1;
    assert JsRem(-1, 60) == -1;
    assert ClockPartsOf(-1) == ClockParts(-1, -1, -1);
    assert DurationParts(1, 0) == HoursMinutes(-1, -1);
  }
}
