/**
 * The seconds formatter of `corewidgets.py` (`format_secs`, `secs_from_qtime`)
 * and the `"hh:mm:ss"` text the time tables store and parse.
 */
module TimeFormat {
  import opened PyValues

  /** The `(hours, minutes, seconds)` tuple `format_secs(secs, pretty=False)` returns. */
  datatype Hms = Hms(hours: int, minutes: int, seconds: int)

  /** A `QTime` with its millisecond part 0, as every time parsed from `"hh:mm:ss"` is. */
  datatype QTime = QTime(hour: int, minute: int, second: int)

  /**
   * `format_secs(secs, pretty=False)`: two `divmod(_, 60)` steps. Python's
   * `divmod` floors, and for the positive divisor 60 so do Dafny's `/` and
   * `%`, so this also holds for negative `secs`.
   */
  function FormatSecs(secs: int): (t: Hms)
    ensures 0 <= t.minutes < 60 && 0 <= t.seconds < 60
    ensures t.hours * 3600 + t.minutes * 60 + t.seconds == secs
    ensures secs >= 0 ==> t.hours >= 0
    ensures 0 <= secs < 86400 ==> t.hours < 24
  {
    var mins, s := secs / 60, secs % 60;
    Hms(mins / 60, mins % 60, s)
  }

  /** `secs_from_qtime` with `msec() == 0`. */
  function SecsFromQTime(t: QTime): (r: int)
    ensures 0 <= t.hour < 24 && 0 <= t.minute < 60 && 0 <= t.second < 60 ==> 0 <= r < 86400
  {
    t.hour * 3600 + t.minute * 60 + t.second
  }

  /** The decomposition `format_secs` computes is the only one with minutes and seconds below 60. */
  lemma FormatSecsUnique(secs: int, t: Hms)
    requires 0 <= t.minutes < 60 && 0 <= t.seconds < 60
    requires t.hours * 3600 + t.minutes * 60 + t.seconds == secs
    ensures FormatSecs(secs) == t
  {
    var mins := t.hours * 60 + t.minutes;
    assert secs == mins * 60 + t.seconds;
    assert secs / 60 == mins && secs % 60 == t.seconds;
    assert mins / 60 == t.hours && mins % 60 == t.minutes;
  }

  /** `secs_from_qtime` inverts `format_secs` on whole seconds ... */
  lemma SecsFromFormatSecs(secs: int)
    ensures var t := FormatSecs(secs); SecsFromQTime(QTime(t.hours, t.minutes, t.seconds)) == secs
  {
  }

  /** ... and `format_secs` inverts `secs_from_qtime` on every well-formed time. */
  lemma FormatSecsFromQTime(q: QTime)
    requires 0 <= q.minute < 60 && 0 <= q.second < 60
    ensures FormatSecs(SecsFromQTime(q)) == Hms(q.hour, q.minute, q.second)
  {
    FormatSecsUnique(SecsFromQTime(q), Hms(q.hour, q.minute, q.second));
  }

  // ---------------------------------------------------------------------
  // The pretty form "{0:02.0f}:{1:02.0f}:{2:02.0f}" and QTime.fromString(_, "hh:mm:ss")

  function DigitChar(d: nat): (c: char)
    requires d < 10
    ensures '0' <= c <= '9'
  {
    (48 + d) as char
  }

  predicate IsDigit(c: char) {
    '0' <= c <= '9'
  }

  function DigitValue(c: char): (d: nat)
    requires IsDigit(c)
    ensures d < 10 && DigitChar(d) == c
  {
    c as int - 48
  }

  /** The decimal digits of `n`, without leading zeros. */
  function Decimal(n: nat): (s: string)
    ensures 1 <= |s|
    ensures forall i :: 0 <= i < |s| ==> IsDigit(s[i])
    ensures n < 10 <==> |s| == 1
    ensures n < 10 ==> s == [DigitChar(n)]
    ensures 10 <= n < 100 <==> |s| == 2
  {
    if n < 10 then [DigitChar(n)] else Decimal(n / 10) + [DigitChar(n % 10)]
  }

  /** Python's `"{0:02.0f}".format(n)` for an integer `n`: zero-padded to width 2, sign included. */
  function Pad2(n: int): (s: string)
    ensures 0 <= n < 100 ==> |s| == 2 && s == [DigitChar(n / 10), DigitChar(n % 10)]
    ensures n >= 0 ==> |s| >= 2 && forall i :: 0 <= i < |s| ==> IsDigit(s[i])
    ensures n < 0 ==> |s| >= 2 && s[0] == '-'
  {
    if n < 0 then "-" + Decimal(-n)
    else if n < 10 then "0" + Decimal(n)
    else Decimal(n)
  }

  /** `format_secs(secs)` with `pretty=True`. */
  function FormatSecsText(secs: int): (text: string)
    ensures 0 <= secs < 86400 ==> |text| == 8 && text[2] == ':' && text[5] == ':'
    ensures secs >= 0 ==> forall i :: 0 <= i < |text| && text[i] != ':' ==> IsDigit(text[i])
  {
    var t := FormatSecs(secs);
    Pad2(t.hours) + ":" + Pad2(t.minutes) + ":" + Pad2(t.seconds)
  }

  /** The value of two decimal digits. */
  function TwoDigits(a: char, b: char): nat
    requires IsDigit(a) && IsDigit(b)
  {
    DigitValue(a) * 10 + DigitValue(b)
  }

  /**
   * `QTime.fromString(text, "hh:mm:ss")`: exactly two digits per field,
   * hour below 24, minute and second below 60; anything else is an invalid
   * time (`None`).
   */
  function ParseTime(text: string): (r: Option<QTime>)
    ensures r.Some? ==> 0 <= r.value.hour < 24 && 0 <= r.value.minute < 60 && 0 <= r.value.second < 60
    ensures r.Some? ==> |text| == 8 && text[2] == ':' && text[5] == ':'
  {
    if |text| == 8 && text[2] == ':' && text[5] == ':'
       && IsDigit(text[0]) && IsDigit(text[1]) && IsDigit(text[3])
       && IsDigit(text[4]) && IsDigit(text[6]) && IsDigit(text[7])
    then
      var h, m, s := TwoDigits(text[0], text[1]), TwoDigits(text[3], text[4]), TwoDigits(text[6], text[7]);
      if h < 24 && m < 60 && s < 60 then Some(QTime(h, m, s)) else None
    else None
  }

  lemma TwoDigitsOfPad2(n: nat)
    requires n < 100
    ensures var s := Pad2(n); TwoDigits(s[0], s[1]) == n
  {
    var s := Pad2(n);
    assert DigitValue(s[0]) == n / 10 && DigitValue(s[1]) == n % 10;
  }

  /**
   * The text `format_secs` renders for a time of day parses back, through
   * `QTime.fromString(_, "hh:mm:ss")` and `secs_from_qtime`, to the same
   * number of seconds.
   */
  lemma TextRoundTrip(secs: int)
    requires 0 <= secs < 86400
    ensures var t := FormatSecs(secs);
            ParseTime(FormatSecsText(secs)) == Some(QTime(t.hours, t.minutes, t.seconds))
    ensures SecsFromQTime(ParseTime(FormatSecsText(secs)).value) == secs
  {
    var t := FormatSecs(secs);
    var text := FormatSecsText(secs);
    TwoDigitsOfPad2(t.hours);
    TwoDigitsOfPad2(t.minutes);
    TwoDigitsOfPad2(t.seconds);
    assert text[0] == Pad2(t.hours)[0] && text[1] == Pad2(t.hours)[1];
    assert text[3] == Pad2(t.minutes)[0] && text[4] == Pad2(t.minutes)[1];
    assert text[6] == Pad2(t.seconds)[0] && text[7] == Pad2(t.seconds)[1];
  }
}
