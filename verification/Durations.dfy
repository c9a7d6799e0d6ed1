/** Elapsed times as text: printing whole seconds, and reading the durations schedulers report. */
module Durations {
  import opened Wrappers
  import opened Text

  // ----- Printing -----

  /** `f"{n:02d}"` */
  function TwoDigits(n: nat): string {
    if n < 10 then "0" + Dec(n) else Dec(n)
  }

  function Clock(m: string, s: string): string {
    m + [':'] + s
  }

  function LongClock(h: string, m: string, s: string): string {
    h + [':'] + Clock(m, s)
  }

  function TimeText(h: nat, m: nat, s: nat): string {
    if h != 0 then LongClock(Dec(h), TwoDigits(m), TwoDigits(s)) else Clock(Dec(m), TwoDigits(s))
  }

  /** The elapsed time of an instance: M:SS, or H:MM:SS from one hour on. */
  function Elapsed(secs: nat): string {
    var h, rem := secs / 3600, secs % 3600;
    var m, s := rem / 60, rem % 60;
    TimeText(h, m, s)
  }

  // ----- Reading -----

  function DigitCount(s: string): nat {
    if s == [] then 0 else DigitCount(s[1..]) + if IsDigit(s[0]) then 1 else 0
  }

  function PowerOfTen(n: nat): (p: real)
    ensures p >= 1.0
  {
    if n == 0 then 1.0 else 10.0 * PowerOfTen(n - 1)
  }

  /** A decimal number without sign: digits on at least one side of an optional point. */
  function ParseDecimal(s: string): Option<real> {
    var sides := Split(s, '.');
    if |sides| > 2 then None
    else if |sides| == 1 then
      var whole := ParseDigits(s, 0, false);
      if whole.None? then None else Some(whole.value as real)
    else
      var whole := if sides[0] == [] then Some(0) else ParseDigits(sides[0], 0, false);
      var fraction := if sides[1] == [] then Some(0) else ParseDigits(sides[1], 0, false);
      if whole.None? || fraction.None? || (sides[0] == [] && sides[1] == []) then None
      else Some(whole.value as real + fraction.value as real / PowerOfTen(DigitCount(sides[1])))
  }

  /** `float(text)` for decimal text; None stands for the ValueError. */
  function ParseFloat(text: string): Option<real> {
    var s := Strip(text);
    if s != [] && s[0] in "+-" then
      var size := ParseDecimal(s[1..]);
      if size.Some? && s[0] == '-' then Some(0.0 - size.value) else size
    else
      ParseDecimal(s)
  }

  function ParseClock(days: int, time: string): Option<real> {
    var parts := Split(time, ':');
    if |parts| == 3 then
      Sum(Some(days), ParseInt(parts[0]), ParseInt(parts[1]), ParseFloat(parts[2]))
    else if |parts| == 2 then
      Sum(Some(days), Some(0), ParseInt(parts[0]), ParseFloat(parts[1]))
    else
      Some(0.0)
  }

  function Sum(days: Option<int>, hours: Option<int>, minutes: Option<int>, seconds: Option<real>): Option<real> {
    if days.None? || hours.None? || minutes.None? || seconds.None? then None
    else Some((days.value * 86400 + hours.value * 3600 + minutes.value * 60) as real + seconds.value)
  }

  const NO_DURATION := {"", "N/A", "Unknown", "None", "INVALID"}

  /** The days before the first dash, if there is one, and the clock after it. */
  function ParseDashed(text: string, dashed: seq<string>): Option<real>
    requires |dashed| >= 1
  {
    if |dashed| == 1 then ParseClock(0, text)
    else
      var days := ParseInt(dashed[0]);
      if days.None? then None else ParseClock(days.value, Join(dashed[1..], '-'))
  }

  /** `parse_duration_hms`; None stands for the ValueError of a malformed number. */
  function ParseDuration(text: string): Option<real> {
    if text in NO_DURATION then Some(0.0) else ParseDashed(text, Split(text, '-'))
  }

  // ----- Round trip -----

  /** The text consists of digits, and they spell n. */
  predicate Spells(text: string, n: nat) {
    && text != [] && (forall i :: 0 <= i < |text| ==> IsDigit(text[i]))
    && ParseDigits(text, 0, false) == Some(n)
  }

  lemma DecSpells(n: nat)
    ensures Spells(Dec(n), n) && Spells(TwoDigits(n), n)
  {
    ParseDigitsDec(n);
    var padded := "0" + Dec(n);
    assert padded[1..] == Dec(n);
    assert ParseDigits(padded, 0, false) == ParseDigits(Dec(n), 0, true);
  }

  lemma SpelledNumber(text: string, n: nat)
    requires Spells(text, n)
    ensures ParseInt(text) == Some(n)
    ensures ParseFloat(text) == Some(n as real)
  {
    DigitsAreTrimmed(text);
    assert IsDigit(text[0]) && text[0] !in "+-";
    SplitNoSep(text, '.');
  }

  predicate Lacks(text: string, sep: char) {
    sep !in text
  }

  lemma SpelledLacks(text: string, n: nat)
    requires Spells(text, n)
    ensures Lacks(text, ':') && Lacks(text, '-') && text != [] && IsDigit(text[0])
  {
  }

  lemma SplitTwo(a: string, sep: char, b: string)
    requires Lacks(a, sep) && Lacks(b, sep)
    ensures Split(a + [sep] + b, sep) == [a, b]
  {
    SplitConcat(a, sep, b);
    SplitNoSep(a, sep);
    SplitNoSep(b, sep);
  }

  lemma SplitThree(a: string, sep: char, b: string, c: string)
    requires Lacks(a, sep) && Lacks(b, sep) && Lacks(c, sep)
    ensures Split(a + [sep] + (b + [sep] + c), sep) == [a, b, c]
  {
    SplitConcat(a, sep, b + [sep] + c);
    SplitNoSep(a, sep);
    SplitTwo(b, sep, c);
  }

  lemma TwoFields(days: int, m: string, s: string, minutes: nat, seconds: nat)
    requires Spells(m, minutes) && Spells(s, seconds)
    ensures ParseClock(days, Clock(m, s)) == Some((days * 86400 + minutes * 60 + seconds) as real)
  {
    SpelledLacks(m, minutes);
    SpelledLacks(s, seconds);
    SplitTwo(m, ':', s);
    FieldsAdd(days, 0, minutes, seconds);
    SpelledNumber(m, minutes);
    SpelledNumber(s, seconds);
  }

  lemma ThreeFields(days: int, h: string, m: string, s: string, hours: nat, minutes: nat, seconds: nat)
    requires Spells(h, hours) && Spells(m, minutes) && Spells(s, seconds)
    ensures ParseClock(days, LongClock(h, m, s)) == Some((days * 86400 + hours * 3600 + minutes * 60 + seconds) as real)
  {
    SpelledLacks(h, hours);
    SpelledLacks(m, minutes);
    SpelledLacks(s, seconds);
    SplitThree(h, ':', m, s);
    FieldsAdd(days, hours, minutes, seconds);
    SpelledNumber(h, hours);
    SpelledNumber(m, minutes);
    SpelledNumber(s, seconds);
  }

  lemma FieldsAdd(days: int, hours: nat, minutes: nat, seconds: nat)
    ensures Sum(Some(days), Some(hours), Some(minutes), Some(seconds as real)) ==
              Some((days * 86400 + hours * 3600 + minutes * 60 + seconds) as real)
  {
  }

  lemma ClockStart(m: string, s: string, minutes: nat, seconds: nat)
    requires Spells(m, minutes) && Spells(s, seconds)
    ensures var clock := Clock(m, s);
            clock != [] && IsDigit(clock[0]) && Lacks(clock, '-')
  {
  }

  lemma LongClockStart(h: string, m: string, s: string, hours: nat, minutes: nat, seconds: nat)
    requires Spells(h, hours) && Spells(m, minutes) && Spells(s, seconds)
    ensures var clock := LongClock(h, m, s);
            clock != [] && IsDigit(clock[0]) && Lacks(clock, '-')
  {
    ClockStart(m, s, minutes, seconds);
  }

  /** Without a dash, a text that starts with a digit is just its clock. */
  lemma NoDays(text: string, value: Option<real>)
    requires text != [] && IsDigit(text[0]) && Lacks(text, '-')
    requires ParseClock(0, text) == value
    ensures ParseDuration(text) == value
  {
    SplitNoSep(text, '-');
  }

  /** Before a dash there are days. */
  lemma DaysBefore(d: string, days: nat, clock: string)
    requires Spells(d, days) && Lacks(clock, '-')
    ensures ParseDuration(d + ['-'] + clock) == ParseClock(days, clock)
  {
    var text := d + ['-'] + clock;
    SpelledLacks(d, days);
    assert text[0] == d[0] && IsDigit(text[0]);
    SplitTwo(d, '-', clock);
    SpelledNumber(d, days);
    DaysCutOff(text, d, clock, days);
  }

  lemma DaysCutOff(text: string, d: string, clock: string, days: int)
    requires ParseInt(d) == Some(days)
    ensures ParseDashed(text, [d, clock]) == ParseClock(days, clock)
  {
    assert [d, clock][1..] == [clock];
  }

  /** MM:SS texts mean what their fields spell, however they are padded. */
  lemma ClockMeaning(m: string, s: string, minutes: nat, seconds: nat)
    requires Spells(m, minutes) && Spells(s, seconds)
    ensures ParseDuration(Clock(m, s)) == Some((minutes * 60 + seconds) as real)
  {
    ClockStart(m, s, minutes, seconds);
    TwoFields(0, m, s, minutes, seconds);
    NoDays(Clock(m, s), Some((minutes * 60 + seconds) as real));
  }

  /** So do HH:MM:SS texts. */
  lemma LongClockMeaning(h: string, m: string, s: string, hours: nat, minutes: nat, seconds: nat)
    requires Spells(h, hours) && Spells(m, minutes) && Spells(s, seconds)
    ensures ParseDuration(LongClock(h, m, s)) == Some((hours * 3600 + minutes * 60 + seconds) as real)
  {
    LongClockStart(h, m, s, hours, minutes, seconds);
    ThreeFields(0, h, m, s, hours, minutes, seconds);
    NoDays(LongClock(h, m, s), Some((hours * 3600 + minutes * 60 + seconds) as real));
  }

  /** And D-HH:MM:SS texts. */
  lemma DayClockMeaning(
    d: string, h: string, m: string, s: string, days: nat, hours: nat, minutes: nat, seconds: nat)
    requires Spells(d, days) && Spells(h, hours) && Spells(m, minutes) && Spells(s, seconds)
    ensures ParseDuration(d + ['-'] + LongClock(h, m, s)) ==
              Some((days * 86400 + hours * 3600 + minutes * 60 + seconds) as real)
  {
    LongClockStart(h, m, s, hours, minutes, seconds);
    ThreeFields(days, h, m, s, hours, minutes, seconds);
    DaysBefore(d, days, LongClock(h, m, s));
  }

  lemma PrintedClock(h: nat, m: nat, s: nat)
    requires h == 0
    ensures ParseDuration(TimeText(h, m, s)) == Some((h * 3600 + m * 60 + s) as real)
  {
    DecSpells(m);
    DecSpells(s);
    ClockMeaning(Dec(m), TwoDigits(s), m, s);
  }

  lemma PrintedLongClock(h: nat, m: nat, s: nat)
    requires h > 0
    ensures ParseDuration(TimeText(h, m, s)) == Some((h * 3600 + m * 60 + s) as real)
  {
    DecSpells(h);
    DecSpells(m);
    DecSpells(s);
    LongClockMeaning(Dec(h), TwoDigits(m), TwoDigits(s), h, m, s);
  }

  lemma PrintedTime(h: nat, m: nat, s: nat)
    ensures ParseDuration(TimeText(h, m, s)) == Some((h * 3600 + m * 60 + s) as real)
  {
    if h != 0 {
      PrintedLongClock(h, m, s);
    } else {
      PrintedClock(h, m, s);
    }
  }

  lemma PartsOfSeconds(secs: nat, h: nat, m: nat, s: nat)
    requires h == secs / 3600 && m == secs % 3600 / 60 && s == secs % 3600 % 60
    ensures secs == h * 3600 + m * 60 + s && Elapsed(secs) == TimeText(h, m, s)
  {
  }

  /** The elapsed time printed for any number of seconds reads back as just that number. */
  lemma ElapsedRoundTrip(secs: nat)
    ensures ParseDuration(Elapsed(secs)) == Some(secs as real)
  {
    var h, m, s := secs / 3600, secs % 3600 / 60, secs % 3600 % 60;
    PartsOfSeconds(secs, h, m, s);
    PrintedTime(h, m, s);
  }
}
