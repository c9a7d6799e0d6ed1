/** Durations beyond whole seconds: decimals, and texts that stand for none. */
module DurationTexts {
  import opened Wrappers
  import opened Text
  import opened Durations

  /** Texts that stand for no duration, and texts without one or two colons, read as 0. */
  lemma OtherTextsAreZero(text: string)
    requires text in ["", "N/A", "Unknown", "None", "INVALID"] || ('-' !in text && |Split(text, ':')| !in [2, 3])
    ensures ParseDuration(text) == Some(0.0)
  {
    if text !in NO_DURATION {
      SplitNoSep(text, '-');
    }
  }

  lemma {:induction false} DigitsAreCounted(s: string)
    requires forall i :: 0 <= i < |s| ==> IsDigit(s[i])
    ensures DigitCount(s) == |s|
  {
    if s != [] {
      DigitsAreCounted(s[1..]);
    }
  }

  lemma PointNumber(text: string, s: string, f: string, whole: Option<nat>, fraction: Option<nat>)
    requires Split(text, '.') == [s, f] && s != "" && f != "" && DigitCount(f) == |f|
    requires whole == ParseDigits(s, 0, false) && whole.Some? && fraction == ParseDigits(f, 0, false) && fraction.Some?
    ensures ParseDecimal(text) == Some(whole.value as real + fraction.value as real / PowerOfTen(|f|))
  {
  }

  lemma PointText(s: string, f: string, text: string)
    requires s != "" && f != "" && text == s + ['.'] + f
    requires (forall i :: 0 <= i < |s| ==> IsDigit(s[i])) && (forall i :: 0 <= i < |f| ==> IsDigit(f[i]))
    ensures Strip(text) == text && text != "" && text[0] !in "+-" && IsDigit(text[0])
    ensures Lacks(text, ':') && Lacks(text, '-')
  {
    assert text[0] == s[0] && text[|text| - 1] == f[|f| - 1];
    StripFixesTrimmed(text);
    forall i | 0 <= i < |text|
      ensures text[i] != ':' && text[i] != '-'
    {
      assert text[i] == if i < |s| then s[i] else if i == |s| then '.' else f[i - |s| - 1];
    }
  }

  lemma PointSplits(s: string, f: string, text: string)
    requires text == s + ['.'] + f
    requires (forall i :: 0 <= i < |s| ==> IsDigit(s[i])) && (forall i :: 0 <= i < |f| ==> IsDigit(f[i]))
    ensures Split(text, '.') == [s, f] && DigitCount(f) == |f|
  {
    SplitNoSep(s, '.');
    SplitNoSep(f, '.');
    SplitConcat(s, '.', f);
    DigitsAreCounted(f);
  }

  lemma FloatOf(text: string, value: real)
    requires Strip(text) == text && text != "" && text[0] !in "+-" && ParseDecimal(text) == Some(value)
    ensures ParseFloat(text) == Some(value)
  {
  }

  /** Seconds with decimals: the digits after the point count tenths, hundredths and so on. */
  lemma DecimalsMeaning(s: string, f: string, text: string, seconds: nat, fraction: nat)
    requires Spells(s, seconds) && Spells(f, fraction) && text == s + ['.'] + f
    ensures ParseFloat(text) == Some(seconds as real + fraction as real / PowerOfTen(|f|))
    ensures Lacks(text, ':') && Lacks(text, '-')
  {
    PointText(s, f, text);
    PointSplits(s, f, text);
    PointNumber(text, s, f, Some(seconds), Some(fraction));
    FloatOf(text, seconds as real + fraction as real / PowerOfTen(|f|));
  }

  lemma ClockOfTwo(clock: string, m: string, text: string, minutes: nat, value: real)
    requires Split(clock, ':') == [m, text] && ParseInt(m) == Some(minutes) && ParseFloat(text) == Some(value)
    ensures ParseClock(0, clock) == Some((minutes * 60) as real + value)
  {
    SumOfTwo(minutes, value);
  }

  lemma SumOfTwo(minutes: int, value: real)
    ensures Sum(Some(0), Some(0), Some(minutes), Some(value)) == Some((minutes * 60) as real + value)
  {
  }

  /** MM:SS texts with any seconds, decimals included, as total CPU times are printed. */
  lemma DecimalClockMeaning(m: string, text: string, minutes: nat, seconds: real)
    requires Spells(m, minutes) && Lacks(text, ':') && Lacks(text, '-') && ParseFloat(text) == Some(seconds)
    ensures ParseDuration(Clock(m, text)) == Some((minutes * 60) as real + seconds)
  {
    SpelledLacks(m, minutes);
    SpelledNumber(m, minutes);
    ClockText(m, text, minutes, seconds);
  }

  lemma ClockText(m: string, text: string, minutes: nat, value: real)
    requires m != "" && IsDigit(m[0]) && Lacks(m, ':') && Lacks(m, '-') && ParseInt(m) == Some(minutes)
    requires Lacks(text, ':') && Lacks(text, '-') && ParseFloat(text) == Some(value)
    ensures ParseDuration(Clock(m, text)) == Some((minutes * 60) as real + value)
  {
    var clock := Clock(m, text);
    SplitTwo(m, ':', text);
    ClockOfTwo(clock, m, text, minutes, value);
    DashFree(m, text, clock);
    NoDays(clock, ParseClock(0, clock));
  }

  lemma DashFree(m: string, text: string, clock: string)
    requires clock == m + [':'] + text && m != "" && IsDigit(m[0]) && Lacks(m, '-') && Lacks(text, '-')
    ensures clock != [] && IsDigit(clock[0]) && Lacks(clock, '-')
  {
    assert clock[0] == m[0];
  }
}
