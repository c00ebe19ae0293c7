/**
 * The stand-alone utilities of the bot: duration rendering, relative date and
 * time phrases, phone-number cleaning, calendar-id validation, message
 * sanitising and business-hour arithmetic. Time-zone conversion happens before
 * these functions in the source; here every instant is already local.
 */
module Helpers {
  import opened Wrappers
  import opened Text
  import opened Civil

  // ---------------------------------------------------------------- durations

  /**
   * `format_duration(minutes)`: "45m", "2h" or "1h 30m". Every rendering is
   * unambiguous: reading it back gives the minutes.
   */
  function FormatDuration(minutes: int): (r: string)
    ensures ReadDuration(r) == Some(minutes)
  {
    if minutes < 60 then
      ReadDurationOfMinutes(minutes);
      IntToString(minutes) + "m"
    else if minutes % 60 == 0 then
      RoundTripOfHours(minutes);
      NatToString(minutes / 60) + "h"
    else
      RoundTripOfMixed(minutes);
      NatToString(minutes / 60) + "h " + NatToString(minutes % 60) + "m"
  }

  /** Reads a rendered duration back: the inverse of `FormatDuration`. */
  function ReadDuration(s: string): Option<int> {
    var h := IndexOfChar(s, 'h');
    if h < 0 then
      (if s != [] && s[|s| - 1] == 'm' then PyInt(s[..|s| - 1]) else None)
    else if !AllDigits(s[..h]) || h == 0 then None
    else if h == |s| - 1 then Some(60 * DigitsValue(s[..h]))
    else if h + 3 < |s| && s[h + 1] == ' ' && s[|s| - 1] == 'm' && AllDigits(s[h + 2..|s| - 1])
    then Some(60 * DigitsValue(s[..h]) + DigitsValue(s[h + 2..|s| - 1]))
    else None
  }

  lemma NoCharInDigits(s: string, c: char)
    requires AllDigits(s) && !IsDigit(c)
    ensures IndexOfChar(s, c) == -1
  {
  }

  lemma IndexOfCharAfterDigits(d: string, c: char, rest: string)
    requires AllDigits(d) && !IsDigit(c)
    ensures IndexOfChar(d + [c] + rest, c) == |d|
  {
    var s := d + [c] + rest;
    var k := IndexOfChar(s, c);
    assert s[|d|] == c;
    assert forall j :: 0 <= j < |d| ==> s[j] == d[j];
  }

  lemma NoHourMark(i: int)
    ensures forall j :: 0 <= j < |IntToString(i)| ==> IntToString(i)[j] != 'h'
  {
    var d := IntToString(i);
    assert forall j :: 0 <= j < |d| ==> d[j] == '-' || IsDigit(d[j]);
  }

  lemma ReadMinutesText(d: string)
    requires forall j :: 0 <= j < |d| ==> d[j] != 'h'
    ensures ReadDuration(d + "m") == PyInt(d)
  {
    var s := d + "m";
    assert forall j :: 0 <= j < |s| ==> s[j] != 'h';
    assert s[..|s| - 1] == d;
  }

  lemma ReadDurationOfMinutes(m: int)
    requires m < 60
    ensures ReadDuration(IntToString(m) + "m").Some? && ReadDuration(IntToString(m) + "m").value == m
  {
    NoHourMark(m);
    ReadMinutesText(IntToString(m));
    PyIntOfIntToString(m);
  }

  lemma ReadDurationOfHours(hs: string)
    requires AllDigits(hs) && hs != []
    ensures ReadDuration(hs + "h").Some? && ReadDuration(hs + "h").value == 60 * DigitsValue(hs)
  {
    IndexOfCharAfterDigits(hs, 'h', "");
    assert hs + "h" == hs + ['h'] + "";
    assert (hs + "h")[..|hs|] == hs;
  }

  lemma ReadDurationOfMixed(hs: string, ms: string)
    requires AllDigits(hs) && hs != [] && AllDigits(ms) && ms != []
    ensures var r := ReadDuration(hs + "h " + ms + "m");
      r.Some? && r.value == 60 * DigitsValue(hs) + DigitsValue(ms)
  {
    var s := hs + "h " + ms + "m";
    assert IndexOfChar(s, 'h') == |hs| by {
      IndexOfCharAfterDigits(hs, 'h', " " + ms + "m");
      assert s == hs + ['h'] + (" " + ms + "m");
    }
    assert s[..|hs|] == hs;
    assert s[|hs| + 2..|s| - 1] == ms;
  }

  lemma RoundTripOfHours(minutes: int)
    requires minutes >= 60 && minutes % 60 == 0
    ensures var r := ReadDuration(NatToString(minutes / 60) + "h"); r.Some? && r.value == minutes
  {
    var h: nat := minutes / 60;
    NatToStringRoundTrip(h);
    ReadDurationOfHours(NatToString(h));
    assert 60 * h == minutes;
  }

  lemma RoundTripOfMixed(minutes: int)
    requires minutes >= 60 && minutes % 60 != 0
    ensures var r := ReadDuration(NatToString(minutes / 60) + "h " + NatToString(minutes % 60) + "m");
      r.Some? && r.value == minutes
  {
    var h: nat, m: nat := minutes / 60, minutes % 60;
    NatToStringRoundTrip(h);
    NatToStringRoundTrip(m);
    ReadDurationOfMixed(NatToString(h), NatToString(m));
    assert 60 * h + m == minutes;
  }

  // ------------------------------------------------------------ time phrases

  /** The index of the first character at or after `i` that is not whitespace. */
  function SkipSpaces(t: string, i: nat): (k: nat)
    requires i <= |t|
    ensures i <= k <= |t| && (k == |t| || !IsSpace(t[k]))
    ensures forall j :: i <= j < k ==> IsSpace(t[j])
    decreases |t| - i
  {
    if i < |t| && IsSpace(t[i]) then SkipSpaces(t, i + 1) else i
  }

  /** The length of the run of digits starting at `i`. */
  function DigitRun(t: string, i: nat): (n: nat)
    requires i <= |t|
    ensures i + n <= |t| && AllDigits(t[i..i + n]) && (i + n == |t| || !IsDigit(t[i + n]))
    decreases |t| - i
  {
    if i < |t| && IsDigit(t[i]) then
      var n := DigitRun(t, i + 1);
      assert t[i..i + 1 + n] == [t[i]] + t[i + 1..i + 1 + n];
      1 + n
    else 0
  }

  /** The exact-match table of `parse_relative_time`. */
  function RelativeTimeTable(t: string): (r: Option<(int, int)>)
    ensures r.Some? ==> ClockRange(r.value)
  {
    match t
    case "morning" => Some((9, 0))
    case "afternoon" => Some((14, 0))
    case "evening" => Some((18, 0))
    case "night" => Some((20, 0))
    case "noon" => Some((12, 0))
    case "midnight" => Some((0, 0))
    case _ => None
  }

  /** `re.match(r'(\d{1,2}):(\d{2})\s*(am|pm)?', t)` with the am/pm conversion applied. */
  function ColonPattern(t: string): Option<(int, int)> {
    var n := DigitRun(t, 0);
    if (n == 1 || n == 2) && n + 2 < |t| && t[n] == ':' && IsDigit(t[n + 1]) && IsDigit(t[n + 2]) then
      var hour := DigitsValue(t[..n]);
      var minute := DigitsValue(t[n + 1..n + 3]);
      var k := SkipSpaces(t, n + 3);
      var h := if MatchAt(t, "pm", k) && hour != 12 then hour + 12
               else if MatchAt(t, "am", k) && hour == 12 then 0
               else hour;
      Some((h, minute))
    else None
  }

  /** `re.match(r'(\d{1,2})\s*(am|pm)', t)` succeeds. */
  predicate MeridiemPattern(t: string) {
    var n := DigitRun(t, 0);
    (n == 1 || n == 2) && (MatchAt(t, "am", SkipSpaces(t, n)) || MatchAt(t, "pm", SkipSpaces(t, n)))
  }

  predicate ClockRange(hm: (int, int)) { 0 <= hm.0 <= 23 && 0 <= hm.1 <= 59 }

  /**
   * `parse_relative_time`. `Raised` is the `ValueError` of the second pattern,
   * whose `group(2)` is the "am"/"pm" text handed to `int`.
   */
  function ParseRelativeTime(raw: string): (r: Result<Option<(int, int)>>)
    ensures r.Ok? && r.value.Some? ==> ClockRange(r.value.value)
  {
    ParseTimeText(Strip(Lower(raw)))
  }

  /** The pattern chain of `parse_relative_time` on lower-cased, stripped text. */
  function ParseTimeText(t: string): (r: Result<Option<(int, int)>>)
    ensures r.Ok? && r.value.Some? ==> ClockRange(r.value.value)
  {
    var table := RelativeTimeTable(t);
    if table.Some? then Ok(table)
    else
      var colon := ColonPattern(t);
      if colon.Some? && ClockRange(colon.value) then Ok(colon)
      else if MeridiemPattern(t) then Raised
      else if (|t| == 1 || |t| == 2) && AllDigits(t) && DigitsValue(t) <= 23 then Ok(Some((DigitsValue(t), 0)))
      else Ok(None)
  }

  /** `f"{m:02d}"` for a minute. */
  function TwoDigits(m: nat): (r: string)
    requires m < 100
    ensures |r| == 2 && AllDigits(r) && DigitsValue(r) == m
  {
    NatToStringRoundTrip(m);
    if m < 10 then
      DigitsValueOfPadded(NatToString(m));
      "0" + NatToString(m)
    else NatToString(m)
  }

  /** Text without capitals and without whitespace at its ends is already normalised. */
  predicate NoUpper(t: string) { forall i :: 0 <= i < |t| ==> !('A' <= t[i] <= 'Z') }

  /** No space at either end. */
  predicate Trimmed(t: string) { t == [] || (!IsSpace(t[0]) && !IsSpace(t[|t| - 1])) }

  lemma NormalisedText(t: string)
    requires NoUpper(t) && Trimmed(t)
    ensures Strip(Lower(t)) == t
  {
    LowerOfLowercase(t);
    StripOfTrimmed(t);
  }

  lemma {:induction false} DigitRunUpTo(t: string, i: nat, n: nat)
    requires i <= n <= |t|
    requires forall j :: i <= j < n ==> IsDigit(t[j])
    requires n == |t| || !IsDigit(t[n])
    ensures DigitRun(t, i) == n - i
    decreases n - i
  {
    if i < n {
      DigitRunUpTo(t, i + 1, n);
    }
  }

  lemma TableNeedsLetter(t: string)
    requires t != [] && IsDigit(t[0])
    ensures RelativeTimeTable(t) == None
  {
    assert t[0] != "morning"[0] && t[0] != "afternoon"[0] && t[0] != "evening"[0];
    assert t[0] != "night"[0] && t[0] != "noon"[0] && t[0] != "midnight"[0];
  }

  lemma ColonPatternOfClock(hs: string, ms: string)
    requires AllDigits(hs) && (|hs| == 1 || |hs| == 2) && AllDigits(ms) && |ms| == 2
    ensures ColonPattern(hs + ":" + ms) == Some((DigitsValue(hs), DigitsValue(ms)))
  {
    var t := hs + ":" + ms;
    ClockParts(hs, ms);
    assert !MatchAt(t, "pm", |t|) && !MatchAt(t, "am", |t|);
  }

  /** The pieces of `h:mm` found back by position. */
  lemma ClockParts(hs: string, ms: string)
    requires AllDigits(hs) && (|hs| == 1 || |hs| == 2) && AllDigits(ms) && |ms| == 2
    ensures var t := hs + ":" + ms;
      |t| == |hs| + 3 && DigitRun(t, 0) == |hs| && t[|hs|] == ':' && IsDigit(t[|hs| + 1]) && IsDigit(t[|hs| + 2])
      && t[..|hs|] == hs && t[|hs| + 1..|hs| + 3] == ms && SkipSpaces(t, |hs| + 3) == |t|
  {
    var t := hs + ":" + ms;
    DigitRunUpTo(t, 0, |hs|);
    assert t[..|hs|] == hs;
    assert t[|hs| + 1..|hs| + 3] == ms;
    assert SkipSpaces(t, |hs| + 3) == |t|;
  }

  lemma DigitNotSpace(c: char)
    requires IsDigit(c)
    ensures !IsSpace(c)
  {
  }

  lemma DigitsNoUpper(s: string)
    requires AllDigits(s)
    ensures NoUpper(s)
  {
  }

  lemma NoUpperJoined(a: string, b: string)
    requires NoUpper(a) && NoUpper(b)
    ensures NoUpper(a + b)
  {
    forall i | 0 <= i < |a + b|
      ensures !('A' <= (a + b)[i] <= 'Z')
    {
      if i >= |a| {
        assert (a + b)[i] == b[i - |a|];
      }
    }
  }

  lemma ClockTextNormalised(hs: string, ms: string)
    requires AllDigits(hs) && hs != [] && AllDigits(ms) && ms != []
    ensures Strip(Lower(hs + ":" + ms)) == hs + ":" + ms
  {
    ClockTextTrimmed(hs, ms);
    NormalisedText(hs + ":" + ms);
  }

  /** `h:mm` has no capital letter and starts and ends with a digit. */
  lemma ClockTextTrimmed(hs: string, ms: string)
    requires AllDigits(hs) && hs != [] && AllDigits(ms) && ms != []
    ensures NoUpper(hs + ":" + ms) && Trimmed(hs + ":" + ms)
  {
    var t := hs + ":" + ms;
    DigitsNoUpper(hs);
    DigitsNoUpper(ms);
    NoUpperJoined(hs, [':']);
    NoUpperJoined(hs + [':'], ms);
    assert NoUpper(t);
    assert t[0] == hs[0] && t[|t| - 1] == ms[|ms| - 1];
    DigitNotSpace(hs[0]);
    DigitNotSpace(ms[|ms| - 1]);
  }

  lemma ParseClockText(hs: string, ms: string)
    requires AllDigits(hs) && (|hs| == 1 || |hs| == 2) && AllDigits(ms) && |ms| == 2
    requires DigitsValue(hs) <= 23 && DigitsValue(ms) <= 59
    ensures ParseTimeText(hs + ":" + ms) == Ok(Some((DigitsValue(hs), DigitsValue(ms))))
  {
    TableNeedsLetter(hs + ":" + ms);
    ColonPatternOfClock(hs, ms);
  }

  lemma ParseClock(hs: string, ms: string)
    requires AllDigits(hs) && (|hs| == 1 || |hs| == 2) && AllDigits(ms) && |ms| == 2
    requires DigitsValue(hs) <= 23 && DigitsValue(ms) <= 59
    ensures ParseRelativeTime(hs + ":" + ms) == Ok(Some((DigitsValue(hs), DigitsValue(ms))))
  {
    ClockTextNormalised(hs, ms);
    ParseClockText(hs, ms);
  }

  /** A 24-hour "H:MM" or "HH:MM" clock reading is read back exactly. */
  lemma ParseRelativeTimeOfClock(h: nat, m: nat)
    requires h <= 23 && m <= 59
    ensures ParseRelativeTime(NatToString(h) + ":" + TwoDigits(m)) == Ok(Some((h, m)))
  {
    NatToStringRoundTrip(h);
    assert |NatToString(h)| <= 2 by {
      if h >= 10 { assert NatToString(h) == NatToString(h / 10) + [DigitChar(h % 10)]; }
    }
    ParseClock(NatToString(h), TwoDigits(m));
  }

  lemma MeridiemPatternOf(hs: string, suffix: string)
    requires AllDigits(hs) && (|hs| == 1 || |hs| == 2) && (suffix == "am" || suffix == "pm")
    ensures MeridiemPattern(hs + suffix) && ColonPattern(hs + suffix) == None
  {
    var t := hs + suffix;
    DigitRunUpTo(t, 0, |hs|);
    assert SkipSpaces(t, |hs|) == |hs|;
    assert t[|hs|..|hs| + 2] == suffix;
  }

  lemma ParseMeridiemText(hs: string, suffix: string)
    requires AllDigits(hs) && (|hs| == 1 || |hs| == 2) && (suffix == "am" || suffix == "pm")
    ensures ParseTimeText(hs + suffix) == Raised
  {
    TableNeedsLetter(hs + suffix);
    MeridiemPatternOf(hs, suffix);
  }

  lemma MeridiemTextNormalised(hs: string, suffix: string)
    requires AllDigits(hs) && (suffix == "am" || suffix == "pm")
    ensures Strip(Lower(hs + suffix)) == hs + suffix
  {
    var t := hs + suffix;
    DigitsNoUpper(hs);
    assert NoUpper(suffix);
    NoUpperJoined(hs, suffix);
    NormalisedText(t);
  }

  lemma ParseMeridiem(hs: string, suffix: string)
    requires AllDigits(hs) && (|hs| == 1 || |hs| == 2) && (suffix == "am" || suffix == "pm")
    ensures ParseRelativeTime(hs + suffix) == Raised
  {
    MeridiemTextNormalised(hs, suffix);
    ParseMeridiemText(hs, suffix);
  }

  /** A bare hour followed by "am" or "pm" makes the source raise instead of answering. */
  lemma MeridiemRaises(h: nat, suffix: string)
    requires h <= 99 && (suffix == "am" || suffix == "pm")
    ensures ParseRelativeTime(NatToString(h) + suffix) == Raised
  {
    assert |NatToString(h)| <= 2 by {
      if h >= 10 { assert NatToString(h) == NatToString(h / 10) + [DigitChar(h % 10)]; }
    }
    ParseMeridiem(NatToString(h), suffix);
  }

  /** The six words of the table answer before any pattern is tried, whatever their case and surrounding whitespace. */
  lemma {:induction false} RelativeTimeOfWord(raw: string)
    ensures var t := Strip(Lower(raw)); var r := ParseRelativeTime(raw);
      (t == "morning" ==> r == Ok(Some((9, 0)))) && (t == "afternoon" ==> r == Ok(Some((14, 0))))
      && (t == "evening" ==> r == Ok(Some((18, 0)))) && (t == "night" ==> r == Ok(Some((20, 0))))
      && (t == "noon" ==> r == Ok(Some((12, 0)))) && (t == "midnight" ==> r == Ok(Some((0, 0))))
  {
    var t := Strip(Lower(raw));
    if t == "morning" || t == "afternoon" || t == "evening" || t == "night" || t == "noon" || t == "midnight" {
      TableAnswers(t);
    }
  }

  lemma {:induction false} TableAnswers(t: string)
    requires RelativeTimeTable(t).Some?
    ensures ParseTimeText(t) == Ok(RelativeTimeTable(t))
  {
  }

  /** " Night " is read as 20:00. */
  lemma NightIsEight()
    ensures ParseRelativeTime(" Night ") == Ok(Some((20, 0)))
  {
    assert Lower(" Night ") == " night " by {
      forall i | 0 <= i < 7
        ensures Lower(" Night ")[i] == " night "[i]
      {
        LowerAt(" Night ", i);
      }
    }
    assert StripLeft(" night ") == "night ";
    assert StripRight("night ") == "night";
    RelativeTimeOfWord(" Night ");
  }

  lemma {:induction false} SkipSpacesUpTo(t: string, i: nat, n: nat)
    requires i <= n <= |t|
    requires forall j :: i <= j < n ==> IsSpace(t[j])
    requires n == |t| || !IsSpace(t[n])
    ensures SkipSpaces(t, i) == n
    decreases n - i
  {
    if i < n {
      SkipSpacesUpTo(t, i + 1, n);
    }
  }

  /** The pieces of `h:mm`, spaces and a suffix, found back by position. */
  lemma {:induction false} MeridiemClockParts(hs: string, ms: string, sp: string, suffix: string)
    requires AllDigits(hs) && (|hs| == 1 || |hs| == 2) && AllDigits(ms) && |ms| == 2
    requires (forall i :: 0 <= i < |sp| ==> sp[i] == ' ') && (suffix == "am" || suffix == "pm")
    ensures var t := hs + ":" + ms + sp + suffix; var n := |hs|; var k := n + 3 + |sp|;
      DigitRun(t, 0) == n && n + 2 < |t| && t[n] == ':' && IsDigit(t[n + 1]) && IsDigit(t[n + 2])
      && t[..n] == hs && t[n + 1..n + 3] == ms && SkipSpaces(t, n + 3) == k
      && MatchAt(t, suffix, k) && !MatchAt(t, if suffix == "am" then "pm" else "am", k)
  {
    Associate(hs + ":" + ms, sp, suffix);
    ClockLead(hs, ms, sp + suffix);
    SpacesThenSuffix(hs + ":" + ms + sp + suffix, |hs| + 3, sp, suffix);
  }

  /** `h:mm` at the front of a text, found back by position. */
  lemma {:induction false} ClockLead(hs: string, ms: string, rest: string)
    requires AllDigits(hs) && (|hs| == 1 || |hs| == 2) && AllDigits(ms) && |ms| == 2
    ensures var t := hs + ":" + ms + rest; var n := |hs|;
      DigitRun(t, 0) == n && n + 2 < |t| && t[n] == ':' && IsDigit(t[n + 1]) && IsDigit(t[n + 2])
      && t[..n] == hs && t[n + 1..n + 3] == ms && t[n + 3..] == rest
  {
    var t := hs + ":" + ms + rest;
    var n := |hs|;
    assert forall j :: 0 <= j < n ==> t[j] == hs[j];
    DigitRunUpTo(t, 0, n);
    assert t[..n] == hs;
    assert t[n + 1..n + 3] == ms;
  }

  /** Spaces and then "am" or "pm" from position `a`. */
  lemma {:induction false} SpacesThenSuffix(t: string, a: nat, sp: string, suffix: string)
    requires a <= |t| && t[a..] == sp + suffix
    requires (forall i :: 0 <= i < |sp| ==> sp[i] == ' ') && (suffix == "am" || suffix == "pm")
    ensures var k := a + |sp|;
      SkipSpaces(t, a) == k && MatchAt(t, suffix, k) && !MatchAt(t, if suffix == "am" then "pm" else "am", k)
  {
    var k := a + |sp|;
    assert forall j :: a <= j < k ==> t[j] == t[a..][j - a] == sp[j - a];
    assert t[k] == suffix[0] by { assert t[a..][|sp|] == (sp + suffix)[|sp|]; }
    SkipSpacesUpTo(t, a, k);
    assert t[k..k + 2] == suffix by { assert t[k..k + 2] == t[a..][|sp|..|sp| + 2]; }
  }

  /** `h:mm`, spaces and a lower-case suffix are already lower-case and stripped. */
  lemma {:induction false} MeridiemClockNormalised(hs: string, ms: string, sp: string, suffix: string)
    requires AllDigits(hs) && hs != [] && AllDigits(ms)
    requires (forall i :: 0 <= i < |sp| ==> sp[i] == ' ') && (suffix == "am" || suffix == "pm")
    ensures Strip(Lower(hs + ":" + ms + sp + suffix)) == hs + ":" + ms + sp + suffix
  {
    var t := hs + ":" + ms + sp + suffix;
    DigitsNoUpper(hs);
    DigitsNoUpper(ms);
    NoUpperJoined(hs, ":");
    NoUpperJoined(hs + ":", ms);
    NoUpperJoined(hs + ":" + ms, sp);
    NoUpperJoined(hs + ":" + ms + sp, suffix);
    assert t[0] == hs[0] && t[|t| - 1] == 'm';
    DigitNotSpace(hs[0]);
    NormalisedText(t);
  }

  /** The 12-hour reading of hour `h` with "am" or "pm". */
  function TwelveHour(h: int, suffix: string): int {
    if suffix == "pm" then (if h == 12 then 12 else h + 12) else (if h == 12 then 0 else h)
  }

  /** "H:MM" with "am" or "pm", after optional spaces, is read on the 12-hour clock: 12am is midnight, 12pm is noon. */
  lemma {:induction false} ParseRelativeTimeOfMeridiemClock(h: nat, m: nat, sp: string, suffix: string)
    requires 1 <= h <= 12 && m <= 59 && (suffix == "am" || suffix == "pm")
    requires forall i :: 0 <= i < |sp| ==> sp[i] == ' '
    ensures ParseRelativeTime(NatToString(h) + ":" + TwoDigits(m) + sp + suffix) == Ok(Some((TwelveHour(h, suffix), m)))
  {
    var hs, ms := NatToString(h), TwoDigits(m);
    NatToStringRoundTrip(h);
    assert |hs| <= 2 by {
      if h >= 10 { assert hs == NatToString(h / 10) + [DigitChar(h % 10)]; }
    }
    ColonPatternOfMeridiemClock(hs, ms, sp, suffix);
    MeridiemClockNormalised(hs, ms, sp, suffix);
    var t := hs + ":" + ms + sp + suffix;
    assert t[0] == hs[0];
    TableNeedsLetter(t);
  }

  lemma {:induction false} ColonPatternOfMeridiemClock(hs: string, ms: string, sp: string, suffix: string)
    requires AllDigits(hs) && (|hs| == 1 || |hs| == 2) && AllDigits(ms) && |ms| == 2
    requires (forall i :: 0 <= i < |sp| ==> sp[i] == ' ') && (suffix == "am" || suffix == "pm")
    ensures ColonPattern(hs + ":" + ms + sp + suffix) == Some((TwelveHour(DigitsValue(hs), suffix), DigitsValue(ms)))
  {
    MeridiemClockParts(hs, ms, sp, suffix);
  }

  /** A bare hour of one or two digits up to 23 is read on the hour. */
  lemma {:induction false} ParseRelativeTimeOfHour(h: nat)
    requires h <= 23
    ensures ParseRelativeTime(NatToString(h)) == Ok(Some((h, 0)))
  {
    var t := NatToString(h);
    NatToStringRoundTrip(h);
    assert |t| <= 2 by {
      if h >= 10 { assert t == NatToString(h / 10) + [DigitChar(h % 10)]; }
    }
    DigitsNoUpper(t);
    DigitNotSpace(t[0]);
    DigitNotSpace(t[|t| - 1]);
    BareDigitsText(t);
    NormalisedText(t);
  }

  /** One or two digits up to 23 fall through to the bare-hour pattern. */
  lemma {:induction false} BareDigitsText(t: string)
    requires AllDigits(t) && (|t| == 1 || |t| == 2) && DigitsValue(t) <= 23
    ensures ParseTimeText(t) == Ok(Some((DigitsValue(t), 0)))
  {
    TableNeedsLetter(t);
    DigitRunUpTo(t, 0, |t|);
    assert ColonPattern(t) == None;
    assert SkipSpaces(t, |t|) == |t|;
    assert !MeridiemPattern(t);
  }

  /** `h:mm` does not match the second pattern: a colon follows the hour digits. */
  lemma ClockNotMeridiem(hs: string, ms: string)
    requires AllDigits(hs) && (|hs| == 1 || |hs| == 2) && AllDigits(ms) && |ms| == 2
    ensures !MeridiemPattern(hs + ":" + ms)
  {
    var t := hs + ":" + ms;
    ClockParts(hs, ms);
    assert SkipSpaces(t, |hs|) == |hs|;
    assert t[|hs|..|hs| + 2][0] == ':';
  }

  lemma ParseTimeTextOutOfRange(hs: string, ms: string)
    requires AllDigits(hs) && (|hs| == 1 || |hs| == 2) && AllDigits(ms) && |ms| == 2
    requires DigitsValue(hs) > 23 || DigitsValue(ms) > 59
    ensures ParseTimeText(hs + ":" + ms) == Ok(None)
  {
    var t := hs + ":" + ms;
    TableNeedsLetter(t);
    ColonPatternOfClock(hs, ms);
    ClockNotMeridiem(hs, ms);
    assert |t| >= 4;
  }

  /** A colon time outside the clock, such as "25:00" or "9:75", is not understood. */
  lemma ParseRelativeTimeOutOfRange(hs: string, ms: string)
    requires AllDigits(hs) && (|hs| == 1 || |hs| == 2) && AllDigits(ms) && |ms| == 2
    requires DigitsValue(hs) > 23 || DigitsValue(ms) > 59
    ensures ParseRelativeTime(hs + ":" + ms) == Ok(None)
  {
    ClockTextNormalised(hs, ms);
    ParseTimeTextOutOfRange(hs, ms);
  }

  /** "25:00" is not understood. */
  lemma TwentyFiveOClock()
    ensures ParseRelativeTime("25:00") == Ok(None)
  {
    assert "25:00" == "25" + ":" + "00";
    assert DigitsValue("25") == 25 by {
      assert "25"[..1] == "2";
      assert "2"[..0] == "";
    }
    ParseRelativeTimeOutOfRange("25", "00");
  }

  // ------------------------------------------------------------ date phrases

  /** The full day names of `parse_relative_date`, Monday = 0. */
  function FullDayIndex(name: string): (r: Option<int>)
    ensures r.Some? ==> 0 <= r.value < 7
  {
    match name
    case "monday" => Some(0)
    case "tuesday" => Some(1)
    case "wednesday" => Some(2)
    case "thursday" => Some(3)
    case "friday" => Some(4)
    case "saturday" => Some(5)
    case "sunday" => Some(6)
    case _ => None
  }

  /** Days from weekday `current` to the next strictly later day with weekday `target`. */
  function DaysAhead(target: int, current: int): (n: int)
    requires 0 <= target < 7 && 0 <= current < 7
    ensures 1 <= n <= 7 && (current + n) % 7 == target
  {
    var d := target - current;
    if d <= 0 then d + 7 else d
  }

  /** `parse_relative_date(s)` with `now` given as today's date; the result is that day's midnight. */
  function ParseRelativeDate(raw: string, today: Date): (r: Option<DateTime>)
    requires ValidDate(today)
    ensures r.Some? ==> ValidDateTime(r.value) && r.value.minute == 0
  {
    ParseDateText(Strip(Lower(raw)), today)
  }

  /** The cases of `parse_relative_date` on lower-cased, stripped text. */
  function ParseDateText(t: string, today: Date): (r: Option<DateTime>)
    requires ValidDate(today)
    ensures r.Some? ==> ValidDateTime(r.value) && r.value.minute == 0
  {
    if t == "today" then Some(DateTime(today, 0))
    else if t == "tomorrow" then Some(DateTime(AddDays(today, 1), 0))
    else if StartsWith(t, "next ") && FullDayIndex(t[5..]).Some? then
      Some(DateTime(AddDays(today, DaysAhead(FullDayIndex(t[5..]).value, Weekday(today))), 0))
    else None
  }

  lemma ParseDateTextNextDay(t: string, today: Date)
    requires ValidDate(today) && StartsWith(t, "next ") && FullDayIndex(t[5..]).Some?
    ensures var r := ParseDateText(t, today);
      r.Some? && Weekday(r.value.date) == FullDayIndex(t[5..]).value
      && 1 <= DayNumber(r.value.date) - DayNumber(today) <= 7
  {
    assert t[0] == 'n';
    var n := DaysAhead(FullDayIndex(t[5..]).value, Weekday(today));
    WeekdayAddDays(today, n);
    DayNumberAddDays(today, n);
  }

  /** "next <day>" lands on that weekday, one to seven days ahead (a week ahead on the same weekday). */
  lemma ParseRelativeDateNextDay(raw: string, today: Date)
    requires ValidDate(today)
    requires var t := Strip(Lower(raw)); StartsWith(t, "next ") && FullDayIndex(t[5..]).Some?
    ensures var r := ParseRelativeDate(raw, today); var t := Strip(Lower(raw));
      r.Some? && Weekday(r.value.date) == FullDayIndex(t[5..]).value
      && 1 <= DayNumber(r.value.date) - DayNumber(today) <= 7
  {
    ParseDateTextNextDay(Strip(Lower(raw)), today);
  }

  /**
   * "today" is today's midnight and "tomorrow" the next day's; any text that is
   * neither of these nor "next <full day name>" gives nothing.
   */
  lemma ParseRelativeDateCases(raw: string, today: Date)
    requires ValidDate(today)
    ensures var t := Strip(Lower(raw)); var r := ParseRelativeDate(raw, today);
      (t == "today" ==> r == Some(DateTime(today, 0)))
      && (t == "tomorrow" ==> r.Some? && r.value.minute == 0 && DayNumber(r.value.date) == DayNumber(today) + 1)
      && (r.None? <==> t != "today" && t != "tomorrow" && !(StartsWith(t, "next ") && FullDayIndex(t[5..]).Some?))
  {
    DayNumberAddDays(today, 1);
  }

  // ------------------------------------------------------------ phone numbers

  predicate PhoneChar(c: char) { IsDigit(c) || c == '+' }

  function KeepPhoneChars(s: string): (r: string)
    ensures forall i :: 0 <= i < |r| ==> PhoneChar(r[i])
    ensures (forall i :: 0 <= i < |s| ==> PhoneChar(s[i])) ==> r == s
  {
    if s == [] then [] else (if PhoneChar(s[0]) then [s[0]] else []) + KeepPhoneChars(s[1..])
  }

  /** `extract_phone_number`: drop one "whatsapp:" prefix, then every character but digits and '+'. */
  function ExtractPhoneNumber(s: string): (r: string)
    ensures forall i :: 0 <= i < |r| ==> PhoneChar(r[i])
  {
    KeepPhoneChars(if StartsWith(s, "whatsapp:") then s[9..] else s)
  }

  /** The filter works character by character: a digit or '+' is kept, anything else dropped. */
  lemma KeepPhoneCharsOfChar(c: char)
    ensures KeepPhoneChars([c]) == if PhoneChar(c) then [c] else []
  {
    assert [c][1..] == [];
  }

  /** The filter keeps order across a split of its input. */
  lemma {:induction false} KeepPhoneCharsConcat(a: string, b: string)
    ensures KeepPhoneChars(a + b) == KeepPhoneChars(a) + KeepPhoneChars(b)
  {
    if a == [] {
      assert a + b == b;
    } else {
      assert (a + b)[0] == a[0];
      assert (a + b)[1..] == a[1..] + b;
      KeepPhoneCharsConcat(a[1..], b);
    }
  }

  /** A number with the "whatsapp:" prefix loses exactly that prefix before filtering. */
  lemma ExtractPhoneNumberOfPrefixed(t: string)
    ensures ExtractPhoneNumber("whatsapp:" + t) == KeepPhoneChars(t)
  {
    var s := "whatsapp:" + t;
    assert s[..9] == "whatsapp:";
    assert s[9..] == t;
  }

  /** A number without the prefix is only filtered. */
  lemma ExtractPhoneNumberOfUnprefixed(s: string)
    requires !StartsWith(s, "whatsapp:")
    ensures ExtractPhoneNumber(s) == KeepPhoneChars(s)
  {
  }

  /** Cleaning a clean number changes nothing. */
  lemma ExtractPhoneNumberIdempotent(s: string)
    ensures ExtractPhoneNumber(ExtractPhoneNumber(s)) == ExtractPhoneNumber(s)
  {
    var r := ExtractPhoneNumber(s);
    if |r| > 0 {
      assert PhoneChar(r[0]);
    }
  }

  // ------------------------------------------------------------- calendar id

  predicate LocalChar(c: char) { IsAsciiLetter(c) || IsDigit(c) || c == '.' || c == '_' || c == '%' || c == '+' || c == '-' }
  predicate DomainChar(c: char) { IsAsciiLetter(c) || IsDigit(c) || c == '.' || c == '-' }

  /** `s` is `local@domain.tld` with '@' at `at` and the final dot at `dot`. */
  predicate EmailAt(s: string, at: int, dot: int) {
    0 < at && at + 1 < dot && dot + 2 < |s|
    && s[at] == '@' && s[dot] == '.'
    && (forall i :: 0 <= i < at ==> LocalChar(s[i]))
    && (forall i :: at < i < dot ==> DomainChar(s[i]))
    && (forall i :: dot < i < |s| ==> IsAsciiLetter(s[i]))
  }

  function LastIndexOfChar(s: string, c: char): (r: int)
    ensures -1 <= r < |s|
    ensures r >= 0 ==> s[r] == c
    ensures forall j :: r < j < |s| ==> s[j] != c
  {
    if s == [] then -1
    else if s[|s| - 1] == c then |s| - 1
    else LastIndexOfChar(s[..|s| - 1], c)
  }

  /** The e-mail check, computed by splitting at the first '@' and the last '.'. */
  predicate EmailShape(s: string) {
    var at := IndexOfChar(s, '@');
    var dot := LastIndexOfChar(s, '.');
    EmailAt(s, at, dot)
  }

  /** `re.match(r'^[a-zA-Z0-9._%+-]+@[a-zA-Z0-9.-]+\.[a-zA-Z]{2,}$', s)`, which splits anywhere. */
  lemma EmailShapeMeansPattern(s: string)
    ensures EmailShape(s) <==> exists at, dot :: EmailAt(s, at, dot)
  {
    if exists at, dot :: EmailAt(s, at, dot) {
      var at, dot :| EmailAt(s, at, dot);
      assert IndexOfChar(s, '@') == at;
      assert LastIndexOfChar(s, '.') == dot;
    }
  }

  /**
   * `validate_calendar_id`. The pattern's `$` also matches just before a final
   * newline, so one trailing "\n" is accepted.
   */
  predicate ValidateCalendarId(s: string) {
    s == "primary" || EmailShape(s) || (s != [] && s[|s| - 1] == '\n' && EmailShape(s[..|s| - 1]))
  }

  /** `re.match(email_pattern, s)` up to the end of `s`. */
  ghost predicate EmailPattern(s: string) {
    exists at, dot :: EmailAt(s, at, dot)
  }

  /**
   * `validate_calendar_id` accepts exactly "primary" and the texts the
   * anchored email pattern matches; `$` also lets one final newline through.
   */
  lemma ValidateCalendarIdMeansPattern(s: string)
    ensures ValidateCalendarId(s) <==>
      s == "primary" || EmailPattern(s) || (s != [] && s[|s| - 1] == '\n' && EmailPattern(s[..|s| - 1]))
  {
    EmailShapeMeansPattern(s);
    if s != [] {
      EmailShapeMeansPattern(s[..|s| - 1]);
    }
  }

  /** Exactly one '@' occurs in an accepted id other than "primary". */
  lemma CalendarIdHasOneAt(s: string)
    requires ValidateCalendarId(s) && s != "primary"
    ensures exists at :: 0 <= at < |s| && s[at] == '@' && forall j :: 0 <= j < |s| && j != at ==> s[j] != '@'
  {
    if EmailShape(s) {
      var at := EmailHasOneAt(s);
    } else {
      var u := s[..|s| - 1];
      var at := EmailHasOneAt(u);
      forall j | 0 <= j < |s| && j != at
        ensures s[j] != '@'
      {
        if j < |u| {
          assert s[j] == u[j];
        }
      }
      assert s[at] == u[at];
    }
  }

  lemma EmailHasOneAt(u: string) returns (at: nat)
    requires EmailShape(u)
    ensures at < |u| && u[at] == '@' && forall j :: 0 <= j < |u| && j != at ==> u[j] != '@'
  {
    var dot := LastIndexOfChar(u, '.');
    at := IndexOfChar(u, '@');
    assert EmailAt(u, at, dot);
    forall j | 0 <= j < |u| && j != at
      ensures u[j] != '@'
    {
      if j < at { assert LocalChar(u[j]); }
      else if j < dot { assert DomainChar(u[j]); }
      else if j > dot { assert IsAsciiLetter(u[j]); }
    }
  }

  // ------------------------------------------------------------- sanitising

  /** The text with its whitespace removed: what sanitising must keep. */
  function NonSpace(s: string): (r: string)
    ensures |r| <= |s| && forall i :: 0 <= i < |r| ==> !IsSpace(r[i])
  {
    if s == [] then [] else if IsSpace(s[0]) then NonSpace(s[1..]) else [s[0]] + NonSpace(s[1..])
  }

  lemma {:induction false} NonSpaceConcat(a: string, b: string)
    ensures NonSpace(a + b) == NonSpace(a) + NonSpace(b)
  {
    if a == [] {
      assert a + b == b;
    } else {
      assert (a + b)[0] == a[0];
      assert (a + b)[1..] == a[1..] + b;
      NonSpaceConcat(a[1..], b);
    }
  }

  /** A character that is not whitespace occurs in a text exactly when it occurs in the text's non-space part. */
  lemma {:induction false} NonSpaceHas(s: string, c: char)
    requires !IsSpace(c)
    ensures c in s <==> c in NonSpace(s)
  {
    if s != [] {
      NonSpaceHas(s[1..], c);
      assert s == [s[0]] + s[1..];
    }
  }

  lemma {:induction false} NonSpaceOfStripLeft(s: string)
    ensures NonSpace(StripLeft(s)) == NonSpace(s)
  {
    if s != [] && IsSpace(s[0]) {
      NonSpaceOfStripLeft(s[1..]);
    }
  }

  lemma {:induction false} NonSpaceOfStripRight(s: string)
    ensures NonSpace(StripRight(s)) == NonSpace(s)
  {
    if s != [] && IsSpace(s[|s| - 1]) {
      NonSpaceOfStripRight(s[..|s| - 1]);
      assert s == s[..|s| - 1] + [s[|s| - 1]];
      NonSpaceConcat(s[..|s| - 1], [s[|s| - 1]]);
    }
  }

  /** `strip()` removes whitespace only. */
  lemma NonSpaceOfStrip(s: string)
    ensures NonSpace(Strip(s)) == NonSpace(s)
  {
    NonSpaceOfStripLeft(s);
    NonSpaceOfStripRight(StripLeft(s));
  }

  /** `re.sub(r'\s+', ' ', s)`: every run of whitespace becomes one space. */
  function CollapseSpaces(s: string): (r: string)
    ensures forall i :: 0 <= i < |r| ==> !IsSpace(r[i]) || r[i] == ' '
    ensures forall i :: 0 <= i < |r| - 1 ==> !(r[i] == ' ' && r[i + 1] == ' ')
    ensures |s| == 0 <==> |r| == 0
    ensures |s| > 0 ==> (IsSpace(s[0]) <==> r[0] == ' ') && (!IsSpace(s[0]) ==> r[0] == s[0])
    ensures |s| > 0 ==> (IsSpace(s[|s| - 1]) <==> r[|r| - 1] == ' ')
    decreases |s|
  {
    if s == [] then []
    else if IsSpace(s[0]) && |s| > 1 && IsSpace(s[1]) then CollapseSpaces(s[1..])
    else if IsSpace(s[0]) then " " + CollapseSpaces(s[1..])
    else [s[0]] + CollapseSpaces(s[1..])
  }

  /** One step of `CollapseSpaces` on a text split after its first character. */
  lemma CollapseCons(c: char, x: string)
    ensures CollapseSpaces([c] + x) ==
      if IsSpace(c) && x != [] && IsSpace(x[0]) then CollapseSpaces(x)
      else if IsSpace(c) then " " + CollapseSpaces(x)
      else [c] + CollapseSpaces(x)
  {
    assert ([c] + x)[1..] == x;
  }

  lemma CollapseConsWord(c: char, x: string)
    requires !IsSpace(c)
    ensures CollapseSpaces([c] + x) == [c] + CollapseSpaces(x)
  {
    assert ([c] + x)[1..] == x;
  }

  /** One step of `NonSpace` on a text split after its first character. */
  lemma NonSpaceCons(c: char, x: string)
    ensures NonSpace([c] + x) == if IsSpace(c) then NonSpace(x) else [c] + NonSpace(x)
  {
    assert ([c] + x)[1..] == x;
  }

  /** Collapsing keeps every non-space character, in order. */
  lemma {:induction false} CollapseKeepsText(s: string)
    ensures NonSpace(CollapseSpaces(s)) == NonSpace(s)
    decreases |s|
  {
    if s != [] {
      assert s == [s[0]] + s[1..];
      CollapseCons(s[0], s[1..]);
      NonSpaceCons(s[0], s[1..]);
      CollapseKeepsText(s[1..]);
      NonSpaceCons(s[0], CollapseSpaces(s[1..]));
      NonSpaceCons(' ', CollapseSpaces(s[1..]));
    }
  }

  /** A text with no whitespace in it. */
  predicate Word(w: string) { w == [] || (!IsSpace(w[0]) && Word(w[1..])) }

  /** A text of whitespace only. */
  predicate Blank(sp: string) { sp == [] || (IsSpace(sp[0]) && Blank(sp[1..])) }

  /** A word passes through collapsing unchanged. */
  lemma {:induction false} CollapseWord(w: string, x: string)
    requires Word(w)
    ensures CollapseSpaces(w + x) == w + CollapseSpaces(x)
  {
    if w == [] {
      assert w + x == x;
    } else {
      var w0, y := w[0], w[1..];
      CollapseWord(y, x);
      CollapseWordStep(w, w0, y, x);
    }
  }

  lemma CollapseWordStep(w: string, w0: char, y: string, x: string)
    requires w == [w0] + y && !IsSpace(w0)
    requires CollapseSpaces(y + x) == y + CollapseSpaces(x)
    ensures CollapseSpaces(w + x) == w + CollapseSpaces(x)
  {
    Associate([w0], y, x);
    CollapseConsWord(w0, y + x);
    Associate([w0], y, CollapseSpaces(x));
  }

  /**
   * A run of whitespace before the end or before a non-space character becomes
   * one space. With `CollapseWord` this fixes `CollapseSpaces` on every text.
   */
  lemma {:induction false} CollapseRun(sp: string, x: string)
    requires sp != [] && Blank(sp)
    requires x == [] || !IsSpace(x[0])
    ensures CollapseSpaces(sp + x) == " " + CollapseSpaces(x)
  {
    var s0, y := sp[0], sp[1..];
    assert sp + x == [s0] + (y + x);
    CollapseCons(s0, y + x);
    if y != [] {
      assert (y + x)[0] == y[0];
      CollapseRun(y, x);
    } else {
      assert y + x == x;
    }
  }

  /**
   * `s` opens with a "[...]" block ending at `k`: `^\[.*?\]` matches `s[..k + 1]`,
   * the first ']' after the '[' with no newline before it.
   */
  predicate BracketBlockAt(s: string, k: int) {
    0 < k < |s| && s[0] == '[' && s[k] == ']' && forall j :: 0 < j < k ==> s[j] != ']' && s[j] != '\n'
  }

  /** The block, when there is one, ends at the first ']' and holds no newline. */
  lemma BracketBlockFirst(s: string)
    ensures forall k :: BracketBlockAt(s, k) ==> IndexOfChar(s[1..], ']') == k - 1 && '\n' !in s[1..k]
  {
    forall k | BracketBlockAt(s, k)
      ensures IndexOfChar(s[1..], ']') == k - 1 && '\n' !in s[1..k]
    {
      assert s[1..][k - 1] == ']';
      assert forall j :: 0 <= j < k - 1 ==> s[1..][j] == s[j + 1];
      assert forall j :: 0 <= j < k - 1 ==> s[1..k][j] == s[j + 1];
    }
  }

  /** `re.sub(r'^\[.*?\]\s*', '', s)`: a leading "[...]" block and the whitespace after it are removed. */
  function DropBracketPrefix(s: string): (r: string)
    ensures |r| <= |s| && r == s[|s| - |r|..]
    ensures forall k :: BracketBlockAt(s, k) ==>
      |r| < |s| - k && (forall j :: k < j < |s| - |r| ==> IsSpace(s[j])) && (r == [] || !IsSpace(r[0]))
    ensures (forall k :: !BracketBlockAt(s, k)) ==> r == s
  {
    BracketBlockFirst(s);
    if s != [] && s[0] == '[' && IndexOfChar(s[1..], ']') >= 0 && '\n' !in s[1..IndexOfChar(s[1..], ']') + 1] then
      var k := IndexOfChar(s[1..], ']') + 1;
      assert forall j :: 0 < j < k ==> s[j] == s[1..][j - 1] && s[j] == s[1..k][j - 1];
      assert BracketBlockAt(s, k);
      StripLeftIsSuffix(s[k + 1..]);
      StripLeftDropsSpaces(s[k + 1..]);
      var r := StripLeft(s[k + 1..]);
      assert forall j :: k < j < |s| - |r| ==> s[j] == s[k + 1..][j - k - 1];
      r
    else s
  }

  /** `sanitize_message`. */
  function SanitizeMessage(s: string): (r: string)
    ensures forall i :: 0 <= i < |r| ==> !IsSpace(r[i]) || r[i] == ' '
    ensures forall i :: 0 <= i < |r| - 1 ==> !(r[i] == ' ' && r[i + 1] == ' ')
    ensures r == [] || (r[0] != ' ' && r[|r| - 1] != ' ')
  {
    var c := CollapseSpaces(Strip(s));
    var r := DropBracketPrefix(c);
    SpacesOfSuffix(c, r);
    r
  }

  /**
   * Sanitising keeps the message's non-space text, except that a leading "[...]"
   * block (the first "]" closes it) is removed.
   */
  lemma {:induction false} SanitizeKeepsText(s: string)
    ensures var n := NonSpace(s);
      n != [] && n[0] == '[' && ']' in n[1..] ==> NonSpace(SanitizeMessage(s)) == n[IndexOfChar(n[1..], ']') + 2..]
    ensures var n := NonSpace(s);
      !(n != [] && n[0] == '[' && ']' in n[1..]) ==> NonSpace(SanitizeMessage(s)) == n
  {
    var c := CollapseSpaces(Strip(s));
    assert SanitizeMessage(s) == DropBracketPrefix(c);
    assert NonSpace(c) == NonSpace(s) by {
      NonSpaceOfStrip(s);
      CollapseKeepsText(Strip(s));
    }
    assert '\n' !in c;
    SanitizeContent(c);
  }

  /**
   * On collapsed text (no newline, no leading space) the block is removed exactly
   * when the non-space text opens with '[' and holds a later ']', and the
   * non-space text after that first ']' is what remains.
   */
  lemma SanitizeContent(c: string)
    requires c == [] || !IsSpace(c[0])
    requires '\n' !in c
    ensures var n := NonSpace(c); var r := DropBracketPrefix(c);
      (n != [] && n[0] == '[' && ']' in n[1..] ==> NonSpace(r) == n[IndexOfChar(n[1..], ']') + 2..])
      && (!(n != [] && n[0] == '[' && ']' in n[1..]) ==> r == c)
  {
    if c != [] {
      NonSpaceOpens(c);
      if c[0] == '[' && ']' in c[1..] {
        BlockDropped(c);
      } else {
        NoBlockKept(c);
      }
    } else {
      NoBlockKept(c);
    }
  }

  /** The non-space text opens with "[" and a later "]" exactly when the text does. */
  lemma NonSpaceOpens(c: string)
    requires c != [] && !IsSpace(c[0])
    ensures var n := NonSpace(c); (n != [] && n[0] == '[' && ']' in n[1..]) <==> (c[0] == '[' && ']' in c[1..])
  {
    var c0, rest := c[0], c[1..];
    assert c == [c0] + rest;
    NonSpaceCons(c0, rest);
    NonSpaceHas(rest, ']');
  }

  lemma BlockDropped(c: string)
    requires c != [] && c[0] == '[' && ']' in c[1..] && '\n' !in c
    ensures var n := NonSpace(c);
      n != [] && n[0] == '[' && ']' in n[1..] && NonSpace(DropBracketPrefix(c)) == n[IndexOfChar(n[1..], ']') + 2..]
  {
    var k := IndexOfChar(c[1..], ']') + 1;
    assert '\n' !in c[1..k];
    assert BracketBlockAt(c, k);
    BlockNonSpace(c, k, DropBracketPrefix(c));
  }

  lemma NoBlockKept(c: string)
    requires c == [] || !(c[0] == '[' && ']' in c[1..])
    ensures DropBracketPrefix(c) == c
  {
  }

  /** Removing the block `c[..k + 1]` and the spaces after it removes "[", the block's text and "]" from the non-space text. */
  lemma BlockNonSpace(c: string, k: int, r: string)
    requires BracketBlockAt(c, k) && |r| < |c| - k && r == c[|c| - |r|..]
    requires forall j :: k < j < |c| - |r| ==> IsSpace(c[j])
    ensures var n := NonSpace(c); n != [] && n[0] == '[' && ']' in n[1..] && NonSpace(r) == n[IndexOfChar(n[1..], ']') + 2..]
  {
    var mid, sp := c[1..k], c[k + 1..|c| - |r|];
    BlockParts(c, k, r);
    assert ']' !in mid by {
      assert forall i :: 0 <= i < |mid| ==> mid[i] == c[i + 1];
    }
    NonSpaceOfBlankSlice(c, k + 1, |c| - |r|);
    NonSpaceOfBlock(c, mid, sp, r);
  }

  /** `c` is "[", the block's text, "]", the spaces after it and the rest. */
  lemma BlockParts(c: string, k: int, r: string)
    requires BracketBlockAt(c, k) && |r| < |c| - k && r == c[|c| - |r|..]
    ensures c == ['['] + (c[1..k] + ([']'] + (c[k + 1..|c| - |r|] + r)))
  {
    assert c[k + 1..] == c[k + 1..|c| - |r|] + r;
    assert c[k..] == [']'] + c[k + 1..];
    assert c[1..] == c[1..k] + c[k..];
    assert c == ['['] + c[1..];
  }

  lemma {:induction false} NonSpaceOfBlock(c: string, mid: string, sp: string, r: string)
    requires c == ['['] + (mid + ([']'] + (sp + r)))
    requires ']' !in mid && NonSpace(sp) == []
    ensures var n := NonSpace(c);
      n != [] && n[0] == '[' && ']' in n[1..] && NonSpace(r) == n[IndexOfChar(n[1..], ']') + 2..]
  {
    var m, t := NonSpace(mid), NonSpace(r);
    NonSpaceConcat(sp, r);
    assert NonSpace(sp + r) == t by { assert [] + t == t; }
    NonSpaceCons(']', sp + r);
    NonSpaceConcat(mid, [']'] + (sp + r));
    NonSpaceCons('[', mid + ([']'] + (sp + r)));
    assert NonSpace(c) == ['['] + (m + ([']'] + t));
    NonSpaceHas(mid, ']');
    OpenedBlock(m, t);
  }

  lemma OpenedBlock(m: string, t: string)
    requires ']' !in m
    ensures var n := ['['] + (m + ([']'] + t));
      n[0] == '[' && ']' in n[1..] && t == n[IndexOfChar(n[1..], ']') + 2..]
  {
    var n := ['['] + (m + ([']'] + t));
    assert n[1..] == m + ([']'] + t);
    assert n[1..][|m|] == ']';
    IndexOfCharAfter(m, ']', t);
    assert n[|m| + 2..] == t;
  }

  /** A stretch of whitespace has no non-space text. */
  lemma {:induction false} NonSpaceOfBlankSlice(c: string, a: int, b: int)
    requires 0 <= a <= b <= |c|
    requires forall j :: a <= j < b ==> IsSpace(c[j])
    ensures NonSpace(c[a..b]) == []
    decreases b - a
  {
    if a < b {
      assert c[a..b][1..] == c[a + 1..b];
      NonSpaceOfBlankSlice(c, a + 1, b);
    }
  }

  /** The first `c` of `a + [c] + b`, when `a` has none, is at `|a|`. */
  lemma {:induction false} IndexOfCharAfter(a: string, c: char, b: string)
    requires c !in a
    ensures IndexOfChar(a + ([c] + b), c) == |a|
  {
    if a != [] {
      assert (a + ([c] + b))[1..] == a[1..] + ([c] + b);
      IndexOfCharAfter(a[1..], c, b);
    }
  }

  /** A suffix keeps the single-space properties of collapsed text. */
  lemma SpacesOfSuffix(c: string, r: string)
    requires |r| <= |c| && r == c[|c| - |r|..]
    requires forall i :: 0 <= i < |c| ==> !IsSpace(c[i]) || c[i] == ' '
    requires forall i :: 0 <= i < |c| - 1 ==> !(c[i] == ' ' && c[i + 1] == ' ')
    ensures forall i :: 0 <= i < |r| ==> !IsSpace(r[i]) || r[i] == ' '
    ensures forall i :: 0 <= i < |r| - 1 ==> !(r[i] == ' ' && r[i + 1] == ' ')
    ensures r != [] ==> r[|r| - 1] == c[|c| - 1]
  {
    var d := |c| - |r|;
    forall i | 0 <= i < |r|
      ensures r[i] == c[d + i]
    {
    }
  }

  /** Without a leading "[...]" block, sanitising only collapses whitespace. */
  lemma SanitizeWithoutBracket(s: string)
    requires Strip(s) == [] || Strip(s)[0] != '['
    ensures SanitizeMessage(s) == CollapseSpaces(Strip(s))
  {
  }

  // ---------------------------------------------------------- business hours

  /** `is_business_hours`: Monday to Friday, from 09:00 up to but not including 18:00. */
  predicate IsBusinessHours(t: DateTime)
    requires ValidDateTime(t)
  {
    Weekday(t.date) < 5 && 9 <= t.Hour() < 18
  }

  /** `get_next_business_day`: the first weekday after `t`'s date, at 09:00. */
  method GetNextBusinessDay(t: DateTime) returns (r: DateTime)
    requires ValidDateTime(t)
    ensures ValidDateTime(r) && r.minute == 9 * 60
    ensures Weekday(r.date) < 5 && IsBusinessHours(r)
    ensures var k := DayNumber(r.date) - DayNumber(t.date);
      1 <= k <= 3 && r.date == AddDays(t.date, k)
      && forall j :: 1 <= j < k ==> Weekday(AddDays(t.date, j)) >= 5
  {
    var next := NextDay(t.date);
    var k := 1;
    assert next == AddDays(t.date, 1) by { assert AddDays(NextDay(t.date), 0) == NextDay(t.date); }
    while Weekday(next) >= 5
      invariant ValidDate(next) && 1 <= k <= 3 && next == AddDays(t.date, k)
      invariant forall j :: 1 <= j < k ==> Weekday(AddDays(t.date, j)) >= 5
      invariant Weekday(next) >= 5 ==> k <= Weekday(next) - 4
      decreases 3 - k
    {
      WeekendStep(t.date, k, next);
      next := NextDay(next);
      k := k + 1;
    }
    r := DateTime(next, 9 * 60);
    BusinessDayFound(t, k, next);
  }

  /** The first weekday `k` days after `t`, at 09:00, is the next business morning. */
  lemma BusinessDayFound(t: DateTime, k: nat, next: Date)
    requires ValidDateTime(t) && ValidDate(next) && 1 <= k <= 3 && next == AddDays(t.date, k)
    requires forall j :: 1 <= j < k ==> Weekday(AddDays(t.date, j)) >= 5
    requires Weekday(next) < 5
    ensures var r := DateTime(next, 9 * 60);
      ValidDateTime(r) && IsBusinessHours(r) && DayNumber(r.date) - DayNumber(t.date) == k
  {
    DayNumberAddDays(t.date, k);
  }

  /** From a weekend day `k` days after `d`, the next day is `k + 1` days after it, and a Sunday is followed by a Monday. */
  lemma WeekendStep(d: Date, k: nat, next: Date)
    requires ValidDate(d) && ValidDate(next) && 1 <= k <= 3 && next == AddDays(d, k)
    requires forall j :: 1 <= j < k ==> Weekday(AddDays(d, j)) >= 5
    requires Weekday(next) >= 5 && k <= Weekday(next) - 4
    ensures ValidDate(NextDay(next)) && k + 1 <= 3 && NextDay(next) == AddDays(d, k + 1)
    ensures forall j :: 1 <= j < k + 1 ==> Weekday(AddDays(d, j)) >= 5
    ensures Weekday(NextDay(next)) >= 5 ==> k + 1 <= Weekday(NextDay(next)) - 4
  {
    AddDaysStep(d, k);
    WeekdayNextDay(next);
  }

  lemma {:induction false} AddDaysStep(d: Date, k: nat)
    requires ValidDate(d)
    ensures AddDays(d, k + 1) == NextDay(AddDays(d, k))
    decreases k
  {
    if k > 0 {
      AddDaysStep(NextDay(d), k - 1);
    }
  }
}
