/**
 * The date and time readers of the calendar service: `_parse_date_string`,
 * `_parse_time_string` and `parse_datetime_string`. Each is a first-match chain:
 * exact phrases, substring tables in dictionary order, `strptime` formats in list
 * order, and regular-expression searches. `strptime` is modelled for exactly the
 * directives these formats use, over lower-cased ASCII text.
 */
module DateParse {
  import opened Wrappers
  import opened Text
  import opened Civil
  import opened Helpers
  import Schemas

  // ------------------------------------------------------------- strptime

  /** The `strptime` directives of the format lists; `Blank` is a space in a format, read as `\s+`. */
  datatype Directive =
    | Year | Month | Day | MonthName | MonthAbbr | Hour24 | Hour12 | Minute | AmPm
    | Lit(c: char) | Blank

  /** What a successful match recorded; unset fields keep `strptime`'s defaults. */
  datatype Fields = Fields(year: int, month: int, day: int, hour: int, minute: int, hour12: Option<int>, pm: Option<bool>)

  function DefaultFields(): Fields { Fields(1900, 1, 1, 0, 0, None, None) }

  function FullMonths(): seq<string> {
    ["january", "february", "march", "april", "may", "june", "july", "august", "september", "october", "november", "december"]
  }

  function AbbrMonths(): seq<string> {
    ["jan", "feb", "mar", "apr", "may", "jun", "jul", "aug", "sep", "oct", "nov", "dec"]
  }

  /** The first month name, from index `k` on, that occurs at position `i`: its month number. */
  function MonthNameAt(t: string, i: nat, names: seq<string>, k: nat): (r: Option<int>)
    requires |names| == 12
    ensures r.Some? ==> k < r.value <= 12 && MatchAt(t, names[r.value - 1], i)
    decreases 12 - k
  {
    if k >= 12 then None
    else if MatchAt(t, names[k], i) then Some(k + 1)
    else MonthNameAt(t, i, names, k + 1)
  }

  /** The `" [1-9]"` alternative of `%d` and `%I`: a space and one non-zero digit. */
  predicate SpacedDigit(t: string, i: nat) {
    i + 1 < |t| && t[i] == ' ' && '1' <= t[i + 1] <= '9'
  }

  /** The value of the `n` digits at `i`. */
  function NumberAt(t: string, i: nat, n: nat): nat
    requires i + n <= |t| && AllDigits(t[i..i + n])
  {
    DigitsValue(t[i..i + n])
  }

  predicate Numeric(d: Directive) {
    d.Year? || d.Month? || d.Day? || d.Hour24? || d.Hour12? || d.Minute?
  }

  /**
   * A numeric directive at position `i`. Every numeric directive of the format
   * lists is followed by a directive that cannot start with a digit, so the
   * regular expression's backtracking succeeds exactly when the whole run of
   * digits at `i` is the field.
   */
  function NumberStep(t: string, i: nat, d: Directive, f: Fields): (r: Option<(nat, Fields)>)
    requires i <= |t| && Numeric(d)
    ensures r.Some? ==> i < r.value.0 <= |t|
  {
    var n := DigitRun(t, i);
    var v := NumberAt(t, i, n);
    var short := n == 1 || n == 2;
    var spaced := SpacedDigit(t, i);
    var sv := if spaced then DigitValue(t[i + 1]) else 0;
    match d
    case Year => if n == 4 then Some((i + 4, f.(year := v))) else None
    case Month => if short && 1 <= v <= 12 then Some((i + n, f.(month := v))) else None
    case Day =>
      if short && 1 <= v <= 31 then Some((i + n, f.(day := v)))
      else if spaced then Some((i + 2, f.(day := sv)))
      else None
    case Hour24 => if short && v <= 23 then Some((i + n, f.(hour := v))) else None
    case Hour12 =>
      if short && 1 <= v <= 12 then Some((i + n, f.(hour12 := Some(v))))
      else if spaced then Some((i + 2, f.(hour12 := Some(sv))))
      else None
    case Minute => if short && v <= 59 then Some((i + n, f.(minute := v))) else None
  }

  /** A month name or abbreviation at position `i`. */
  function MonthStep(t: string, i: nat, names: seq<string>, f: Fields): (r: Option<(nat, Fields)>)
    requires i <= |t| && |names| == 12
    requires forall k :: 0 <= k < 12 ==> |names[k]| >= 3
    ensures r.Some? ==> i < r.value.0 <= |t|
  {
    var m := MonthNameAt(t, i, names, 0);
    if m.Some? then Some((i + |names[m.value - 1]|, f.(month := m.value))) else None
  }

  /** Matches one directive at position `i`: the position after it and the fields with its value recorded. */
  function Step(t: string, i: nat, d: Directive, f: Fields): (r: Option<(nat, Fields)>)
    requires i <= |t|
    ensures r.Some? ==> i < r.value.0 <= |t|
  {
    if Numeric(d) then NumberStep(t, i, d, f)
    else match d
      case AmPm =>
        if MatchAt(t, "am", i) then Some((i + 2, f.(pm := Some(false))))
        else if MatchAt(t, "pm", i) then Some((i + 2, f.(pm := Some(true))))
        else None
      case MonthName => MonthStep(t, i, FullMonths(), f)
      case MonthAbbr => MonthStep(t, i, AbbrMonths(), f)
      case Lit(c) => if i < |t| && t[i] == c then Some((i + 1, f)) else None
      case Blank => if i < |t| && IsSpace(t[i]) then Some((SkipSpaces(t, i), f)) else None
  }

  /** Matches `fmt` against `t` from position `i` to the end, as `strptime` requires. */
  function Scan(t: string, i: nat, fmt: seq<Directive>, f: Fields): Option<Fields>
    requires i <= |t|
    decreases |fmt|
  {
    if fmt == [] then (if i == |t| then Some(f) else None)
    else
      var s := Step(t, i, fmt[0], f);
      if s.None? then None else Scan(t, s.value.0, fmt[1..], s.value.1)
  }

  /** The hour `strptime` settles on: `%I` with `%p` folds into the 24-hour clock. */
  function HourOf(f: Fields): int {
    match f.hour12
    case None => f.hour
    case Some(h) =>
      if f.pm == Some(true) then (if h == 12 then 12 else h + 12)
      else if h == 12 then 0 else h
  }

  /** `datetime.strptime(t, fmt).date()`, which also rejects a day the month does not have. */
  function StrptimeDate(t: string, fmt: seq<Directive>): (r: Option<Date>)
    ensures r.Some? ==> ValidDate(r.value) && r.value.year >= 1
  {
    var f := Scan(t, 0, fmt, DefaultFields());
    if f.None? then None
    else
      var d := Date(f.value.year, f.value.month, f.value.day);
      if d.year >= 1 && ValidDate(d) then Some(d) else None
  }

  /** `datetime.strptime(t, fmt).time()` as (hour, minute). */
  function StrptimeTime(t: string, fmt: seq<Directive>): Option<(int, int)> {
    var f := Scan(t, 0, fmt, DefaultFields());
    if f.None? then None else Some((HourOf(f.value), f.value.minute))
  }

  // -------------------------------------------------------------- dates

  /** `date_formats`, in the order they are tried. */
  function DateFormats(): (r: seq<seq<Directive>>)
    ensures |r| == 13
  {
    [ [Year, Lit('-'), Month, Lit('-'), Day],
      [Day, Lit('/'), Month, Lit('/'), Year],
      [Month, Lit('/'), Day, Lit('/'), Year],
      [Day, Lit('-'), Month, Lit('-'), Year],
      [Month, Lit('-'), Day, Lit('-'), Year],
      [MonthName, Blank, Day, Lit(','), Blank, Year],
      [MonthAbbr, Blank, Day, Lit(','), Blank, Year],
      [Day, Blank, MonthName, Blank, Year],
      [Day, Blank, MonthAbbr, Blank, Year],
      [MonthName, Blank, Day],
      [MonthAbbr, Blank, Day],
      [Day, Blank, MonthName],
      [Day, Blank, MonthAbbr] ]
  }

  /** The first of `fmts[k..]` that `t` matches. */
  function FirstDateFormat(t: string, fmts: seq<seq<Directive>>, k: nat): (r: Option<Date>)
    ensures r.Some? ==> ValidDate(r.value) && r.value.year >= 1
    decreases |fmts| - k
  {
    if k >= |fmts| then None
    else
      var d := StrptimeDate(t, fmts[k]);
      if d.Some? then d else FirstDateFormat(t, fmts, k + 1)
  }

  /** The keys of the `weekdays` dictionary in insertion order; key `k` stands for weekday `k % 7`. */
  function WeekdayNames(): seq<string> {
    ["monday", "tuesday", "wednesday", "thursday", "friday", "saturday", "sunday",
     "mon", "tue", "wed", "thu", "fri", "sat", "sun"]
  }

  /** The weekday of the first key, from index `k` on, that occurs in `t`. */
  function WeekdayIn(t: string, k: nat): (r: Option<int>)
    ensures r.Some? ==> 0 <= r.value < 7
    decreases |WeekdayNames()| - k
  {
    if k >= |WeekdayNames()| then None
    else if Contains(t, WeekdayNames()[k]) then Some(k % 7)
    else WeekdayIn(t, k + 1)
  }

  /** The value of the first entry, from index `k` on, whose key occurs in `t`. */
  function FirstNameIn<V>(t: string, table: seq<(string, V)>, k: nat): Option<V>
    decreases |table| - k
  {
    if k >= |table| then None
    else if Contains(t, table[k].0) then Some(table[k].1)
    else FirstNameIn(t, table, k + 1)
  }

  /** A day of the current month that is already past moves to the same day of the next month. */
  function OrdinalDate(day: int, today: Date): (r: Option<Date>)
    requires ValidDate(today)
    ensures r.Some? ==> ValidDate(r.value) && r.value.day == day && !Before(r.value, today)
    ensures ValidDate(Date(today.year, today.month, day)) && !Before(Date(today.year, today.month, day), today)
      ==> r == Some(Date(today.year, today.month, day))
  {
    var target := Date(today.year, today.month, day);
    if !ValidDate(target) then None
    else if !Before(target, today) then Some(target)
    else if today.month == 12 then Some(Date(today.year + 1, 1, day))
    else if ValidDate(Date(today.year, today.month + 1, day)) then Some(Date(today.year, today.month + 1, day))
    else None
  }

  predicate OrdinalSuffixAt(t: string, i: nat) {
    MatchAt(t, "st", i) || MatchAt(t, "nd", i) || MatchAt(t, "rd", i) || MatchAt(t, "th", i)
  }

  /** `re.search(r'(\d{1,2})(st|nd|rd|th)', t)` from position `i`: the number of the first match. */
  function FindOrdinal(t: string, i: nat): (r: Option<nat>)
    ensures r.Some? ==> r.value < 100
    decreases |t| - i
  {
    if i >= |t| then None
    else if i + 1 < |t| && IsDigit(t[i]) && IsDigit(t[i + 1]) && OrdinalSuffixAt(t, i + 2) then
      Some(DigitValue(t[i]) * 10 + DigitValue(t[i + 1]))
    else if IsDigit(t[i]) && OrdinalSuffixAt(t, i + 1) then Some(DigitValue(t[i]))
    else FindOrdinal(t, i + 1)
  }

  /** The exact phrases of `_parse_date_string`: days from today. */
  function FixedOffset(t: string): (r: Option<int>) {
    if t == "today" then Some(0)
    else if t == "tomorrow" then Some(1)
    else if t == "day after tomorrow" then Some(2)
    else if t == "yesterday" then Some(-1)
    else None
  }

  /** The `"next week"` / `"next month"` phrases: days from today. */
  function NextPeriodOffset(t: string): (r: Option<int>) {
    if Contains(t, "next week") then Some(7)
    else if Contains(t, "next month") then Some(30)
    else None
  }

  /** A parsed date whose year is 1900, the default of a format without `%Y`, takes today's year. */
  function WithDefaultYear(d: Date, today: Date): (r: Date)
    requires ValidDate(d)
    ensures ValidDate(r) && r.month == d.month && r.day == d.day
    ensures r.year == (if d.year == 1900 then today.year else d.year)
  {
    if d.year == 1900 then Date(today.year, d.month, d.day) else d
  }

  /** The chain of `_parse_date_string` on lower-cased, stripped text. */
  function DateFromText(t: string, today: Date): (r: Option<Date>)
    requires ValidDate(today)
    ensures r.Some? ==> ValidDate(r.value)
  {
    var fixed := FixedOffset(t);
    var w := WeekdayIn(t, 0);
    var next := NextPeriodOffset(t);
    var d := FirstDateFormat(t, DateFormats(), 0);
    var n := FindOrdinal(t, 0);
    if fixed.Some? then Some(AddDays(today, fixed.value))
    else if w.Some? then Some(AddDays(today, DaysAhead(w.value, Weekday(today))))
    else if next.Some? then Some(AddDays(today, next.value))
    else if d.Some? then Some(WithDefaultYear(d.value, today))
    else if n.Some? then OrdinalDate(n.value, today)
    else None
  }

  /** `_parse_date_string(s, now)` with `now`'s date as `today`. */
  function ParseDateString(raw: string, today: Date): (r: Option<Date>)
    requires ValidDate(today)
    ensures r.Some? ==> ValidDate(r.value)
  {
    DateFromText(Strip(Lower(raw)), today)
  }

  // -------------------------------------------------------------- times

  /** After `j`: `\s*(?:o'clock)?\s*(in the\s*)?(morning|afternoon|evening)`. */
  predicate PeriodTail(t: string, j: nat)
    requires j <= |t|
  {
    var a := SkipSpaces(t, j);
    var b := if MatchAt(t, "o'clock", a) then SkipSpaces(t, a + 7) else a;
    var c := if MatchAt(t, "in the", b) then SkipSpaces(t, b + 6) else b;
    MatchAt(t, "morning", c) || MatchAt(t, "afternoon", c) || MatchAt(t, "evening", c)
  }

  /**
   * `re.search(r"(\d{1,2})\s*(?:o'clock)?\s*(in the\s*)?(morning|afternoon|evening)", t)`
   * from position `i`. A match may always start at its last digit, so it is enough
   * to look for one digit followed by the tail.
   */
  predicate PeriodSearch(t: string, i: nat)
    decreases |t| - i
  {
    i < |t| && ((IsDigit(t[i]) && PeriodTail(t, i + 1)) || PeriodSearch(t, i + 1))
  }

  /** The `time_mappings` dictionary in insertion order. */
  function TimePhraseTable(): seq<(string, (int, int))> {
    [("morning", (9, 0)), ("early morning", (7, 0)), ("late morning", (11, 0)), ("noon", (12, 0)),
     ("afternoon", (14, 0)), ("early afternoon", (13, 0)), ("late afternoon", (16, 0)),
     ("evening", (18, 0)), ("early evening", (17, 0)), ("late evening", (20, 0)),
     ("night", (21, 0)), ("midnight", (0, 0))]
  }

  /** `time_formats`, in the order they are tried. */
  function TimeFormats(): (r: seq<seq<Directive>>)
    ensures |r| == 7
  {
    [ [Hour24, Lit(':'), Minute],
      [Hour24, Lit('.'), Minute],
      [Hour12, Lit(':'), Minute, Blank, AmPm],
      [Hour12, Lit(':'), Minute, AmPm],
      [Hour12, Blank, AmPm],
      [Hour12, AmPm],
      [Hour24] ]
  }

  function FirstTimeFormat(t: string, fmts: seq<seq<Directive>>, k: nat): Option<(int, int)>
    decreases |fmts| - k
  {
    if k >= |fmts| then None
    else
      var r := StrptimeTime(t, fmts[k]);
      if r.Some? then r else FirstTimeFormat(t, fmts, k + 1)
  }

  predicate AmPmAfterSpaces(t: string, j: nat)
    requires j <= |t|
  {
    var k := SkipSpaces(t, j);
    MatchAt(t, "am", k) || MatchAt(t, "pm", k)
  }

  /** `re.search(r'(\d{1,2})(?::(\d{2}))?\s*(am|pm)', t)` from position `i`, again from the last digit. */
  predicate MeridiemSearch(t: string, i: nat)
    decreases |t| - i
  {
    i < |t| &&
    ((IsDigit(t[i]) &&
      ((i + 3 < |t| && t[i + 1] == ':' && IsDigit(t[i + 2]) && IsDigit(t[i + 3]) && AmPmAfterSpaces(t, i + 4))
       || AmPmAfterSpaces(t, i + 1)))
     || MeridiemSearch(t, i + 1))
  }

  /**
   * The chain of `_parse_time_string` on lower-cased, stripped text. The three
   * branches that build the answer with `datetime.time(h, m)` call the `time`
   * method of the `datetime` class on an `int`, which raises `TypeError`: they are
   * `Raised`.
   */
  function TimeFromText(t: string): (r: Result<Option<(int, int)>>)
  {
    if PeriodSearch(t, 0) then Raised
    else
      var p := FirstNameIn(t, TimePhraseTable(), 0);
      if p.Some? then Ok(p)
      else
        var f := FirstTimeFormat(t, TimeFormats(), 0);
        if f.Some? then Ok(f)
        else if MeridiemSearch(t, 0) then Raised
        else if AllDigits(t) && (|t| == 3 || |t| == 4) then Raised
        else Ok(None)
  }

  /** `_parse_time_string(s)`. */
  function ParseTimeString(raw: string): Result<Option<(int, int)>> {
    TimeFromText(Strip(Lower(raw)))
  }

  /**
   * `parse_datetime_string(date, time)`: `None` when either part fails, when the
   * time reader raises, or when a part is not a string (`.lower()` raises).
   */
  function ParseDateTime(date: Schemas.Value, time: Schemas.Value, today: Date): (r: Option<DateTime>)
    requires ValidDate(today)
    ensures r.Some? ==> date.Str? && time.Str? && ParseDateString(date.s, today) == Some(r.value.date)
    ensures r.Some? ==> time.Str? && var tm := ParseTimeString(time.s);
      tm.Ok? && tm.value.Some? && r.value.minute == tm.value.value.0 * 60 + tm.value.value.1
    ensures (date.Str? && time.Str? && ParseDateString(date.s, today).Some? && ParseTimeString(time.s).Ok?
             && ParseTimeString(time.s).value.Some?) ==> r.Some?
  {
    if !date.Str? then None
    else
      var d := ParseDateString(date.s, today);
      if d.None? || !time.Str? then None
      else
        var tm := ParseTimeString(time.s);
        if tm.Raised? || tm.value.None? then None
        else Some(DateTime(d.value, tm.value.value.0 * 60 + tm.value.value.1))
  }

  // ------------------------------------------------------------ renderings

  /**
   * `strftime('%Y-%m-%d')`. The C library writes a year below 1000 without
   * leading zeros; a four-digit year gives ten characters.
   */
  function IsoDate(d: Date): (r: string)
    requires ValidDate(d)
    ensures 1000 <= d.year <= 9999 ==> |r| == 10
  {
    assert 1000 <= d.year <= 9999 ==> |IntToString(d.year)| == 4 by {
      if 1000 <= d.year <= 9999 { NatToStringLength4(d.year); }
    }
    IntToString(d.year) + "-" + TwoDigits(d.month) + "-" + TwoDigits(d.day)
  }

  lemma NatToStringLength4(y: nat)
    requires 1000 <= y <= 9999
    ensures |NatToString(y)| == 4
  {
    assert NatToString(y) == NatToString(y / 10) + [DigitChar(y % 10)];
    assert NatToString(y / 10) == NatToString(y / 100) + [DigitChar(y / 10 % 10)];
    assert NatToString(y / 100) == NatToString(y / 1000) + [DigitChar(y / 100 % 10)];
  }

  /** `strftime('%H:%M')` for a minute of the day. */
  function ClockText(minute: int): (r: string)
    requires 0 <= minute < 1440
    ensures |r| == 5
  {
    TwoDigits(minute / 60) + ":" + TwoDigits(minute % 60)
  }
}

module DateParseFacts {
  import opened Wrappers
  import opened Text
  import opened Civil
  import opened Helpers
  import opened DateParse
  import Schemas

  predicate NoLetter(t: string) {
    forall i :: 0 <= i < |t| ==> !('a' <= t[i] <= 'z')
  }

  lemma MatchAtFirstChar(t: string, w: string, i: int)
    requires w != []
    ensures MatchAt(t, w, i) ==> 0 <= i < |t| && t[i] == w[0]
  {
    if MatchAt(t, w, i) {
      assert t[i..i + |w|][0] == w[0];
    }
  }

  /** Where `t` contains `w`, the first character of `w` is in `t`. */
  lemma FirstCharOfFind(t: string, w: string)
    requires w != []
    ensures Contains(t, w) ==> 0 <= Find(t, w, 0) < |t| && t[Find(t, w, 0)] == w[0]
  {
    MatchAtFirstChar(t, w, Find(t, w, 0));
  }

  /** A word that starts with a letter does not occur in text without letters. */
  lemma NoWordIn(t: string, w: string)
    requires NoLetter(t) && w != [] && 'a' <= w[0] <= 'z'
    ensures !Contains(t, w)
  {
    FirstCharOfFind(t, w);
  }

  lemma {:induction false} NoWeekdayIn(t: string, k: nat)
    requires NoLetter(t)
    ensures WeekdayIn(t, k) == None
    decreases |WeekdayNames()| - k
  {
    if k < |WeekdayNames()| {
      NoWordIn(t, WeekdayNames()[k]);
      NoWeekdayIn(t, k + 1);
    }
  }

  /** Where the text at `i` is the digit string `s` and no digit follows, the run of digits there is `s`. */
  lemma DigitsAt(t: string, i: nat, s: string)
    requires i + |s| <= |t| && t[i..i + |s|] == s && AllDigits(s)
    requires i + |s| == |t| || !IsDigit(t[i + |s|])
    ensures DigitRun(t, i) == |s| && NumberAt(t, i, |s|) == DigitsValue(s)
  {
    forall j | i <= j < i + |s|
      ensures IsDigit(t[j])
    {
      assert t[j] == s[j - i];
    }
    DigitRunUpTo(t, i, i + |s|);
    NumberOfSlice(t, i, s);
  }

  lemma NumberOfSlice(t: string, i: nat, s: string)
    requires i + |s| <= |t| && t[i..i + |s|] == s && AllDigits(s)
    ensures NumberAt(t, i, |s|) == DigitsValue(s)
  {
  }

  /** The pieces of three fields joined by two separators, found back by position. */
  lemma FiveParts(a: string, c: char, b: string, d: char, e: string)
    ensures var t := a + [c] + b + [d] + e;
      |t| == |a| + |b| + |e| + 2 && t[..|a|] == a && t[|a|] == c && t[|a| + 1..|a| + 1 + |b|] == b
      && t[|a| + 1 + |b|] == d && t[|a| + 2 + |b|..] == e
  {
    var t := a + [c] + b + [d] + e;
    assert t[..|a|] == a;
    assert t[|a| + 1..|a| + 1 + |b|] == b;
    assert t[|a| + 2 + |b|..] == e;
  }

  /** The two halves of a concatenation, found back by position. */
  lemma TwoParts(a: string, b: string)
    ensures |a + b| == |a| + |b| && (a + b)[..|a|] == a && (a + b)[|a|..] == b
    ensures b != [] ==> (a + b)[|a|] == b[0]
  {
  }

  /** The two pieces of two fields joined by a separator, found back by position. */
  lemma ThreeParts(a: string, c: char, b: string)
    ensures var t := a + [c] + b;
      |t| == |a| + |b| + 1 && t[..|a|] == a && t[|a|] == c && t[|a| + 1..] == b
  {
    var t := a + [c] + b;
    assert t[..|a|] == a;
    assert t[|a| + 1..] == b;
  }

  /** `ys-ms-ds` matches `%Y-%m-%d` field by field. */
  lemma ScanIso(ys: string, ms: string, ds: string)
    requires AllDigits(ys) && |ys| == 4 && AllDigits(ms) && |ms| == 2 && AllDigits(ds) && |ds| == 2
    requires 1 <= DigitsValue(ms) <= 12 && 1 <= DigitsValue(ds) <= 31
    ensures var r := Scan(ys + "-" + ms + "-" + ds, 0, DateFormats()[0], DefaultFields());
      r.Some? && r.value.year == DigitsValue(ys) && r.value.month == DigitsValue(ms) && r.value.day == DigitsValue(ds)
  {
    var t := ys + "-" + ms + "-" + ds;
    var fmt := DateFormats()[0];
    var f0 := DefaultFields();
    var f1 := f0.(year := DigitsValue(ys));
    var f2 := f1.(month := DigitsValue(ms));
    var f3 := f2.(day := DigitsValue(ds));
    FiveParts(ys, '-', ms, '-', ds);
    DigitsAt(t, 0, ys);
    assert Step(t, 0, Year, f0) == Some((4, f1));
    assert Step(t, 4, Lit('-'), f1) == Some((5, f1));
    DigitsAt(t, 5, ms);
    assert Step(t, 5, Month, f1) == Some((7, f2));
    assert Step(t, 7, Lit('-'), f2) == Some((8, f2));
    DigitsAt(t, 8, ds);
    assert Step(t, 8, Day, f2) == Some((10, f3));
    assert Scan(t, 10, fmt[5..], f3) == Some(f3);
    assert Scan(t, 8, fmt[4..], f2) == Some(f3);
    assert Scan(t, 7, fmt[3..], f2) == Some(f3);
    assert Scan(t, 5, fmt[2..], f1) == Some(f3);
    assert Scan(t, 4, fmt[1..], f1) == Some(f3);
  }

  /** The first date format reads an ISO date back. */
  lemma FirstFormatOfIso(d: Date)
    requires ValidDate(d) && 1000 <= d.year <= 9999
    ensures FirstDateFormat(IsoDate(d), DateFormats(), 0) == Some(d)
  {
    NatToStringLength4(d.year);
    NatToStringRoundTrip(d.year);
    ScanIso(NatToString(d.year), TwoDigits(d.month), TwoDigits(d.day));
  }

  lemma IsoHasNoLetter(d: Date)
    requires ValidDate(d) && 1000 <= d.year <= 9999
    ensures NoLetter(IsoDate(d))
  {
    var t := IsoDate(d);
    assert forall i :: 0 <= i < |t| ==> IsDigit(t[i]) || t[i] == '-';
  }

  /** Text without letters skips every phrase of the date chain and goes to the formats. */
  lemma LetterlessDate(t: string, today: Date)
    requires NoLetter(t) && ValidDate(today)
    ensures var d := FirstDateFormat(t, DateFormats(), 0);
      d.Some? ==> DateFromText(t, today) == Some(WithDefaultYear(d.value, today))
  {
    assert t != "today" && t != "tomorrow" && t != "day after tomorrow" && t != "yesterday" by {
      if |t| > 0 { assert !('a' <= t[0] <= 'z'); }
    }
    NoWeekdayIn(t, 0);
    NoWordIn(t, "next week");
    NoWordIn(t, "next month");
  }

  /** `_parse_date_string` reads back the `%Y-%m-%d` rendering of any date but one in 1900. */
  lemma DateFromIso(d: Date, today: Date)
    requires ValidDate(d) && ValidDate(today) && 1000 <= d.year <= 9999 && d.year != 1900
    ensures DateFromText(IsoDate(d), today) == Some(d)
  {
    IsoHasNoLetter(d);
    FirstFormatOfIso(d);
    LetterlessDate(IsoDate(d), today);
  }

  /** A word that starts with a letter matches nowhere in text without letters. */
  lemma NoMatchOfWord(t: string, w: string)
    requires NoLetter(t) && w != [] && 'a' <= w[0] <= 'z'
    ensures forall i :: !MatchAt(t, w, i)
  {
    forall i ensures !MatchAt(t, w, i) {
      MatchAtFirstChar(t, w, i);
    }
  }

  lemma {:induction false} NoPeriodSearch(t: string, i: nat)
    requires NoLetter(t)
    ensures !PeriodSearch(t, i)
    decreases |t| - i
  {
    if i < |t| {
      NoMatchOfWord(t, "morning");
      NoMatchOfWord(t, "afternoon");
      NoMatchOfWord(t, "evening");
      NoPeriodSearch(t, i + 1);
    }
  }

  lemma {:induction false} NoTimePhraseIn(t: string, k: nat)
    requires NoLetter(t)
    ensures FirstNameIn(t, TimePhraseTable(), k) == None
    decreases |TimePhraseTable()| - k
  {
    if k < |TimePhraseTable()| {
      NoWordIn(t, TimePhraseTable()[k].0);
      NoTimePhraseIn(t, k + 1);
    }
  }

  /** `hs:ms` matches `%H:%M` field by field. */
  lemma ScanClock(hs: string, ms: string)
    requires AllDigits(hs) && |hs| == 2 && AllDigits(ms) && |ms| == 2
    requires DigitsValue(hs) <= 23 && DigitsValue(ms) <= 59
    ensures var r := Scan(hs + ":" + ms, 0, TimeFormats()[0], DefaultFields());
      r.Some? && HourOf(r.value) == DigitsValue(hs) && r.value.minute == DigitsValue(ms)
  {
    var t := hs + ":" + ms;
    var fmt := TimeFormats()[0];
    var f0 := DefaultFields();
    var f1 := f0.(hour := DigitsValue(hs));
    var f2 := f1.(minute := DigitsValue(ms));
    ThreeParts(hs, ':', ms);
    DigitsAt(t, 0, hs);
    assert Step(t, 0, Hour24, f0) == Some((2, f1));
    assert Step(t, 2, Lit(':'), f1) == Some((3, f1));
    DigitsAt(t, 3, ms);
    assert Step(t, 3, Minute, f1) == Some((5, f2));
    assert Scan(t, 5, fmt[3..], f2) == Some(f2);
    assert Scan(t, 3, fmt[2..], f1) == Some(f2);
    assert Scan(t, 2, fmt[1..], f1) == Some(f2);
  }

  lemma ClockHasNoLetter(minute: int)
    requires 0 <= minute < 1440
    ensures NoLetter(ClockText(minute))
  {
    var t := ClockText(minute);
    assert forall i :: 0 <= i < |t| ==> IsDigit(t[i]) || t[i] == ':';
  }

  /** `_parse_time_string` reads back the `%H:%M` rendering of any minute of the day. */
  lemma TimeFromClock(minute: int)
    requires 0 <= minute < 1440
    ensures TimeFromText(ClockText(minute)) == Ok(Some((minute / 60, minute % 60)))
  {
    var t := ClockText(minute);
    ClockHasNoLetter(minute);
    NoPeriodSearch(t, 0);
    NoTimePhraseIn(t, 0);
    ScanClock(TwoDigits(minute / 60), TwoDigits(minute % 60));
  }

  lemma IsoNormalised(d: Date)
    requires ValidDate(d) && 1000 <= d.year <= 9999
    ensures Strip(Lower(IsoDate(d))) == IsoDate(d)
  {
    var t := IsoDate(d);
    assert forall i :: 0 <= i < |t| ==> IsDigit(t[i]) || t[i] == '-';
    assert NoUpper(t);
    NormalisedText(t);
  }

  lemma ClockNormalised(minute: int)
    requires 0 <= minute < 1440
    ensures Strip(Lower(ClockText(minute))) == ClockText(minute)
  {
    var t := ClockText(minute);
    assert forall i :: 0 <= i < |t| ==> IsDigit(t[i]) || t[i] == ':';
    assert NoUpper(t);
    NormalisedText(t);
  }

  /**
   * `update_event` fills a missing date or time with `strftime('%Y-%m-%d')` and
   * `strftime('%H:%M')` of the current start; reading both back gives that start.
   */
  lemma ParseDateTimeRoundTrip(t: DateTime, today: Date)
    requires ValidDateTime(t) && ValidDate(today) && 1000 <= t.date.year <= 9999 && t.date.year != 1900
    ensures var r := ParseDateTime(Schemas.Str(IsoDate(t.date)), Schemas.Str(ClockText(t.minute)), today);
      r.Some? && r.value.date == t.date && r.value.minute == t.minute
  {
    DateStringOfIso(t.date, today);
    TimeStringOfClock(t.minute);
  }

  /** When both readers succeed, `parse_datetime_string` combines their answers. */
  lemma ParseDateTimeOfParts(ds: string, ts: string, today: Date, d: Date, hm: (int, int))
    requires ValidDate(today) && ParseDateString(ds, today) == Some(d) && ParseTimeString(ts) == Ok(Some(hm))
    ensures var r := ParseDateTime(Schemas.Str(ds), Schemas.Str(ts), today);
      r.Some? && r.value.date == d && r.value.minute == hm.0 * 60 + hm.1
  {
  }

  lemma DateStringOfIso(d: Date, today: Date)
    requires ValidDate(d) && ValidDate(today) && 1000 <= d.year <= 9999 && d.year != 1900
    ensures ParseDateString(IsoDate(d), today) == Some(d)
  {
    IsoNormalised(d);
    DateFromIso(d, today);
  }

  lemma TimeStringOfClock(minute: int)
    requires 0 <= minute < 1440
    ensures var r := ParseTimeString(ClockText(minute));
      r.Ok? && r.value.Some? && r.value.value.0 == minute / 60 && r.value.value.1 == minute % 60
  {
    var t := ClockText(minute);
    ClockNormalised(minute);
    assert ParseTimeString(t) == TimeFromText(t);
    TimeFromClock(minute);
  }

  /** A weekday name lands on that weekday one to seven days ahead, whether or not "next" is written. */
  lemma WeekdayAhead(t: string, today: Date)
    requires ValidDate(today) && FixedOffset(t).None? && WeekdayIn(t, 0).Some?
    ensures var r := DateFromText(t, today);
      r.Some? && Weekday(r.value) == WeekdayIn(t, 0).value && 1 <= DayNumber(r.value) - DayNumber(today) <= 7
      && (Weekday(today) == WeekdayIn(t, 0).value ==> DayNumber(r.value) - DayNumber(today) == 7)
  {
    var n := DaysAhead(WeekdayIn(t, 0).value, Weekday(today));
    WeekdayAddDays(today, n);
    DayNumberAddDays(today, n);
  }

  lemma {:induction false} WeekdayFound(t: string, k: nat, j: nat)
    requires k <= j < |WeekdayNames()| && Contains(t, WeekdayNames()[j])
    ensures WeekdayIn(t, k).Some?
    decreases j - k
  {
    if k < j && !Contains(t, WeekdayNames()[k]) {
      WeekdayFound(t, k + 1, j);
    }
  }

  /**
   * Any text with "next month" in it also contains "mon", so the weekday table
   * answers first: the coming weekday, one to seven days ahead, never thirty.
   */
  lemma NextMonthIsWeekday(t: string, today: Date)
    requires ValidDate(today) && FixedOffset(t).None? && Contains(t, "next month")
    ensures var r := DateFromText(t, today);
      r.Some? && 1 <= DayNumber(r.value) - DayNumber(today) <= 7 && r != Some(AddDays(today, 30))
  {
    var i := Find(t, "next month", 0);
    assert t[i..i + 10] == "next month";
    MatchInside(t, "next month", i, 5, 8);
    assert "next month"[5..8] == "mon";
    ContainsAt(t, "mon", i + 5);
    WeekdayFound(t, 0, 7);
    WeekdayAhead(t, today);
    DayNumberAddDays(today, 30);
  }

  /** `%Y-%m-%d` needs four digits at the start. */
  lemma YearFirstNeedsFourDigits(t: string)
    requires DigitRun(t, 0) != 4
    ensures StrptimeDate(t, DateFormats()[0]) == None
  {
    assert Step(t, 0, Year, DefaultFields()) == None;
  }

  /** `"dd/mm/yyyy"` fails `%Y-%m-%d` and matches `%d/%m/%Y` field by field. */
  lemma ScanDayFirst(ds: string, ms: string, ys: string)
    requires AllDigits(ds) && |ds| == 2 && AllDigits(ms) && |ms| == 2 && AllDigits(ys) && |ys| == 4
    requires 1 <= DigitsValue(ds) <= 31 && 1 <= DigitsValue(ms) <= 12
    ensures var r := Scan(ds + "/" + ms + "/" + ys, 0, DateFormats()[1], DefaultFields());
      r.Some? && r.value.year == DigitsValue(ys) && r.value.month == DigitsValue(ms) && r.value.day == DigitsValue(ds)
  {
    var t := ds + "/" + ms + "/" + ys;
    var fmt := DateFormats()[1];
    var f0 := DefaultFields();
    var f1 := f0.(day := DigitsValue(ds));
    var f2 := f1.(month := DigitsValue(ms));
    var f3 := f2.(year := DigitsValue(ys));
    FiveParts(ds, '/', ms, '/', ys);
    DigitsAt(t, 0, ds);
    assert Step(t, 0, Day, f0) == Some((2, f1));
    assert Step(t, 2, Lit('/'), f1) == Some((3, f1));
    DigitsAt(t, 3, ms);
    assert Step(t, 3, Month, f1) == Some((5, f2));
    assert Step(t, 5, Lit('/'), f2) == Some((6, f2));
    DigitsAt(t, 6, ys);
    assert Step(t, 6, Year, f2) == Some((10, f3));
    assert Scan(t, 10, fmt[5..], f3) == Some(f3);
    assert Scan(t, 6, fmt[4..], f2) == Some(f3);
    assert Scan(t, 5, fmt[3..], f2) == Some(f3);
    assert Scan(t, 3, fmt[2..], f1) == Some(f3);
    assert Scan(t, 2, fmt[1..], f1) == Some(f3);
  }

  /** `"mm/dd/yyyy"` with a day above 12 fails `%d/%m/%Y` and matches `%m/%d/%Y`. */
  lemma ScanMonthFirst(ms: string, ds: string, ys: string)
    requires AllDigits(ds) && |ds| == 2 && AllDigits(ms) && |ms| == 2 && AllDigits(ys) && |ys| == 4
    requires 13 <= DigitsValue(ds) <= 31 && 1 <= DigitsValue(ms) <= 12
    ensures Scan(ms + "/" + ds + "/" + ys, 0, DateFormats()[1], DefaultFields()) == None
    ensures var r := Scan(ms + "/" + ds + "/" + ys, 0, DateFormats()[2], DefaultFields());
      r.Some? && r.value.year == DigitsValue(ys) && r.value.month == DigitsValue(ms) && r.value.day == DigitsValue(ds)
  {
    var t := ms + "/" + ds + "/" + ys;
    var fmt := DateFormats()[2];
    var f0 := DefaultFields();
    var f1 := f0.(month := DigitsValue(ms));
    var f2 := f1.(day := DigitsValue(ds));
    var f3 := f2.(year := DigitsValue(ys));
    var g1 := f0.(day := DigitsValue(ms));
    FiveParts(ms, '/', ds, '/', ys);
    DigitsAt(t, 0, ms);
    assert Step(t, 0, Day, f0) == Some((2, g1));
    assert Step(t, 2, Lit('/'), g1) == Some((3, g1));
    DigitsAt(t, 3, ds);
    assert Step(t, 3, Month, g1) == None;
    assert Scan(t, 2, DateFormats()[1][1..], g1) == None;
    assert Step(t, 0, Month, f0) == Some((2, f1));
    assert Step(t, 2, Lit('/'), f1) == Some((3, f1));
    assert Step(t, 3, Day, f1) == Some((5, f2));
    assert Step(t, 5, Lit('/'), f2) == Some((6, f2));
    DigitsAt(t, 6, ys);
    assert Step(t, 6, Year, f2) == Some((10, f3));
    assert Scan(t, 10, fmt[5..], f3) == Some(f3);
    assert Scan(t, 6, fmt[4..], f2) == Some(f3);
    assert Scan(t, 5, fmt[3..], f2) == Some(f3);
    assert Scan(t, 3, fmt[2..], f1) == Some(f3);
    assert Scan(t, 2, fmt[1..], f1) == Some(f3);
  }

  /** Two two-digit numbers and a four-digit year joined by slashes. */
  function SlashText(a: nat, b: nat, year: nat): (r: string)
    requires a < 100 && b < 100 && 1000 <= year <= 9999
    ensures |r| == 10
  {
    NatToStringLength4(year);
    TwoDigits(a) + "/" + TwoDigits(b) + "/" + NatToString(year)
  }

  lemma SlashTextHasNoLetter(a: nat, b: nat, year: nat)
    requires a < 100 && b < 100 && 1000 <= year <= 9999
    ensures NoLetter(SlashText(a, b, year)) && DigitRun(SlashText(a, b, year), 0) == 2
  {
    var t := SlashText(a, b, year);
    assert forall i :: 0 <= i < |t| ==> IsDigit(t[i]) || t[i] == '/';
    DigitRunUpTo(t, 0, 2);
  }

  lemma FirstFormatOfDayFirst(d: Date)
    requires ValidDate(d) && 1000 <= d.year <= 9999
    ensures FirstDateFormat(SlashText(d.day, d.month, d.year), DateFormats(), 0) == Some(d)
  {
    var t := SlashText(d.day, d.month, d.year);
    NatToStringLength4(d.year);
    NatToStringRoundTrip(d.year);
    ScanDayFirst(TwoDigits(d.day), TwoDigits(d.month), NatToString(d.year));
    SlashTextHasNoLetter(d.day, d.month, d.year);
    YearFirstNeedsFourDigits(t);
  }

  lemma FirstFormatOfMonthFirst(d: Date)
    requires ValidDate(d) && 1000 <= d.year <= 9999 && d.day > 12
    ensures FirstDateFormat(SlashText(d.month, d.day, d.year), DateFormats(), 0) == Some(d)
  {
    var t := SlashText(d.month, d.day, d.year);
    NatToStringLength4(d.year);
    NatToStringRoundTrip(d.year);
    ScanMonthFirst(TwoDigits(d.month), TwoDigits(d.day), NatToString(d.year));
    SlashTextHasNoLetter(d.month, d.day, d.year);
    YearFirstNeedsFourDigits(t);
    assert FirstDateFormat(t, DateFormats(), 2) == Some(d);
  }

  /** `%d/%m/%Y` comes before `%m/%d/%Y`: a slash date is read day first whenever it can be. */
  lemma SlashDateIsDayFirst(d: Date, today: Date)
    requires ValidDate(d) && ValidDate(today) && 1000 <= d.year <= 9999 && d.year != 1900
    ensures DateFromText(SlashText(d.day, d.month, d.year), today) == Some(d)
  {
    FirstFormatOfDayFirst(d);
    SlashTextHasNoLetter(d.day, d.month, d.year);
    LetterlessDate(SlashText(d.day, d.month, d.year), today);
  }

  /** A month-first slash date is understood only when its day is above 12. */
  lemma SlashDateMonthFirst(d: Date, today: Date)
    requires ValidDate(d) && ValidDate(today) && 1000 <= d.year <= 9999 && d.year != 1900 && d.day > 12
    ensures DateFromText(SlashText(d.month, d.day, d.year), today) == Some(d)
  {
    FirstFormatOfMonthFirst(d);
    SlashTextHasNoLetter(d.month, d.day, d.year);
    LetterlessDate(SlashText(d.month, d.day, d.year), today);
  }

  // ------------------------------------------------------------ time examples

  /** Where `t` contains `w`, each character of `w` is in `t`. */
  lemma CharOfFind(t: string, w: string, j: nat)
    requires j < |w|
    ensures Contains(t, w) ==> 0 <= Find(t, w, 0) + j < |t| && t[Find(t, w, 0) + j] == w[j]
  {
    if Contains(t, w) {
      var r := Find(t, w, 0);
      assert MatchAt(t, w, r);
      assert t[r + j] == t[r..r + |w|][j];
    }
  }

  /** A position of the letter 'n' in each time phrase. */
  function PositionOfN(k: nat): nat
    requires k < 12
  {
    [3, 9, 8, 0, 5, 11, 10, 3, 9, 8, 0, 3][k]
  }

  /** Every time phrase has an 'n' in it, so text without one matches none of them. */
  lemma {:induction false} NoTimePhraseWithoutN(t: string, k: nat)
    requires forall i :: 0 <= i < |t| ==> t[i] != 'n'
    ensures FirstNameIn(t, TimePhraseTable(), k) == None
    decreases |TimePhraseTable()| - k
  {
    if k < |TimePhraseTable()| {
      var w := TimePhraseTable()[k].0;
      assert PositionOfN(k) < |w| && w[PositionOfN(k)] == 'n';
      CharOfFind(t, w, PositionOfN(k));
      NoTimePhraseWithoutN(t, k + 1);
    }
  }

  lemma {:induction false} ShortNoPeriodSearch(t: string, i: nat)
    requires |t| < 7
    ensures !PeriodSearch(t, i)
    decreases |t| - i
  {
    if i < |t| {
      ShortNoPeriodSearch(t, i + 1);
    }
  }

  /** A format that starts with a number and then a directive the next character of `t` cannot begin fails. */
  lemma NumberThenMismatch(t: string, fmt: seq<Directive>, f: Fields)
    requires |fmt| >= 2 && Numeric(fmt[0]) && (fmt[1].Lit? || fmt[1].Blank? || fmt[1].AmPm?)
    requires t != [] && IsDigit(t[0]) && DigitRun(t, 0) < |t|
    requires fmt[1].Lit? ==> t[DigitRun(t, 0)] != fmt[1].c
    requires fmt[1].Blank? ==> !IsSpace(t[DigitRun(t, 0)])
    requires fmt[1].AmPm? ==> t[DigitRun(t, 0)] != 'a' && t[DigitRun(t, 0)] != 'p'
    ensures Scan(t, 0, fmt, f) == None
  {
    var s := NumberStep(t, 0, fmt[0], f);
    if s.Some? {
      var n := DigitRun(t, 0);
      NumberStepEnd(t, fmt[0], f);
      assert s.value.0 == n;
      MismatchStep(t, n, fmt[1], s.value.1);
    }
  }

  /** A literal, a blank or `%p` fails on a character it cannot begin with. */
  lemma MismatchStep(t: string, i: nat, d: Directive, f: Fields)
    requires i < |t| && (d.Lit? || d.Blank? || d.AmPm?)
    requires d.Lit? ==> t[i] != d.c
    requires d.Blank? ==> !IsSpace(t[i])
    requires d.AmPm? ==> t[i] != 'a' && t[i] != 'p'
    ensures Step(t, i, d, f) == None
  {
    if d.AmPm? {
      assert !MatchAt(t, "am", i);
      assert !MatchAt(t, "pm", i);
    }
  }

  /** A numeric directive at a digit ends where the digit run ends. */
  lemma NumberStepEnd(t: string, d: Directive, f: Fields)
    requires Numeric(d) && t != [] && IsDigit(t[0])
    ensures NumberStep(t, 0, d, f).Some? ==> NumberStep(t, 0, d, f).value.0 == DigitRun(t, 0)
  {
  }

  /** `%I%p`: an hour from 1 to 12 directly followed by "am" or "pm". */
  lemma ScanMeridiem(hs: string, suffix: string)
    requires AllDigits(hs) && (|hs| == 1 || |hs| == 2) && 1 <= DigitsValue(hs) <= 12
    requires suffix == "am" || suffix == "pm"
    ensures var r := Scan(hs + suffix, 0, TimeFormats()[5], DefaultFields());
      r.Some? && r.value.hour12 == Some(DigitsValue(hs)) && r.value.pm == Some(suffix == "pm") && r.value.minute == 0
  {
    var t := hs + suffix;
    var f0 := DefaultFields();
    var f1 := f0.(hour12 := Some(DigitsValue(hs)));
    var f2 := f1.(pm := Some(suffix == "pm"));
    TwoParts(hs, suffix);
    DigitsAt(t, 0, hs);
    assert Step(t, 0, Hour12, f0) == Some((|hs|, f1));
    assert MatchAt(t, suffix, |hs|);
    assert Step(t, |hs|, AmPm, f1) == Some((|hs| + 2, f2));
    ScanTwo(t, Hour12, AmPm, f0, f1, f2, |hs|);
  }

  /** A two-directive format scans when its first directive ends where the second begins and the second ends the text. */
  lemma ScanTwo(t: string, d0: Directive, d1: Directive, f0: Fields, f1: Fields, f2: Fields, i: nat)
    requires i <= |t| && Step(t, 0, d0, f0) == Some((i, f1)) && Step(t, i, d1, f1) == Some((|t|, f2))
    ensures Scan(t, 0, [d0, d1], f0) == Some(f2)
  {
    assert [d0, d1][1..] == [d1];
    assert [d1][1..] == [];
    assert Scan(t, |t|, [], f2) == Some(f2);
    assert Scan(t, i, [d1], f1) == Some(f2);
  }

  /** The first five time formats need a ':', a '.' or a space after the hour. */
  lemma MeridiemSkipsClock(t: string)
    requires t != [] && IsDigit(t[0]) && DigitRun(t, 0) < |t|
    requires t[DigitRun(t, 0)] == 'a' || t[DigitRun(t, 0)] == 'p'
    ensures FirstTimeFormat(t, TimeFormats(), 0) == FirstTimeFormat(t, TimeFormats(), 5)
  {
    ClockFormatFails(t, 0);
    ClockFormatFails(t, 1);
    MeridiemSkipsTwelveHour(t);
  }

  lemma MeridiemSkipsTwelveHour(t: string)
    requires t != [] && IsDigit(t[0]) && DigitRun(t, 0) < |t|
    requires t[DigitRun(t, 0)] == 'a' || t[DigitRun(t, 0)] == 'p'
    ensures FirstTimeFormat(t, TimeFormats(), 2) == FirstTimeFormat(t, TimeFormats(), 5)
  {
    ClockFormatFails(t, 2);
    ClockFormatFails(t, 3);
    ClockFormatFails(t, 4);
  }

  /** Each of the first five time formats fails on an hour directly followed by 'a' or 'p'. */
  lemma ClockFormatFails(t: string, k: nat)
    requires k < 5
    requires t != [] && IsDigit(t[0]) && DigitRun(t, 0) < |t|
    requires t[DigitRun(t, 0)] == 'a' || t[DigitRun(t, 0)] == 'p'
    ensures StrptimeTime(t, TimeFormats()[k]) == None
  {
    ClockFormatShape(k);
    NumberThenMismatch(t, TimeFormats()[k], DefaultFields());
  }

  /** The first five time formats start with an hour and then ':', '.' or a space. */
  lemma ClockFormatShape(k: nat)
    requires k < 5
    ensures var fmt := TimeFormats()[k];
      |fmt| >= 2 && Numeric(fmt[0]) && (fmt[1] == Lit(':') || fmt[1] == Lit('.') || fmt[1] == Blank)
  {
  }

  lemma MeridiemFormat(hs: string, suffix: string)
    requires AllDigits(hs) && (|hs| == 1 || |hs| == 2) && 1 <= DigitsValue(hs) <= 12
    requires suffix == "am" || suffix == "pm"
    ensures var h := DigitsValue(hs);
      var r := FirstTimeFormat(hs + suffix, TimeFormats(), 0);
      r.Some? && r.value.1 == 0
      && r.value.0 == if suffix == "pm" then (if h == 12 then 12 else h + 12) else (if h == 12 then 0 else h)
  {
    var t := hs + suffix;
    HourThenSuffix(hs, suffix);
    MeridiemSkipsClock(t);
    MeridiemHit(hs, suffix);
    FirstTimeFormatHit(t, TimeFormats(), 5);
  }

  lemma HourThenSuffix(hs: string, suffix: string)
    requires AllDigits(hs) && |hs| >= 1 && suffix != [] && !IsDigit(suffix[0])
    ensures var t := hs + suffix;
      IsDigit(t[0]) && DigitRun(t, 0) == |hs| < |t| && t[|hs|] == suffix[0]
  {
    var t := hs + suffix;
    TwoParts(hs, suffix);
    DigitsAt(t, 0, hs);
  }

  /** `%I%p` itself reads the 12-hour clock into the 24-hour one. */
  lemma MeridiemHit(hs: string, suffix: string)
    requires AllDigits(hs) && (|hs| == 1 || |hs| == 2) && 1 <= DigitsValue(hs) <= 12
    requires suffix == "am" || suffix == "pm"
    ensures var h := DigitsValue(hs);
      var r := StrptimeTime(hs + suffix, TimeFormats()[5]);
      r.Some? && r.value.1 == 0
      && r.value.0 == if suffix == "pm" then (if h == 12 then 12 else h + 12) else (if h == 12 then 0 else h)
  {
    var h := DigitsValue(hs);
    ScanMeridiem(hs, suffix);
    StrptimeOfScan(hs + suffix, TimeFormats()[5]);
    HourOfMeridiem(h, suffix == "pm");
  }

  /** A format that scans gives the hour `HourOf` settles on and the minute read. */
  lemma StrptimeOfScan(t: string, fmt: seq<Directive>)
    requires Scan(t, 0, fmt, DefaultFields()).Some?
    ensures var f := Scan(t, 0, fmt, DefaultFields()).value;
      var r := StrptimeTime(t, fmt);
      r.Some? && r.value.0 == HourOf(f) && r.value.1 == f.minute
  {
  }

  /** `%I` with `%p`: 12am is hour 0, 12pm is hour 12, and pm adds twelve to the other hours. */
  lemma HourOfMeridiem(h: int, pm: bool)
    ensures forall f: Fields :: f.hour12 == Some(h) && f.pm == Some(pm) ==>
      HourOf(f) == if pm then (if h == 12 then 12 else h + 12) else (if h == 12 then 0 else h)
  {
  }

  /** The chain stops at the first format that matches. */
  lemma FirstTimeFormatHit(t: string, fmts: seq<seq<Directive>>, k: nat)
    requires k < |fmts| && StrptimeTime(t, fmts[k]).Some?
    ensures FirstTimeFormat(t, fmts, k) == StrptimeTime(t, fmts[k])
  {
  }

  /** "3pm", "12am", "12pm": `%I%p` turns a 12-hour reading into the 24-hour clock. */
  lemma MeridiemTime(hs: string, suffix: string)
    requires AllDigits(hs) && (|hs| == 1 || |hs| == 2) && 1 <= DigitsValue(hs) <= 12
    requires suffix == "am" || suffix == "pm"
    ensures var h := DigitsValue(hs);
      var r := TimeFromText(hs + suffix);
      r.Ok? && r.value.Some? && r.value.value.1 == 0
      && r.value.value.0 == if suffix == "pm" then (if h == 12 then 12 else h + 12) else (if h == 12 then 0 else h)
  {
    var t := hs + suffix;
    MeridiemNoPhrase(hs, suffix);
    MeridiemFormat(hs, suffix);
    TimeOfFormat(t);
  }

  /** An hour and "am" or "pm" is too short for a period phrase and has no 'n' for a named time. */
  lemma MeridiemNoPhrase(hs: string, suffix: string)
    requires AllDigits(hs) && |hs| <= 2 && (suffix == "am" || suffix == "pm")
    ensures !PeriodSearch(hs + suffix, 0) && FirstNameIn(hs + suffix, TimePhraseTable(), 0).None?
  {
    var t := hs + suffix;
    assert |t| <= 4;
    ShortNoPeriodSearch(t, 0);
    assert forall i :: 0 <= i < |t| ==> IsDigit(t[i]) || t[i] == 'a' || t[i] == 'p' || t[i] == 'm';
    NoTimePhraseWithoutN(t, 0);
  }

  /** Text with no period phrase and no named time is read by the first time format that matches. */
  lemma TimeOfFormat(t: string)
    requires !PeriodSearch(t, 0) && FirstNameIn(t, TimePhraseTable(), 0).None?
    requires FirstTimeFormat(t, TimeFormats(), 0).Some?
    ensures TimeFromText(t) == Ok(FirstTimeFormat(t, TimeFormats(), 0))
  {
  }

  lemma Absent(t: string, w: string, j: nat)
    requires j < |w| && forall i :: 0 <= i < |t| ==> t[i] != w[j]
    ensures !Contains(t, w)
  {
    CharOfFind(t, w, j);
  }

  predicate NoDigit(t: string) { forall i :: 0 <= i < |t| ==> !IsDigit(t[i]) }

  lemma {:induction false} NoDigitNoPeriodSearch(t: string, i: nat)
    requires NoDigit(t)
    ensures !PeriodSearch(t, i)
    decreases |t| - i
  {
    if i < |t| {
      NoDigitNoPeriodSearch(t, i + 1);
    }
  }

  /** Text without digits that names a time phrase gets that phrase's time. */
  lemma PhraseWithoutDigits(t: string)
    requires NoDigit(t) && FirstNameIn(t, TimePhraseTable(), 0).Some?
    ensures TimeFromText(t) == Ok(FirstNameIn(t, TimePhraseTable(), 0))
  {
    NoDigitNoPeriodSearch(t, 0);
  }

  /** "afternoon" ends in "noon", which comes first in the table: it reads as 12:00. */
  lemma AfternoonMeansNoon(t: string)
    requires t == "afternoon"
    ensures FirstNameIn(t, TimePhraseTable(), 0) == Some((12, 0))
  {
    Absent(t, "morning", 0);
    Absent(t, "early morning", 4);
    Absent(t, "late morning", 0);
    assert t[5..9] == "noon" by {
      assert t == "after" + "noon";
    }
    ContainsAt(t, "noon", 5);
  }

  /** "midnight" ends in "night", which comes first in the table: it reads as 21:00. */
  lemma MidnightMeansNight(t: string)
    requires t == "midnight"
    ensures FirstNameIn(t, TimePhraseTable(), 0) == Some((21, 0))
  {
    Absent(t, "morning", 2);
    Absent(t, "early morning", 1);
    Absent(t, "late morning", 0);
    Absent(t, "noon", 1);
    Absent(t, "afternoon", 0);
    Absent(t, "early afternoon", 1);
    MidnightAfterSix(t);
  }

  lemma {:induction false} MidnightAfterSix(t: string)
    requires t == "midnight"
    ensures FirstNameIn(t, TimePhraseTable(), 6) == Some((21, 0))
  {
    Absent(t, "late afternoon", 0);
    Absent(t, "evening", 0);
    Absent(t, "early evening", 0);
    Absent(t, "late evening", 0);
    assert MatchAt(t, "night", 3);
    ContainsAt(t, "night", 3);
  }

  /** "early morning" contains "morning", which comes first in the table: it reads as 09:00. */
  lemma EarlyMorningMeansMorning(t: string)
    requires t == "early morning"
    ensures FirstNameIn(t, TimePhraseTable(), 0) == Some((9, 0))
  {
    assert MatchAt(t, "morning", 6);
    ContainsAt(t, "morning", 6);
  }

  /** A run of three or more digits is too long for every hour directive. */
  lemma LongRunFails(t: string, fmt: seq<Directive>, f: Fields)
    requires fmt != [] && (fmt[0].Hour24? || fmt[0].Hour12?)
    requires t != [] && IsDigit(t[0]) && DigitRun(t, 0) >= 3
    ensures Scan(t, 0, fmt, f) == None
  {
    assert Step(t, 0, fmt[0], f) == None;
  }

  lemma {:induction false} LongRunNoTimeFormat(t: string, k: nat)
    requires t != [] && IsDigit(t[0]) && DigitRun(t, 0) >= 3
    ensures FirstTimeFormat(t, TimeFormats(), k) == None
    decreases |TimeFormats()| - k
  {
    if k < |TimeFormats()| {
      LongRunFails(t, TimeFormats()[k], DefaultFields());
      LongRunNoTimeFormat(t, k + 1);
    }
  }

  lemma {:induction false} NoMeridiemSearch(t: string, i: nat)
    requires NoLetter(t)
    ensures !MeridiemSearch(t, i)
    decreases |t| - i
  {
    if i < |t| {
      NoMatchOfWord(t, "am");
      NoMatchOfWord(t, "pm");
      NoMeridiemSearch(t, i + 1);
    }
  }

  /** Three or four bare digits ("930", "1430") reach the branch that raises. */
  lemma BareDigitsRaise(t: string)
    requires AllDigits(t) && (|t| == 3 || |t| == 4)
    ensures TimeFromText(t) == Raised
  {
    assert NoLetter(t);
    NoPeriodSearch(t, 0);
    NoTimePhraseIn(t, 0);
    DigitRunUpTo(t, 0, |t|);
    LongRunNoTimeFormat(t, 0);
    NoMeridiemSearch(t, 0);
  }

  lemma {:induction false} PeriodSearchFrom(t: string, k: nat, i: nat)
    requires k <= i < |t| && IsDigit(t[i]) && PeriodTail(t, i + 1)
    ensures PeriodSearch(t, k)
    decreases i - k
  {
    if k < i {
      PeriodSearchFrom(t, k + 1, i);
    }
  }

  /** An hour followed by "morning", "afternoon" or "evening" reaches the branch that raises. */
  lemma PeriodPhraseRaises(t: string, i: nat)
    requires i < |t| && IsDigit(t[i]) && PeriodTail(t, i + 1)
    ensures TimeFromText(t) == Raised
  {
    PeriodSearchFrom(t, 0, i);
  }

  /** "6 in the morning" is such a phrase. */
  lemma SixInTheMorningRaises(t: string)
    requires t == "6 in the morning"
    ensures TimeFromText(t) == Raised
  {
    SixInTheMorningTail(t);
    PeriodPhraseRaises(t, 0);
  }

  lemma SixInTheMorningTail(t: string)
    requires t == "6 in the morning"
    ensures IsDigit(t[0]) && PeriodTail(t, 1)
  {
    assert SkipSpaces(t, 1) == 2;
    assert !MatchAt(t, "o'clock", 2);
    assert MatchAt(t, "in the", 2);
    assert SkipSpaces(t, 8) == 9;
    assert MatchAt(t, "morning", 9);
  }

  /** `hs.ms` fails `%H:%M` and matches `%H.%M` field by field. */
  lemma ScanDot(hs: string, ms: string)
    requires AllDigits(hs) && |hs| == 2 && AllDigits(ms) && |ms| == 2
    requires DigitsValue(hs) <= 23 && DigitsValue(ms) <= 59
    ensures var r := Scan(hs + "." + ms, 0, TimeFormats()[1], DefaultFields());
      r.Some? && HourOf(r.value) == DigitsValue(hs) && r.value.minute == DigitsValue(ms)
  {
    var t := hs + "." + ms;
    var fmt := TimeFormats()[1];
    var f0 := DefaultFields();
    var f1 := f0.(hour := DigitsValue(hs));
    var f2 := f1.(minute := DigitsValue(ms));
    ThreeParts(hs, '.', ms);
    DigitsAt(t, 0, hs);
    assert Step(t, 0, Hour24, f0) == Some((2, f1));
    assert Step(t, 2, Lit('.'), f1) == Some((3, f1));
    DigitsAt(t, 3, ms);
    assert Step(t, 3, Minute, f1) == Some((5, f2));
    assert Scan(t, 5, fmt[3..], f2) == Some(f2);
    assert Scan(t, 3, fmt[2..], f1) == Some(f2);
    assert Scan(t, 2, fmt[1..], f1) == Some(f2);
  }

  /** "14.30": the second format reads a dotted 24-hour time. */
  lemma {:induction false} DottedTime(hs: string, ms: string)
    requires AllDigits(hs) && |hs| == 2 && AllDigits(ms) && |ms| == 2
    requires DigitsValue(hs) <= 23 && DigitsValue(ms) <= 59
    ensures TimeFromText(hs + "." + ms) == Ok(Some((DigitsValue(hs), DigitsValue(ms))))
  {
    var t := hs + "." + ms;
    assert forall i :: 0 <= i < |t| ==> IsDigit(t[i]) || t[i] == '.';
    NoPeriodSearch(t, 0);
    NoTimePhraseIn(t, 0);
    DigitRunUpTo(t, 0, 2);
    NumberThenMismatch(t, TimeFormats()[0], DefaultFields());
    ScanDot(hs, ms);
  }

  /** A format without `%Y` leaves the year at its default. */
  lemma {:induction false} ScanKeepsYear(t: string, i: nat, fmt: seq<Directive>, f: Fields)
    requires i <= |t| && Year !in fmt
    ensures Scan(t, i, fmt, f).Some? ==> Scan(t, i, fmt, f).value.year == f.year
    decreases |fmt|
  {
    if fmt != [] {
      var s := Step(t, i, fmt[0], f);
      if s.Some? {
        assert s.value.1.year == f.year;
        ScanKeepsYear(t, s.value.0, fmt[1..], s.value.1);
      }
    }
  }

  /** The last four date formats give year 1900, which the chain then replaces by today's year. */
  lemma YearlessFormats(t: string, k: nat, today: Date)
    requires 9 <= k < 13 && ValidDate(today)
    ensures var d := StrptimeDate(t, DateFormats()[k]);
      d.Some? ==> d.value.year == 1900 && WithDefaultYear(d.value, today).year == today.year
  {
    ScanKeepsYear(t, 0, DateFormats()[k], DefaultFields());
  }

  /** The four exact phrases are fixed offsets from today. */
  lemma RelativeDays(today: Date)
    requires ValidDate(today)
    ensures DateFromText("today", today) == Some(today)
    ensures DateFromText("tomorrow", today) == Some(AddDays(today, 1))
    ensures DateFromText("day after tomorrow", today) == Some(AddDays(today, 2))
    ensures DateFromText("yesterday", today) == Some(AddDays(today, -1))
  {
  }

  // ------------------------------------------------ ranges of a time read

  /** The clock fields a time format can set stay within a day. */
  predicate ClockFields(f: Fields) {
    0 <= f.hour <= 23 && 0 <= f.minute <= 59 && (f.hour12.Some? ==> 1 <= f.hour12.value <= 12)
  }

  lemma StepKeepsClock(t: string, i: nat, d: Directive, f: Fields)
    requires i <= |t| && ClockFields(f)
    ensures Step(t, i, d, f).Some? ==> ClockFields(Step(t, i, d, f).value.1)
  {
  }

  lemma {:induction false} ScanKeepsClock(t: string, i: nat, fmt: seq<Directive>, f: Fields)
    requires i <= |t| && ClockFields(f)
    ensures Scan(t, i, fmt, f).Some? ==> ClockFields(Scan(t, i, fmt, f).value)
    decreases |fmt|
  {
    if fmt != [] {
      var s := Step(t, i, fmt[0], f);
      if s.Some? {
        StepKeepsClock(t, i, fmt[0], f);
        ScanKeepsClock(t, s.value.0, fmt[1..], s.value.1);
      }
    }
  }

  lemma {:induction false} TimeFormatInRange(t: string, fmts: seq<seq<Directive>>, k: nat)
    ensures var r := FirstTimeFormat(t, fmts, k); r.Some? ==> ClockRange(r.value)
    decreases |fmts| - k
  {
    if k < |fmts| {
      ScanKeepsClock(t, 0, fmts[k], DefaultFields());
      TimeFormatInRange(t, fmts, k + 1);
    }
  }

  lemma {:induction false} PhraseInRange(t: string, k: nat)
    ensures var r := FirstNameIn(t, TimePhraseTable(), k); r.Some? ==> ClockRange(r.value)
    decreases |TimePhraseTable()| - k
  {
    if k < |TimePhraseTable()| {
      assert ClockRange(TimePhraseTable()[k].1);
      PhraseInRange(t, k + 1);
    }
  }

  /** Every time the reader returns is a time of day. */
  lemma TimeInRange(t: string)
    ensures var r := TimeFromText(t); r.Ok? && r.value.Some? ==> ClockRange(r.value.value)
  {
    PhraseInRange(t, 0);
    TimeFormatInRange(t, TimeFormats(), 0);
  }

  /** `parse_datetime_string` yields a valid local date-time. */
  lemma ParseDateTimeValid(date: Schemas.Value, time: Schemas.Value, today: Date)
    requires ValidDate(today)
    ensures var r := ParseDateTime(date, time, today); r.Some? ==> ValidDateTime(r.value)
  {
    if date.Str? && time.Str? {
      TimeInRange(Strip(Lower(time.s)));
    }
  }
}
