/**
 * The calendar service around the date and time readers: the duration
 * normalisation shared by `create_event` and `update_event`, the event body
 * `create_event` sends, the field-merge rules of `update_event`, the two
 * confirmation builders and the time window and reply of `list_events`.
 * Google Calendar itself is not modelled: each call's response is a parameter.
 * Event instants are local `DateTime`s; timezones are left out.
 */
module Calendar {
  import opened Wrappers
  import opened Text
  import opened Civil
  import opened Schemas
  import opened Helpers
  import opened DateParse
  import DateParseFacts

  // ------------------------------------------------------- duration text

  /**
   * The integer parts of `re.findall(r'(\d+\.?\d*)', s)`: each match is a
   * maximal run of digits, optionally followed by a dot and a further run.
   */
  function NumberTokens(s: string): seq<nat>
    decreases |s|
  {
    if s == [] then []
    else if !IsDigit(s[0]) then NumberTokens(s[1..])
    else
      var n := DigitRun(s, 0);
      var j := if n < |s| && s[n] == '.' then n + 1 + DigitRun(s, n + 1) else n;
      [DigitsValue(s[..n])] + NumberTokens(s[j..])
  }

  /**
   * The minutes a duration string stands for: the first number as hours when
   * "hour" occurs, plus the last number when "minute" occurs; no number, or a
   * total of 0, gives 60.
   */
  function DurationOfText(s: string): (r: int)
    ensures r > 0
  {
    var numbers := NumberTokens(s);
    if numbers == [] then 60
    else
      var low := Lower(s);
      var total := (if Contains(low, "hour") then numbers[0] * 60 else 0)
                 + (if Contains(low, "minute") then numbers[|numbers| - 1] else 0);
      if total == 0 then 60 else total
  }

  /**
   * `timedelta(minutes=d)` after the normalisation: a string is read by
   * `DurationOfText`, an `int` (and a `bool`, which is one) is taken as it is,
   * and anything else makes `timedelta` raise `TypeError`.
   */
  function DurationMinutes(v: Value): (r: Result<int>)
    ensures r.Ok? <==> (v.Str? || v.Int? || v.Bool?)
    ensures v.Str? ==> r.value > 0 && r.value == DurationOfText(v.s)
    ensures v.Int? ==> r.value == v.i
  {
    match v
    case Str(s) => Ok(DurationOfText(s))
    case Int(i) => Ok(i)
    case Bool(b) => Ok(if b then 1 else 0)
    case _ => Raised
  }

  // --------------------------------------------------- duration lemmas

  /** Text without digits contributes no number. */
  lemma {:induction false} TokensSkip(w: string, rest: string)
    requires forall i :: 0 <= i < |w| ==> !IsDigit(w[i])
    ensures NumberTokens(w + rest) == NumberTokens(rest)
    decreases |w|
  {
    if w == [] {
      assert w + rest == rest;
    } else {
      assert (w + rest)[0] == w[0];
      assert (w + rest)[1..] == w[1..] + rest;
      TokensSkip(w[1..], rest);
    }
  }

  /** A digit run followed by something that is neither a digit nor a dot is one number. */
  lemma TokensCons(d: string, rest: string)
    requires d != [] && AllDigits(d)
    requires rest == [] || (!IsDigit(rest[0]) && rest[0] != '.')
    ensures NumberTokens(d + rest) == [DigitsValue(d)] + NumberTokens(rest)
  {
    var s := d + rest;
    DigitRunUpTo(s, 0, |d|);
    assert s[..|d|] == d;
    assert s[|d|..] == rest;
  }

  lemma NoDigitsNoTokens(s: string)
    requires forall i :: 0 <= i < |s| ==> !IsDigit(s[i])
    ensures NumberTokens(s) == []
  {
    TokensSkip(s, []);
    assert s + [] == s;
  }

  /** A string without digits means one hour. */
  lemma NoDigitsMeansHour(s: string)
    requires forall i :: 0 <= i < |s| ==> !IsDigit(s[i])
    ensures DurationMinutes(Str(s)) == Ok(60)
  {
    NoDigitsNoTokens(s);
  }

  /** `s.lower()` is taken piecewise. */
  lemma {:induction false} LowerConcat(a: string, b: string)
    ensures Lower(a + b) == Lower(a) + Lower(b)
    decreases |a|
  {
    if a == [] {
      assert a + b == b;
    } else {
      assert (a + b)[0] == a[0];
      assert (a + b)[1..] == a[1..] + b;
      LowerConcat(a[1..], b);
    }
  }

  /** Lower-case letters and spaces only, as the unit words are. */
  predicate Wordy(w: string) {
    forall i :: 0 <= i < |w| ==> ('a' <= w[i] <= 'z') || w[i] == ' '
  }

  lemma WordyLower(w: string)
    requires Wordy(w)
    ensures Lower(w) == w && forall i :: 0 <= i < |w| ==> !IsDigit(w[i]) && w[i] != '.'
  {
    LowerOfLowercase(w);
  }

  lemma Regroup(a: string, b: string, c: string, d: string)
    ensures a + b + c + d == a + (b + (c + d)) && a + b + c + d == a + b + (c + d)
  {
  }

  lemma NoTail(s: string)
    ensures s + [] == s
  {
  }

  /** The numbers of "H<unit>M<unit>" are H and M. */
  lemma {:induction false} TokensOfPair(hs: string, hw: string, ms: string, mw: string)
    requires hs != [] && AllDigits(hs) && ms != [] && AllDigits(ms) && hw != [] && Wordy(hw) && Wordy(mw)
    ensures NumberTokens(hs + hw + ms + mw) == [DigitsValue(hs), DigitsValue(ms)]
  {
    WordyLower(hw);
    WordyLower(mw);
    TokensCons(ms, mw);
    NoDigitsNoTokens(mw);
    assert NumberTokens(ms + mw) == [DigitsValue(ms)];
    TokensSkip(hw, ms + mw);
    Regroup(hs, hw, ms, mw);
    assert (hw + (ms + mw))[0] == hw[0];
    TokensCons(hs, hw + (ms + mw));
    assert [DigitsValue(hs)] + [DigitsValue(ms)] == [DigitsValue(hs), DigitsValue(ms)];
  }

  /** Lower-casing leaves "H<unit>M<unit>" alone, and both unit names occur in it. */
  lemma UnitsOfPair(hs: string, hw: string, ms: string, mw: string)
    requires AllDigits(hs) && AllDigits(ms) && Wordy(hw) && Wordy(mw)
    requires MatchAt(hw, "hour", 1) && MatchAt(mw, "minute", 1)
    ensures var s := hs + hw + ms + mw;
      Lower(s) == s && Contains(s, "hour") && Contains(s, "minute")
  {
    var s := hs + hw + ms + mw;
    WordyLower(hw);
    WordyLower(mw);
    LowerKeepsDigits(hs);
    LowerKeepsDigits(ms);
    LowerConcat(hs + hw + ms, mw);
    LowerConcat(hs + hw, ms);
    LowerConcat(hs, hw);
    Regroup(hs, hw, ms, mw);
    MatchAtShift(hs, hw, ms + mw, "hour", 1);
    ContainsAt(s, "hour", |hs| + 1);
    assert s == (hs + hw + ms) + mw + [] by { NoTail(s); }
    MatchAtShift(hs + hw + ms, mw, [], "minute", 1);
    ContainsAt(s, "minute", |hs + hw + ms| + 1);
  }

  /** The reading of a string with exactly two numbers that names both units. */
  lemma DurationOfPair(s: string, a: nat, b: nat)
    requires NumberTokens(s) == [a, b] && Contains(Lower(s), "hour") && Contains(Lower(s), "minute")
    ensures DurationOfText(s) == if a * 60 + b == 0 then 60 else a * 60 + b
  {
  }

  /**
   * "H hour M minutes", for unit words such as " hour ", " hours ", " minute" or
   * " minutes", means H * 60 + M, with 0 read as an hour.
   */
  lemma HoursAndMinutes(h: nat, m: nat, hw: string, mw: string)
    requires hw != [] && Wordy(hw) && Wordy(mw) && MatchAt(hw, "hour", 1) && MatchAt(mw, "minute", 1)
    ensures var total := h * 60 + m;
      DurationMinutes(Str(NatToString(h) + hw + NatToString(m) + mw)) == Ok(if total == 0 then 60 else total)
  {
    var hs, ms := NatToString(h), NatToString(m);
    var s := hs + hw + ms + mw;
    TokensOfPair(hs, hw, ms, mw);
    NatToStringRoundTrip(h);
    NatToStringRoundTrip(m);
    UnitsOfPair(hs, hw, ms, mw);
    DurationOfPair(s, h, m);
  }

  /** "M<unit>", for a unit word such as " minute" or " minutes", means M minutes, with 0 read as an hour. */
  lemma MinutesOnly(m: nat, mw: string)
    requires mw != [] && Wordy(mw) && MatchAt(mw, "minute", 1)
    requires forall i :: 0 <= i < |mw| ==> mw[i] != 'o'
    ensures DurationMinutes(Str(NatToString(m) + mw)) == Ok(if m == 0 then 60 else m)
  {
    var ms := NatToString(m);
    var s := ms + mw;
    WordyLower(mw);
    TokensCons(ms, mw);
    NoDigitsNoTokens(mw);
    NatToStringRoundTrip(m);
    UnitsOfSingle(ms, mw);
  }

  lemma UnitsOfSingle(ms: string, mw: string)
    requires AllDigits(ms) && Wordy(mw) && MatchAt(mw, "minute", 1)
    requires forall i :: 0 <= i < |mw| ==> mw[i] != 'o'
    ensures var s := ms + mw;
      Lower(s) == s && Contains(s, "minute") && !Contains(s, "hour")
  {
    var s := ms + mw;
    WordyLower(mw);
    LowerKeepsDigits(ms);
    LowerConcat(ms, mw);
    NoTail(s);
    MatchAtShift(ms, mw, [], "minute", 1);
    ContainsAt(s, "minute", |ms| + 1);
    DateParseFacts.CharOfFind(s, "hour", 1);
    assert forall i :: 0 <= i < |s| ==> s[i] != 'o' by {
      forall i | 0 <= i < |s| ensures s[i] != 'o' {
        if i >= |ms| { assert s[i] == mw[i - |ms|]; }
      }
    }
  }

  /** A bare number names no unit, so it means one hour whatever it is. */
  lemma BareNumber(n: nat)
    ensures DurationMinutes(Str(NatToString(n))) == Ok(60)
  {
    var s := NatToString(n);
    LowerKeepsDigits(s);
    DateParseFacts.CharOfFind(s, "hour", 0);
    DateParseFacts.CharOfFind(s, "minute", 0);
    TokensCons(s, []);
    assert s + [] == s;
  }

  // ------------------------------------------------------ create_event

  datatype Reminder = Reminder(kind: string, minutes: int)

  /** The body `create_event` sends: start and end as local date-times. */
  datatype EventBody = EventBody(summary: Value, description: Value, start: DateTime, end: DateTime,
                                 location: Option<Value>, reminders: seq<Reminder>)

  /** The `{'event_id', 'event_url'}` result. */
  datatype CreatedLinks = CreatedLinks(eventId: Value, eventUrl: Value)

  /** A popup 15 minutes and an e-mail 60 minutes before the start. */
  function Reminders(): seq<Reminder> { [Reminder("popup", 15), Reminder("email", 60)] }

  /**
   * `b` starts at `start`, lasts `minutes`, and carries the task's title (or
   * "Untitled Task"), its description, its location only when it is set, and
   * the two reminders.
   */
  predicate ScheduledAt(b: EventBody, taskData: map<string, Value>, start: DateTime, minutes: int) {
    ValidDateTime(b.start) && ValidDateTime(b.end) &&
    b.start == start &&
    ToMinutes(b.end) - ToMinutes(b.start) == minutes &&
    b.summary == Get(taskData, "title", Str("Untitled Task")) &&
    b.description == Get(taskData, "description", Str("")) &&
    b.location == (if HasTruthy(taskData, "location") then Some(taskData["location"]) else None) &&
    b.reminders == Reminders()
  }

  /** The body `create_event` sends for `taskData`: it starts at the parsed date and time and lasts the parsed duration. */
  predicate Scheduled(b: EventBody, taskData: map<string, Value>, today: Date) {
    ValidDate(today) &&
    var start := ParseDateTime(Get(taskData, "date", Str("")), Get(taskData, "time", Str("")), today);
    var duration := DurationMinutes(Get(taskData, "duration", Int(60)));
    start.Some? && duration.Ok? && ScheduledAt(b, taskData, start.value, duration.value)
  }

  /** The task's date and time parse and its duration is a number of minutes. */
  predicate Schedulable(taskData: map<string, Value>, today: Date) {
    ValidDate(today) &&
    ParseDateTime(Get(taskData, "date", Str("")), Get(taskData, "time", Str("")), today).Some?
    && DurationMinutes(Get(taskData, "duration", Int(60))).Ok?
  }

  /** The event body for a start and a length already read from the task. */
  function BodyAt(taskData: map<string, Value>, start: DateTime, minutes: int): (b: EventBody)
    requires ValidDateTime(start)
    ensures ScheduledAt(b, taskData, start, minutes)
  {
    AddMinutesExact(start, minutes);
    var location := if HasTruthy(taskData, "location") then Some(taskData["location"]) else None;
    EventBody(Get(taskData, "title", Str("Untitled Task")), Get(taskData, "description", Str("")),
              start, AddMinutes(start, minutes), location, Reminders())
  }

  /**
   * The body `create_event` builds for `taskData` on the day `today`, or `None`
   * when its date, time or duration raises before the insert call.
   */
  function EventBodyFor(taskData: map<string, Value>, today: Date): (r: Option<EventBody>)
    requires ValidDate(today)
    ensures r.Some? <==> Schedulable(taskData, today)
    ensures r.Some? ==> Scheduled(r.value, taskData, today)
  {
    var start := ParseDateTime(Get(taskData, "date", Str("")), Get(taskData, "time", Str("")), today);
    var duration := DurationMinutes(Get(taskData, "duration", Int(60)));
    if start.None? || duration.Raised? then None
    else
      DateParseFacts.ParseDateTimeValid(Get(taskData, "date", Str("")), Get(taskData, "time", Str("")), today);
      Some(BodyAt(taskData, start.value, duration.value))
  }

  /**
   * `create_event(task_data)` on the day `today`. `response` is what the insert
   * call returns (`None` when it raises); `sent` is the body given to it.
   */
  method CreateEvent(serviceUp: bool, taskData: map<string, Value>, today: Date, response: Option<map<string, Value>>)
    returns (sent: Option<EventBody>, result: Option<CreatedLinks>)
    requires ValidDate(today)
    ensures sent == (if serviceUp then EventBodyFor(taskData, today) else None)
    ensures result.Some? <==> sent.Some? && response.Some?
    ensures result.Some? ==> response.Some? && result.value.eventId == Get(response.value, "id", Null)
    ensures result.Some? ==> response.Some? && result.value.eventUrl == Get(response.value, "htmlLink", Null)
  {
    sent, result := None, None;
    if !serviceUp {
      return;
    }
    sent := EventBodyFor(taskData, today);
    if sent.Some? && response.Some? {
      result := Some(CreatedLinks(Get(response.value, "id", Null), Get(response.value, "htmlLink", Null)));
    }
  }

  // ------------------------------------------------------ update_event

  /** The parts of a stored calendar event `update_event` reads and writes; `start` is `None` for an all-day event. */
  datatype CalendarEvent = CalendarEvent(summary: Value, start: Option<DateTime>, end: Option<DateTime>)

  predicate ValidEvent(e: CalendarEvent) {
    (e.start.Some? ==> ValidDateTime(e.start.value)) &&
    (e.end.Some? ==> ValidDateTime(e.end.value))
  }

  /** The length an event keeps when it moves: end minus start, or an hour without an end. */
  function KeptSpan(e: CalendarEvent): int
    requires ValidEvent(e) && e.start.Some?
  {
    if e.end.Some? then ToMinutes(e.end.value) - ToMinutes(e.start.value) else 60
  }

  /**
   * The new start a date or time update asks for: the update's values, with the
   * current date and time rendered as `%Y-%m-%d` and `%H:%M` where one is missing.
   * `None` when nothing moves or the pair does not parse.
   */
  function MovedStart(e: CalendarEvent, updates: map<string, Value>, today: Date): (r: Option<DateTime>)
    requires ValidEvent(e) && ValidDate(today)
    ensures r.Some? ==> e.start.Some? && ("date" in updates || "time" in updates) && ValidDateTime(r.value)
  {
    if ("date" in updates || "time" in updates) && e.start.Some? then
      var cur := e.start.value;
      var date, time := Get(updates, "date", Str(IsoDate(cur.date))), Get(updates, "time", Str(ClockText(cur.minute)));
      DateParseFacts.ParseDateTimeValid(date, time, today);
      ParseDateTime(date, time, today)
    else None
  }

  /**
   * A time-only update reads the event's own date back from its `%Y-%m-%d`
   * rendering, so the event keeps its day (for a four-digit year other than 1900,
   * which the date reader replaces by the current year).
   */
  lemma TimeOnlyMoveKeepsDay(e: CalendarEvent, ts: string, today: Date)
    requires ValidEvent(e) && ValidDate(today) && e.start.Some?
    requires 1000 <= e.start.value.date.year <= 9999 && e.start.value.date.year != 1900
    requires ParseTimeString(ts).Ok? && ParseTimeString(ts).value.Some?
    ensures var moved, hm := MovedStart(e, map["time" := Str(ts)], today), ParseTimeString(ts).value.value;
      moved.Some? && moved.value.date == e.start.value.date && moved.value.minute == hm.0 * 60 + hm.1
  {
    var d := e.start.value.date;
    TimeOnlyMove(e, ts, today);
    DateParseFacts.DateStringOfIso(d, today);
    DateParseFacts.ParseDateTimeOfParts(IsoDate(d), ts, today, d, ParseTimeString(ts).value.value);
  }

  /** A time-only update pairs the new time with the current date's rendering. */
  lemma TimeOnlyMove(e: CalendarEvent, ts: string, today: Date)
    requires ValidEvent(e) && ValidDate(today) && e.start.Some?
    ensures MovedStart(e, map["time" := Str(ts)], today) == ParseDateTime(Str(IsoDate(e.start.value.date)), Str(ts), today)
  {
    var u := map["time" := Str(ts)];
    assert "date" !in u by { assert "date"[0] != "time"[0]; }
    assert Get(u, "date", Str(IsoDate(e.start.value.date))) == Str(IsoDate(e.start.value.date));
    assert Get(u, "time", Str(ClockText(e.start.value.minute))) == Str(ts);
  }

  /** A date-only update reads the event's own time back from its `%H:%M` rendering, so the event keeps its time of day. */
  lemma DateOnlyMoveKeepsTime(e: CalendarEvent, ds: string, today: Date)
    requires ValidEvent(e) && ValidDate(today) && e.start.Some?
    requires ParseDateString(ds, today).Some?
    ensures var moved := MovedStart(e, map["date" := Str(ds)], today);
      moved.Some? && moved.value.date == ParseDateString(ds, today).value && moved.value.minute == e.start.value.minute
  {
    var m := e.start.value.minute;
    var u := map["date" := Str(ds)];
    DateParseFacts.TimeStringOfClock(m);
    assert Get(u, "date", Str(IsoDate(e.start.value.date))) == Str(ds);
    assert Get(u, "time", Str(ClockText(m))) == Str(ClockText(m));
  }

  /**
   * The merge rules of `update_event`, relating the event `e` it fetched to the
   * event `r` it sends back.
   */
  predicate UpdateRules(e: CalendarEvent, updates: map<string, Value>, today: Date, r: CalendarEvent)
    requires ValidEvent(e) && ValidDate(today)
  {
    var moved := MovedStart(e, updates, today);
    ValidEvent(r) &&
    // a title update changes the summary
    r.summary == (if "title" in updates then updates["title"] else e.summary) &&
    // a date or time update that parses moves the start; otherwise it stays
    r.start == (if moved.Some? then moved else e.start) &&
    // a duration update sets the end from the (new) start
    (r.start.Some? && "duration" in updates ==>
      var d := DurationMinutes(updates["duration"]);
      d.Ok? && r.end.Some? && ToMinutes(r.end.value) - ToMinutes(r.start.value) == d.value) &&
    // a move keeps the length of the event
    (moved.Some? && "duration" !in updates ==>
      r.end.Some? && ToMinutes(r.end.value) - ToMinutes(r.start.value) == KeptSpan(e)) &&
    // with no move and no duration that applies, the end stays
    (moved.None? && !("duration" in updates && e.start.Some?) ==> r.end == e.end)
  }

  /** The date and time part of the merge: the event moved to `MovedStart`, keeping its length. */
  method MoveEvent(e: CalendarEvent, updates: map<string, Value>, today: Date) returns (r: CalendarEvent)
    requires ValidEvent(e) && ValidDate(today)
    ensures ValidEvent(r) && r.summary == e.summary
    ensures var moved := MovedStart(e, updates, today);
      (moved.None? ==> r == e) &&
      (moved.Some? ==> r.start == moved && r.end.Some? && ToMinutes(r.end.value) - ToMinutes(r.start.value) == KeptSpan(e))
  {
    r := e;
    if ("date" in updates || "time" in updates) && e.start.Some? {
      var cur := e.start.value;
      var date := Get(updates, "date", Str(IsoDate(cur.date)));
      var time := Get(updates, "time", Str(ClockText(cur.minute)));
      var newStart := ParseDateTime(date, time, today);
      if newStart.Some? {
        DateParseFacts.ParseDateTimeValid(date, time, today);
        var span := if e.end.Some? then ToMinutes(e.end.value) - ToMinutes(cur) else 60;
        AddMinutesExact(newStart.value, span);
        r := r.(start := newStart, end := Some(AddMinutes(newStart.value, span)));
      }
    }
  }

  /** The duration part of the merge; `Raised` when a start exists and `timedelta` refuses the value. */
  method ApplyDuration(e: CalendarEvent, updates: map<string, Value>) returns (r: Result<CalendarEvent>)
    requires ValidEvent(e)
    ensures r.Raised? <==> "duration" in updates && e.start.Some? && DurationMinutes(updates["duration"]).Raised?
    ensures r.Ok? ==> ValidEvent(r.value) && r.value.summary == e.summary && r.value.start == e.start
    ensures r.Ok? && e.start.Some? && "duration" in updates ==>
      r.value.end.Some? && ToMinutes(r.value.end.value) - ToMinutes(e.start.value) == DurationMinutes(updates["duration"]).value
    ensures r.Ok? && !(e.start.Some? && "duration" in updates) ==> r.value == e
  {
    r := Ok(e);
    if "duration" in updates {
      var duration := DurationMinutes(updates["duration"]);
      if e.start.Some? {
        if duration.Raised? {
          return Raised;
        }
        AddMinutesExact(e.start.value, duration.value);
        r := Ok(e.(end := Some(AddMinutes(e.start.value, duration.value))));
      }
    }
  }

  /** The whole merge: title, then date and time, then duration. */
  method MergeUpdates(e: CalendarEvent, updates: map<string, Value>, today: Date) returns (r: Result<CalendarEvent>)
    requires ValidEvent(e) && ValidDate(today)
    ensures r.Raised? <==> "duration" in updates && e.start.Some? && DurationMinutes(updates["duration"]).Raised?
    ensures r.Ok? ==> UpdateRules(e, updates, today, r.value)
  {
    var titled := if "title" in updates then e.(summary := updates["title"]) else e;
    var moved := MoveEvent(titled, updates, today);
    assert MovedStart(titled, updates, today) == MovedStart(e, updates, today);
    r := ApplyDuration(moved, updates);
  }

  /**
   * `update_event(event_id, updates)`: `fetched` is what `get_event` returned and
   * `response` what the update call returns (`None` when it raises); `sent` is the
   * event given to the update call and `link` the `htmlLink` returned (`Null` for
   * `None`).
   */
  method UpdateEvent(serviceUp: bool, fetched: Option<CalendarEvent>, updates: map<string, Value>, today: Date,
                     response: Option<map<string, Value>>)
    returns (sent: Option<CalendarEvent>, link: Value)
    requires ValidDate(today) && (fetched.Some? ==> ValidEvent(fetched.value))
    ensures sent.Some? <==> (serviceUp && fetched.Some? &&
      !("duration" in updates && fetched.value.start.Some? && DurationMinutes(updates["duration"]).Raised?))
    ensures sent.Some? ==> UpdateRules(fetched.value, updates, today, sent.value)
    ensures link == (if sent.Some? && response.Some? then Get(response.value, "htmlLink", Null) else Null)
  {
    sent, link := None, Null;
    if !serviceUp || fetched.None? {
      return;
    }
    var merged := MergeUpdates(fetched.value, updates, today);
    if merged.Raised? {
      return;
    }
    sent := Some(merged.value);
    if response.Some? {
      link := Get(response.value, "htmlLink", Null);
    }
  }

  // --------------------------------------------------- confirmations

  /** How the confirmations show a duration: an `int` (a `bool` is one) as "Nm", "Hh" or "Hh Mm", anything else by `str`. */
  function DurationText(v: Value): string {
    match v
    case Int(i) => FormatDuration(i)
    case Bool(_) => Render(v) + "m"
    case _ => Render(v)
  }

  /** An `int` duration as the confirmations show it reads back as itself. */
  lemma DurationTextRoundTrip(m: int)
    ensures ReadDuration(DurationText(Int(m))) == Some(m)
  {
  }

  function ConfirmationHead(title: Value): string {
    "\U{2705} Perfect! I've added '" + Render(title) + "' to your Google Calendar.\n\n"
  }

  function ConfirmationTail(eventUrl: Value): string {
    "View in calendar: " + Render(eventUrl)
  }

  /** `format_event_confirmation(task_data, event_url)`. */
  function ConfirmationMessage(taskData: map<string, Value>, eventUrl: Value): (r: string)
    ensures StartsWith(r, ConfirmationHead(Get(taskData, "title", Str("Your task"))))
    ensures Contains(r, "\U{1F4C5} Date: " + Render(Get(taskData, "date", Str(""))) + "\n")
    ensures Contains(r, "\U{23F0} Time: " + Render(Get(taskData, "time", Str(""))) + "\n")
    ensures Contains(r, "\U{23F1}\U{FE0F} Duration: " + DurationText(Get(taskData, "duration", Int(60))) + "\n\n")
    ensures Contains(r, ReminderNote)
    ensures EndsWith(r, ConfirmationTail(eventUrl))
  {
    var head := ConfirmationHead(Get(taskData, "title", Str("Your task")));
    var date := "\U{1F4C5} Date: " + Render(Get(taskData, "date", Str(""))) + "\n";
    var time := "\U{23F0} Time: " + Render(Get(taskData, "time", Str(""))) + "\n";
    var duration := "\U{23F1}\U{FE0F} Duration: " + DurationText(Get(taskData, "duration", Int(60))) + "\n\n";
    var tail := ConfirmationTail(eventUrl);
    PiecesContained(head, date, time, duration, ReminderNote, tail);
    head + date + time + duration + ReminderNote + tail
  }

  const ReminderNote: string := "You'll receive reminders 15 minutes and 1 hour before the event.\n\n"

  /** One line per updated field, in the order title, date, time, duration. */
  function UpdateLines(updates: map<string, Value>): (r: seq<string>)
    ensures |r| == (if "title" in updates then 1 else 0) + (if "date" in updates then 1 else 0)
                 + (if "time" in updates then 1 else 0) + (if "duration" in updates then 1 else 0)
    ensures "title" in updates ==> r[0] == "\U{1F4DD} New title: " + Render(updates["title"]) + "\n"
    ensures var i := if "title" in updates then 1 else 0;
      "date" in updates ==> r[i] == "\U{1F4C5} New date: " + Render(updates["date"]) + "\n"
    ensures var i := (if "title" in updates then 1 else 0) + (if "date" in updates then 1 else 0);
      "time" in updates ==> r[i] == "\U{23F0} New time: " + Render(updates["time"]) + "\n"
    ensures "duration" in updates ==> r[|r| - 1] == "\U{23F1}\U{FE0F} New duration: " + DurationText(updates["duration"]) + "\n"
  {
    (if "title" in updates then ["\U{1F4DD} New title: " + Render(updates["title"]) + "\n"] else [])
    + (if "date" in updates then ["\U{1F4C5} New date: " + Render(updates["date"]) + "\n"] else [])
    + (if "time" in updates then ["\U{23F0} New time: " + Render(updates["time"]) + "\n"] else [])
    + (if "duration" in updates then ["\U{23F1}\U{FE0F} New duration: " + DurationText(updates["duration"]) + "\n"] else [])
  }

  function UpdateHead(eventTitle: Value): string {
    "\U{2705} Updated '" + Render(eventTitle) + "' successfully!\n\n"
  }

  function UpdateTail(eventUrl: Value): string {
    "\nView updated event: " + Render(eventUrl)
  }

  /** `format_event_update_confirmation(event_title, updates, event_url)`. */
  function UpdateConfirmation(eventTitle: Value, updates: map<string, Value>, eventUrl: Value): (r: string)
    ensures StartsWith(r, UpdateHead(eventTitle)) && EndsWith(r, UpdateTail(eventUrl))
    ensures forall i :: 0 <= i < |UpdateLines(updates)| ==> Contains(r, UpdateLines(updates)[i])
  {
    var lines := UpdateLines(updates);
    Framed(UpdateHead(eventTitle), Concat(lines), UpdateTail(eventUrl));
    forall i | 0 <= i < |lines|
      ensures Contains(UpdateHead(eventTitle) + Concat(lines) + UpdateTail(eventUrl), lines[i])
    {
      ConcatContains(lines, i);
      ContainsInfix(UpdateHead(eventTitle), Concat(lines), UpdateTail(eventUrl), lines[i]);
    }
    UpdateHead(eventTitle) + Concat(lines) + UpdateTail(eventUrl)
  }

  /** Without any of the four keys the update message is the header and the link alone. */
  lemma UpdateConfirmationWithoutFields(eventTitle: Value, updates: map<string, Value>, eventUrl: Value)
    requires "title" !in updates && "date" !in updates && "time" !in updates && "duration" !in updates
    ensures UpdateConfirmation(eventTitle, updates, eventUrl) == UpdateHead(eventTitle) + UpdateTail(eventUrl)
  {
    assert UpdateLines(updates) == [];
    assert UpdateHead(eventTitle) + [] == UpdateHead(eventTitle);
  }

  // ------------------------------------------------------- list_events

  /** The days whose events are listed: from the start of `first` to the end of `last`. */
  datatype Window = Window(first: Date, last: Date)

  /** Python's `w in v`: a substring of a string, an element of a list or a key of a dictionary. */
  function Member(v: Value, w: string): (r: Result<bool>)
    ensures r.Ok? <==> (v.Str? || v.Arr? || v.Obj?)
  {
    match v
    case Str(s) => Ok(Contains(s, w))
    case Arr(xs) => Ok(Str(w) in xs)
    case Obj(m) => Ok(w in m)
    case _ => Raised
  }

  /**
   * Monday to Sunday of the week of `now`, or of the week after. The Sunday is
   * counted from `now` directly, which is the same day as six days after the Monday.
   */
  function WeekOf(now: Date, next: bool): Window
    requires ValidDate(now)
  {
    var k := -Weekday(now) + (if next then 7 else 0);
    Window(AddDays(now, k), AddDays(now, k + 6))
  }

  /** The window `list_events(date_range)` asks for on the day `now`; `None` when the date is not understood. */
  function ListWindow(dateRange: Value, now: Date): (r: Result<Option<Window>>)
    requires ValidDate(now)
    ensures r.Ok? && r.value.Some? ==> ValidDate(r.value.value.first) && ValidDate(r.value.value.last)
  {
    if dateRange == Str("today") then Ok(Some(Window(now, now)))
    else if dateRange == Str("tomorrow") then Ok(Some(Window(AddDays(now, 1), AddDays(now, 1))))
    else
      var week := Member(dateRange, "week");
      if week.Raised? then Raised
      else if week.value then Ok(Some(WeekOf(now, Member(dateRange, "next").value)))
      else if !dateRange.Str? then Raised
      else
        var d := ParseDateString(dateRange.s, now);
        if d.None? then Ok(None) else Ok(Some(Window(d.value, d.value)))
  }

  /** The week branch of the window, for a range that is neither "today" nor "tomorrow". */
  lemma WeekBranch(range: string, now: Date)
    requires ValidDate(now) && range != "today" && range != "tomorrow" && Contains(range, "week")
    ensures ListWindow(Str(range), now) == Ok(Some(WeekOf(now, Contains(range, "next"))))
  {
    assert Str(range) != Str("today") && Str(range) != Str("tomorrow");
    assert Member(Str(range), "week") == Ok(true);
    assert Member(Str(range), "next") == Ok(Contains(range, "next"));
  }

  lemma WeekOfShape(now: Date, next: bool)
    requires ValidDate(now)
    ensures var w := WeekOf(now, next);
      ValidDate(w.first) && ValidDate(w.last) &&
      Weekday(w.first) == 0 && DayNumber(w.last) == DayNumber(w.first) + 6 &&
      DayNumber(w.first) == DayNumber(now) - Weekday(now) + (if next then 7 else 0)
  {
    var w := Weekday(now);
    var k := -w + (if next then 7 else 0);
    DayNumberAddDays(now, k);
    DayNumberAddDays(now, k + 6);
    WeekdayAddDays(now, k);
    assert w + k == (if next then 7 else 0);
    assert Weekday(AddDays(now, k)) == (w + k) % 7;
  }

  /** A range naming a week lists Monday to Sunday of this week, or of the next one when it also says "next". */
  lemma WeekWindow(range: string, now: Date)
    requires ValidDate(now) && range != "today" && range != "tomorrow" && Contains(range, "week")
    ensures var r := ListWindow(Str(range), now);
      r.Ok? && r.value.Some? &&
      var w := r.value.value;
      Weekday(w.first) == 0 && DayNumber(w.last) == DayNumber(w.first) + 6 &&
      DayNumber(w.first) == DayNumber(now) - Weekday(now) + (if Contains(range, "next") then 7 else 0) &&
      (!Contains(range, "next") ==> DayNumber(w.first) <= DayNumber(now) <= DayNumber(w.last))
  {
    WeekBranch(range, now);
    WeekOfShape(now, Contains(range, "next"));
  }

  /** Any other string range lists the single day the date reader gives, or is not understood. */
  lemma DayWindow(range: string, now: Date)
    requires ValidDate(now) && range != "today" && range != "tomorrow" && !Contains(range, "week")
    ensures var d := ParseDateString(range, now);
      ListWindow(Str(range), now) == Ok(if d.Some? then Some(Window(d.value, d.value)) else None)
  {
    assert Str(range) != Str("today") && Str(range) != Str("tomorrow");
    assert Member(Str(range), "week") == Ok(false);
  }

  /**
   * A range that mentions a month, such as "this month" or "next month", is read
   * through the weekday abbreviation "mon": it lists one day, 1 to 7 days ahead.
   */
  lemma MonthRangeIsOneDay(range: string, now: Date)
    requires ValidDate(now) && range != "today" && range != "tomorrow" && !Contains(range, "week")
    requires Contains(Strip(Lower(range)), "month") && FixedOffset(Strip(Lower(range))).None?
    ensures var r := ListWindow(Str(range), now);
      r.Ok? && r.value.Some? && r.value.value.first == r.value.value.last &&
      1 <= DayNumber(r.value.value.first) - DayNumber(now) <= 7
  {
    var t := Strip(Lower(range));
    MonthContainsMon(t);
    DateParseFacts.WeekdayFound(t, 0, 7);
    DateParseFacts.WeekdayAhead(t, now);
    assert ParseDateString(range, now) == DateFromText(t, now);
    DayWindow(range, now);
  }

  /** "month" starts with "mon", the eighth weekday name. */
  lemma MonthContainsMon(t: string)
    requires Contains(t, "month")
    ensures Contains(t, "mon") && WeekdayNames()[7] == "mon"
  {
    var i := Find(t, "month", 0);
    assert t[i..i + 5] == "month";
    assert MatchAt(t, "mon", i) by { assert t[i..i + 3] == t[i..i + 5][..3]; }
    ContainsAt(t, "mon", i);
  }

  // ------------------------------------------------------ list replies

  /** An event as the list call returns it: its summary (`None` when the key is missing) and its start. */
  datatype ListedEvent = ListedEvent(summary: Option<Value>, start: DateTime)

  /**
   * `strftime('%I:%M %p')`: the hour on the 12-hour clock (12 for hours 0
   * and 12), the minutes, and "AM" before noon.
   */
  function Clock12(minute: int): (r: string)
    requires 0 <= minute < 1440
    ensures |r| == 8 && r[2] == ':' && r[5] == ' ' && AllDigits(r[..2]) && AllDigits(r[3..5])
    ensures DigitsValue(r[..2]) == if (minute / 60) % 12 == 0 then 12 else (minute / 60) % 12
    ensures DigitsValue(r[3..5]) == minute % 60
    ensures r[6..] == if minute < 720 then "AM" else "PM"
  {
    var h := minute / 60;
    var h12 := if h % 12 == 0 then 12 else h % 12;
    var hh, mm, ap := TwoDigits(h12), TwoDigits(minute % 60), if h < 12 then "AM" else "PM";
    var r := hh + ":" + mm + " " + ap;
    assert r[..2] == hh && r[3..5] == mm && r[6..] == ap;
    r
  }

  /** The 12-hour rendering determines the minute of the day: 12 AM is hour 0 and PM adds twelve hours. */
  lemma Clock12ReadBack(minute: int)
    requires 0 <= minute < 1440
    ensures var r := Clock12(minute);
      (DigitsValue(r[..2]) % 12 + (if r[6..] == "PM" then 12 else 0)) * 60 + DigitsValue(r[3..5]) == minute
  {
    var h := minute / 60;
    assert minute == h * 60 + minute % 60;
    assert (if h % 12 == 0 then 12 else h % 12) % 12 == h % 12;
    assert h % 12 + (if h >= 12 then 12 else 0) == h;
  }

  predicate AllStartsValid(events: seq<ListedEvent>) {
    forall i :: 0 <= i < |events| ==> ValidDateTime(events[i].start)
  }

  predicate AllSummarised(events: seq<ListedEvent>) {
    forall i :: 0 <= i < |events| ==> events[i].summary.Some?
  }

  function EventLines(events: seq<ListedEvent>): (r: seq<string>)
    requires AllStartsValid(events) && AllSummarised(events)
    ensures |r| == |events|
    ensures forall i :: 0 <= i < |events| ==>
      r[i] == "- *" + Render(events[i].summary.value) + "* at " + Clock12(events[i].start.minute) + "\n"
  {
    if events == [] then []
    else ["- *" + Render(events[0].summary.value) + "* at " + Clock12(events[0].start.minute) + "\n"] + EventLines(events[1..])
  }

  /** What the list call for the window gives: its items, or the exception it raises. */
  datatype Fetched = Items(items: seq<ListedEvent>) | HttpFailure | OtherFailure

  const FetchErrorReply := "Sorry, I encountered an error while fetching your events."
  const UnexpectedReply := "An unexpected error occurred."

  /** The window is computed and understood, so the list call is made. */
  predicate Listed(serviceUp: bool, dateRange: Value, now: Date)
    requires ValidDate(now)
  {
    serviceUp && ListWindow(dateRange, now).Ok? && ListWindow(dateRange, now).value.Some?
  }

  /**
   * The reply of `list_events(date_range)` once the list call is made. An
   * `HttpError` gives the fetch error; any other exception, also the `KeyError`
   * of an event without a summary while the reply is built, gives the
   * unexpected-error text.
   */
  function FetchedReply(dateRange: Value, fetched: Fetched): (r: string)
    requires fetched.Items? ==> AllStartsValid(fetched.items)
    ensures fetched.HttpFailure? ==> r == FetchErrorReply
    ensures fetched.OtherFailure? ==> r == UnexpectedReply
    ensures fetched == Items([]) ==> r == "You have no events scheduled for " + Render(dateRange) + "."
    ensures fetched.Items? && fetched.items != [] && !AllSummarised(fetched.items) ==> r == UnexpectedReply
    ensures fetched.Items? && fetched.items != [] && AllSummarised(fetched.items) ==>
      StartsWith(r, "Here are your events for " + Render(dateRange) + ":\n\n") &&
      forall i :: 0 <= i < |fetched.items| ==> Contains(r, EventLines(fetched.items)[i])
  {
    match fetched
    case HttpFailure => FetchErrorReply
    case OtherFailure => UnexpectedReply
    case Items(items) =>
      if items == [] then "You have no events scheduled for " + Render(dateRange) + "."
      else if !AllSummarised(items) then UnexpectedReply
      else
        var head, lines := "Here are your events for " + Render(dateRange) + ":\n\n", EventLines(items);
        ListedLines(head, lines);
        head + Concat(lines)
  }

  /**
   * The reply of `list_events(date_range)`. `fetched` is the outcome of the list
   * call for the window; `Raised` is the exception the window computation lets
   * out, outside the `try`.
   */
  function ListReply(serviceUp: bool, dateRange: Value, now: Date, fetched: Fetched): (r: Result<string>)
    requires ValidDate(now) && (fetched.Items? ==> AllStartsValid(fetched.items))
    ensures !serviceUp ==> r == Ok("Sorry, I can't access your calendar right now.")
    ensures r.Raised? <==> serviceUp && ListWindow(dateRange, now).Raised?
    ensures serviceUp && ListWindow(dateRange, now) == Ok(None) ==>
      r == Ok("Sorry, I couldn't understand the date '" + Render(dateRange) + "'.")
    ensures Listed(serviceUp, dateRange, now) ==> r == Ok(FetchedReply(dateRange, fetched))
  {
    if !serviceUp then Ok("Sorry, I can't access your calendar right now.")
    else
      var window := ListWindow(dateRange, now);
      if window.Raised? then Raised
      else if window.value.None? then Ok("Sorry, I couldn't understand the date '" + Render(dateRange) + "'.")
      else Ok(FetchedReply(dateRange, fetched))
  }

  lemma ListedLines(head: string, lines: seq<string>)
    ensures StartsWith(head + Concat(lines), head)
    ensures forall i :: 0 <= i < |lines| ==> Contains(head + Concat(lines), lines[i])
  {
    Framed(head, Concat(lines), []);
    assert head + Concat(lines) + [] == head + Concat(lines);
    forall i | 0 <= i < |lines|
      ensures Contains(head + Concat(lines), lines[i])
    {
      ConcatContains(lines, i);
      ContainsInfix(head, Concat(lines), [], lines[i]);
    }
  }
}
