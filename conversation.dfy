/**
 * The in-memory conversation store: one session per phone number and a
 * newest-first list of the events created for each user, capped at ten. The
 * clock (`datetime.now()`) is an integer reading in seconds passed to every
 * operation that stamps a session.
 */
module Conversation {
  import opened Wrappers
  import opened Text
  import opened Schemas

  /** The fields a task needs before it can be confirmed, in the order they are asked for. */
  const RequiredFields: seq<string> := ["title", "date", "time"]
  const MaxStoredEvents: nat := 10
  /** The default `limit` of `get_recent_events`. */
  const RecentLimit: nat := 5
  /** The default `max_age_hours` of `cleanup_old_sessions`; callers pass it as `maxAgeHours`. */
  const DefaultMaxAgeHours: nat := 24

  // ------------------------------------------------------------ sessions

  /** The session `get_session` yields: the stored one, or a fresh IDLE one. */
  function Lookup(ss: map<string, Session>, phone: string, clock: int): Session {
    if phone in ss then ss[phone] else DefaultSession(phone, clock)
  }

  /** The sessions after `get_session(phone)`. */
  function Touched(ss: map<string, Session>, phone: string, clock: int): map<string, Session> {
    ss[phone := Lookup(ss, phone, clock)]
  }

  /** The sessions after `clear_session(phone)`: only a known user is reset. */
  function Cleared(ss: map<string, Session>, phone: string, clock: int): map<string, Session> {
    if phone in ss then ss[phone := DefaultSession(phone, clock)] else ss
  }

  /** The sessions after `update_session_state(phone, st)`. */
  function WithState(ss: map<string, Session>, phone: string, st: ConversationState, clock: int): map<string, Session> {
    ss[phone := Lookup(ss, phone, clock).(state := st, updatedAt := clock)]
  }

  /** A session after `update_task_data` has stored every entry of `part`, each assignment stamping it. */
  function Merged(s: Session, part: map<string, Value>, clock: int): Session {
    if part == map[] then s else s.(taskData := s.taskData + part, updatedAt := clock)
  }

  /** The sessions after `update_task_data` has stored every entry of `part`; nothing happens for an empty `part`. */
  function WithTasks(ss: map<string, Session>, phone: string, part: map<string, Value>, clock: int): map<string, Session> {
    if part == map[] then ss else ss[phone := Merged(Lookup(ss, phone, clock), part, clock)]
  }

  /** Storing one more entry extends the entries already stored. */
  lemma WithTasksStep(ss: map<string, Session>, phone: string, done: map<string, Value>, key: string, v: Value, clock: int)
    requires key !in done
    ensures WithTasks(WithTasks(ss, phone, done, clock), phone, map[key := v], clock) == WithTasks(ss, phone, done[key := v], clock)
  {
    assert key in done[key := v] && key in map[key := v];
    var s := Lookup(ss, phone, clock);
    if done != map[] {
      assert (s.taskData + done) + map[key := v] == s.taskData + done[key := v];
    } else {
      assert done[key := v] == map[key := v];
    }
  }

  /** `get_session` creates an IDLE session with no task data only for an unknown user, and leaves a known user's session alone. */
  lemma GetSessionCreatesOnlyWhenAbsent(ss: map<string, Session>, phone: string, clock: int)
    ensures phone in ss ==> Touched(ss, phone, clock) == ss
    ensures phone !in ss ==> Touched(ss, phone, clock)[phone] == DefaultSession(phone, clock)
    ensures phone in Touched(ss, phone, clock) && Touched(ss, phone, clock).Keys == ss.Keys + {phone}
  {
  }

  /** After `clear_session`, the next `get_session` yields IDLE with empty task data, whether or not the user was known. */
  lemma ClearThenGet(ss: map<string, Session>, phone: string, clock: int, later: int)
    ensures Lookup(Cleared(ss, phone, clock), phone, later).state == Idle
    ensures Lookup(Cleared(ss, phone, clock), phone, later).taskData == map[]
    ensures phone !in ss ==> Cleared(ss, phone, clock) == ss
  {
  }

  /** `update_task_data` changes exactly one key of one session and leaves its state and every other session alone. */
  lemma UpdateTaskDataChangesOneKey(ss: map<string, Session>, phone: string, key: string, v: Value, clock: int, other: string)
    ensures var r := WithTasks(ss, phone, map[key := v], clock);
      phone in r && r[phone].taskData == Lookup(ss, phone, clock).taskData[key := v]
      && r[phone].state == Lookup(ss, phone, clock).state
      && (other != phone ==> (other in r <==> other in ss) && (other in ss ==> r[other] == ss[other]))
  {
    var s := Lookup(ss, phone, clock);
    assert key in map[key := v];
    assert s.taskData + map[key := v] == s.taskData[key := v];
  }

  /** `update_session_state` changes only the state and the stamp of one session. */
  lemma UpdateStateChangesOnlyState(ss: map<string, Session>, phone: string, st: ConversationState, clock: int, other: string)
    ensures var r := WithState(ss, phone, st, clock);
      phone in r && r[phone].state == st && r[phone].taskData == Lookup(ss, phone, clock).taskData
      && r[phone].userPhone == Lookup(ss, phone, clock).userPhone
      && (other != phone ==> (other in r <==> other in ss) && (other in ss ==> r[other] == ss[other]))
  {
  }

  // ------------------------------------------------------ missing fields

  /** The fields of `fields` that are absent from `taskData` or falsy, in order. */
  function MissingFrom(fields: seq<string>, taskData: map<string, Value>): (r: seq<string>)
    ensures forall f :: f in r <==> f in fields && !HasTruthy(taskData, f)
    ensures |r| <= |fields|
  {
    if fields == [] then []
    else
      var last := fields[|fields| - 1];
      MissingFrom(fields[..|fields| - 1], taskData) + (if HasTruthy(taskData, last) then [] else [last])
  }

  /** `get_missing_fields` over a task: the required fields still to be collected. */
  function MissingFields(taskData: map<string, Value>): seq<string> {
    MissingFrom(RequiredFields, taskData)
  }

  /** The missing list keeps the order title, date, time: its head is the first required field not yet collected. */
  lemma MissingFieldsOrder(taskData: map<string, Value>)
    ensures forall f :: f in MissingFields(taskData) <==> f in RequiredFields && !HasTruthy(taskData, f)
    ensures |MissingFields(taskData)| <= 3
    ensures MissingFields(taskData) != [] ==>
      MissingFields(taskData)[0] == (if !HasTruthy(taskData, "title") then "title"
                                     else if !HasTruthy(taskData, "date") then "date" else "time")
  {
    var first := if HasTruthy(taskData, "title") then [] else ["title"];
    assert RequiredFields[..2] == ["title", "date"];
    assert ["title", "date"][..1] == ["title"];
    assert ["title"][..0] == [];
    assert MissingFrom(["title"], taskData) == first;
    assert MissingFrom(["title", "date"], taskData) == first + (if HasTruthy(taskData, "date") then [] else ["date"]);
  }

  /** `is_task_complete`: every required field is present and truthy. */
  predicate TaskComplete(taskData: map<string, Value>) {
    forall f :: f in RequiredFields ==> HasTruthy(taskData, f)
  }

  /** A task is complete exactly when no field is missing. */
  lemma CompleteIffNoMissing(taskData: map<string, Value>)
    ensures TaskComplete(taskData) <==> MissingFields(taskData) == []
  {
    if !TaskComplete(taskData) {
      var f :| f in RequiredFields && !HasTruthy(taskData, f);
      assert f in MissingFields(taskData);
    }
    if MissingFields(taskData) != [] {
      assert MissingFields(taskData)[0] in MissingFields(taskData);
    }
  }

  // -------------------------------------------------------------- events

  /** The stored events of a user, newest first. */
  function EventsOf(evs: map<string, seq<StoredEvent>>, phone: string): seq<StoredEvent> {
    if phone in evs then evs[phone] else []
  }

  /** `get_recent_events`: the first `limit` events, newest first; none for an unknown user. */
  function Recent(evs: map<string, seq<StoredEvent>>, phone: string, limit: nat): (r: seq<StoredEvent>)
    ensures |r| == if |EventsOf(evs, phone)| < limit then |EventsOf(evs, phone)| else limit
    ensures forall i :: 0 <= i < |r| ==> r[i] == EventsOf(evs, phone)[i]
    ensures phone !in evs ==> r == []
  {
    if phone !in evs then []
    else if |evs[phone]| <= limit then evs[phone]
    else evs[phone][..limit]
  }

  /** `get_event_by_index`: an entry of the five most recent events. */
  function EventAt(evs: map<string, seq<StoredEvent>>, phone: string, index: int): (r: Option<StoredEvent>)
    ensures r.Some? <==> 0 <= index < RecentLimit && index < |EventsOf(evs, phone)|
    ensures r.Some? ==> r.value == EventsOf(evs, phone)[index]
  {
    var events := Recent(evs, phone, RecentLimit);
    if 0 <= index < |events| then Some(events[index]) else None
  }

  /** The list after `store_event`: the new event first, then at most nine of the previous ones, in order. */
  function Pushed(events: seq<StoredEvent>, e: StoredEvent): (r: seq<StoredEvent>)
    ensures |r| == if |events| + 1 < MaxStoredEvents then |events| + 1 else MaxStoredEvents
    ensures r[0] == e
    ensures forall i :: 1 <= i < |r| ==> r[i] == events[i - 1]
  {
    var all := [e] + events;
    if |all| > MaxStoredEvents then all[..MaxStoredEvents] else all
  }

  /** The index of the first event with the given id. */
  function IdIndex(events: seq<StoredEvent>, id: Value): (r: Option<nat>)
    ensures r.None? <==> forall k :: 0 <= k < |events| ==> events[k].eventId != id
    ensures r.Some? ==> r.value < |events| && events[r.value].eventId == id
                        && forall k :: 0 <= k < r.value ==> events[k].eventId != id
  {
    if events == [] then None
    else if events[0].eventId == id then Some(0)
    else
      match IdIndex(events[1..], id)
      case None => None
      case Some(k) => Some(k + 1)
  }

  /** The value an assignment loop over `updates` leaves in a field that had `v`. */
  function Pick(updates: map<string, Value>, name: string, v: Value): Value {
    if name in updates then updates[name] else v
  }

  /** An event after every declared field named in `updates` is assigned; other names are ignored. */
  function Updated(e: StoredEvent, updates: map<string, Value>): (r: StoredEvent)
    ensures forall name :: IsStoredEventField(name) ==>
      Attr(r, name) == Some(if name in updates then updates[name] else Attr(e, name).value)
  {
    StoredEvent(Pick(updates, "event_id", e.eventId), Pick(updates, "title", e.title), Pick(updates, "date", e.date),
                Pick(updates, "time", e.time), Pick(updates, "duration", e.duration),
                Pick(updates, "created_at", e.createdAt), Pick(updates, "calendar_url", e.calendarUrl))
  }

  /** The event lists after `update_stored_event`: the first event with the id is updated; without one nothing changes. */
  function AfterUpdate(evs: map<string, seq<StoredEvent>>, phone: string, id: Value, updates: map<string, Value>): map<string, seq<StoredEvent>> {
    var events := EventsOf(evs, phone);
    match IdIndex(events, id)
    case None => evs
    case Some(k) => evs[phone := events[k := Updated(events[k], updates)]]
  }

  /** One assignment more extends the assignments already made. */
  lemma SetAttrUpdated(e: StoredEvent, done: map<string, Value>, key: string, v: Value)
    requires key !in done
    ensures SetAttr(Updated(e, done), key, v) == Updated(e, done[key := v])
  {
  }

  /** Every title before position `k` is a string that does not contain `query`. */
  predicate NoMatchBefore(events: seq<StoredEvent>, query: string, k: nat)
    requires k <= |events|
  {
    forall j :: 0 <= j < k ==> events[j].title.Str? && !Contains(Lower(events[j].title.s), query)
  }

  /** A non-matching first title moves the first unreadable title of the rest one place on. */
  lemma RaisedShift(events: seq<StoredEvent>, query: string)
    requires events != [] && events[0].title.Str? && !Contains(Lower(events[0].title.s), query)
    requires exists k :: 0 <= k < |events[1..]| && !events[1..][k].title.Str? && NoMatchBefore(events[1..], query, k)
    ensures exists k :: 0 <= k < |events| && !events[k].title.Str? && NoMatchBefore(events, query, k)
  {
    var k :| 0 <= k < |events[1..]| && !events[1..][k].title.Str? && NoMatchBefore(events[1..], query, k);
    assert forall j :: 1 <= j < k + 1 ==> events[j] == events[1..][j - 1];
    assert NoMatchBefore(events, query, k + 1);
  }

  /**
   * The first event whose lowercased title contains `query`. Reading the
   * title of an event whose title is not a string raises.
   */
  function TitleIndex(events: seq<StoredEvent>, query: string): (r: Result<Option<nat>>)
    ensures r.Ok? && r.value.Some? ==>
      r.value.value < |events| && events[r.value.value].title.Str? && Contains(Lower(events[r.value.value].title.s), query)
    ensures r.Ok? ==> forall k :: 0 <= k < |events| && (r.value.None? || k < r.value.value) ==>
      events[k].title.Str? && !Contains(Lower(events[k].title.s), query)
    ensures r.Raised? ==> exists k :: 0 <= k < |events| && !events[k].title.Str? && NoMatchBefore(events, query, k)
  {
    if events == [] then Ok(None)
    else if !events[0].title.Str? then Raised
    else if Contains(Lower(events[0].title.s), query) then Ok(Some(0))
    else
      match TitleIndex(events[1..], query)
      case Raised => RaisedShift(events, query); Raised
      case Ok(None) => Ok(None)
      case Ok(Some(k)) => Ok(Some(k + 1))
  }

  /** The search loop over a list of events by lowercased title. */
  method SearchTitle(events: seq<StoredEvent>, query: string) returns (r: Result<Option<nat>>)
    ensures r == TitleIndex(events, query)
  {
    var i := 0;
    while i < |events|
      invariant 0 <= i <= |events|
      invariant TitleIndex(events, query) == match TitleIndex(events[i..], query)
        case Raised => Raised
        case Ok(None) => Ok(None)
        case Ok(Some(k)) => Ok(Some(k + i))
    {
      assert events[i..][1..] == events[i + 1..];
      var title := events[i].title;
      if !title.Str? {
        return Raised;
      }
      if Contains(Lower(title.s), query) {
        return Ok(Some(i));
      }
      i := i + 1;
    }
    return Ok(None);
  }

  /** A session whose last update is more than `maxAgeHours` hours before `now`. */
  predicate Expired(s: Session, now: int, maxAgeHours: int) {
    now - s.updatedAt > maxAgeHours * 3600
  }

  /** The assignment loop of `update_stored_event`: `setattr` for every declared field named in `updates`. */
  method AssignFields(original: StoredEvent, updates: map<string, Value>) returns (e: StoredEvent)
    ensures e == Updated(original, updates)
  {
    e := original;
    var pending := updates.Keys;
    ghost var done: map<string, Value> := map[];
    while pending != {}
      invariant pending <= updates.Keys
      invariant done == map k | k in updates && k !in pending :: updates[k]
      invariant e == Updated(original, done)
      decreases pending
    {
      var key :| key in pending;
      DoneStep(updates, pending, key);
      SetAttrUpdated(original, done, key, updates[key]);
      if IsStoredEventField(key) {
        e := SetAttr(e, key, updates[key]);
      }
      done := done[key := updates[key]];
      pending := pending - {key};
    }
    assert done == updates;
  }

  /** Moving one pending key into the assigned part of the updates. */
  lemma DoneStep(updates: map<string, Value>, pending: set<string>, key: string)
    requires key in pending && pending <= updates.Keys
    ensures key !in (map k | k in updates && k !in pending :: updates[k])
    ensures (map k | k in updates && k !in pending :: updates[k])[key := updates[key]]
      == map k | k in updates && k !in pending - {key} :: updates[k]
    ensures pending - {key} <= updates.Keys
  {
  }

  class ConversationManager {
    var sessions: map<string, Session>
    var userEvents: map<string, seq<StoredEvent>>

    /** Every session is filed under its own phone number, and every event list holds at most ten events. */
    predicate Valid()
      reads this
    {
      (forall p :: p in sessions ==> sessions[p].userPhone == p)
      && (forall p :: p in userEvents ==> |userEvents[p]| <= MaxStoredEvents)
    }

    constructor()
      ensures Valid() && sessions == map[] && userEvents == map[]
    {
      sessions := map[];
      userEvents := map[];
    }

    function Events(phone: string): seq<StoredEvent>
      reads this
    {
      EventsOf(userEvents, phone)
    }

    function RecentEvents(phone: string, limit: nat): seq<StoredEvent>
      reads this
    {
      Recent(userEvents, phone, limit)
    }

    function EventByIndex(phone: string, index: int): Option<StoredEvent>
      reads this
    {
      EventAt(userEvents, phone, index)
    }

    method GetSession(phone: string, clock: int) returns (s: Session)
      requires Valid()
      modifies this
      ensures Valid()
      ensures s == Lookup(old(sessions), phone, clock)
      ensures sessions == Touched(old(sessions), phone, clock)
      ensures userEvents == old(userEvents)
    {
      if phone !in sessions {
        sessions := sessions[phone := DefaultSession(phone, clock)];
      }
      s := sessions[phone];
    }

    method UpdateSessionState(phone: string, st: ConversationState, clock: int)
      requires Valid()
      modifies this
      ensures Valid()
      ensures sessions == WithState(old(sessions), phone, st, clock)
      ensures userEvents == old(userEvents)
    {
      var s := GetSession(phone, clock);
      sessions := sessions[phone := s.(state := st, updatedAt := clock)];
    }

    method UpdateTaskData(phone: string, key: string, v: Value, clock: int)
      requires Valid()
      modifies this
      ensures Valid()
      ensures sessions == WithTasks(old(sessions), phone, map[key := v], clock)
      ensures userEvents == old(userEvents)
    {
      var s := GetSession(phone, clock);
      assert key in map[key := v];
      assert s.taskData[key := v] == s.taskData + map[key := v];
      sessions := sessions[phone := s.(taskData := s.taskData[key := v], updatedAt := clock)];
    }

    method GetTaskData(phone: string, clock: int) returns (taskData: map<string, Value>)
      requires Valid()
      modifies this
      ensures Valid()
      ensures taskData == Lookup(old(sessions), phone, clock).taskData
      ensures sessions == Touched(old(sessions), phone, clock)
      ensures userEvents == old(userEvents)
    {
      var s := GetSession(phone, clock);
      taskData := s.taskData;
    }

    method ClearSession(phone: string, clock: int)
      requires Valid()
      modifies this
      ensures Valid()
      ensures sessions == Cleared(old(sessions), phone, clock)
      ensures userEvents == old(userEvents)
    {
      if phone in sessions {
        sessions := sessions[phone := DefaultSession(phone, clock)];
      }
    }

    method IsTaskComplete(phone: string, clock: int) returns (complete: bool)
      requires Valid()
      modifies this
      ensures Valid()
      ensures complete <==> TaskComplete(Lookup(old(sessions), phone, clock).taskData)
      ensures sessions == Touched(old(sessions), phone, clock)
      ensures userEvents == old(userEvents)
    {
      var taskData := GetTaskData(phone, clock);
      complete := forall f :: f in RequiredFields ==> HasTruthy(taskData, f);
    }

    method GetMissingFields(phone: string, clock: int) returns (missing: seq<string>)
      requires Valid()
      modifies this
      ensures Valid()
      ensures missing == MissingFields(Lookup(old(sessions), phone, clock).taskData)
      ensures sessions == Touched(old(sessions), phone, clock)
      ensures userEvents == old(userEvents)
    {
      var taskData := GetTaskData(phone, clock);
      missing := [];
      for i := 0 to |RequiredFields|
        invariant missing == MissingFrom(RequiredFields[..i], taskData)
      {
        assert RequiredFields[..i + 1][..i] == RequiredFields[..i];
        var field := RequiredFields[i];
        if field !in taskData || !Truthy(taskData[field]) {
          missing := missing + [field];
        }
      }
      assert RequiredFields[..|RequiredFields|] == RequiredFields;
    }

    /** `cleanup_old_sessions`: the expired sessions are collected, then deleted. */
    method CleanupOldSessions(now: int, maxAgeHours: int)
      requires Valid()
      modifies this
      ensures Valid()
      ensures sessions == map p | p in old(sessions) && !Expired(old(sessions)[p], now, maxAgeHours) :: old(sessions)[p]
      ensures userEvents == old(userEvents)
    {
      var pending := sessions.Keys;
      var expired: set<string> := {};
      while pending != {}
        invariant sessions == old(sessions) && userEvents == old(userEvents)
        invariant pending <= sessions.Keys
        invariant expired == set p | p in sessions && p !in pending && Expired(sessions[p], now, maxAgeHours)
        decreases pending
      {
        var p :| p in pending;
        if Expired(sessions[p], now, maxAgeHours) {
          expired := expired + {p};
        }
        pending := pending - {p};
      }
      ghost var start := sessions;
      while expired != {}
        invariant userEvents == old(userEvents)
        invariant expired <= sessions.Keys
        invariant sessions.Keys <= start.Keys
        invariant forall p :: p in sessions ==> sessions[p] == start[p]
        invariant forall p :: p in start ==> (p in sessions <==> p in expired || !Expired(start[p], now, maxAgeHours))
        decreases expired
      {
        var p :| p in expired;
        sessions := sessions - {p};
        expired := expired - {p};
      }
      assert sessions.Keys == set p | p in start && !Expired(start[p], now, maxAgeHours);
    }

    method StoreEvent(phone: string, e: StoredEvent)
      requires Valid()
      modifies this
      ensures Valid()
      ensures userEvents == old(userEvents)[phone := Pushed(EventsOf(old(userEvents), phone), e)]
      ensures sessions == old(sessions)
    {
      if phone !in userEvents {
        userEvents := userEvents[phone := []];
      }
      var events := [e] + userEvents[phone];
      if |events| > MaxStoredEvents {
        events := events[..MaxStoredEvents];
      }
      userEvents := userEvents[phone := events];
    }

    /** `get_event_by_id`: the first stored event with the id. */
    method GetEventById(phone: string, id: Value) returns (r: Option<StoredEvent>)
      ensures r.None? <==> IdIndex(Events(phone), id).None?
      ensures r.Some? ==> r.value == Events(phone)[IdIndex(Events(phone), id).value]
    {
      if phone !in userEvents {
        return None;
      }
      var events := userEvents[phone];
      for i := 0 to |events|
        invariant forall k :: 0 <= k < i ==> events[k].eventId != id
      {
        if events[i].eventId == id {
          return Some(events[i]);
        }
      }
      return None;
    }

    /**
     * `update_stored_event`: the first event with the id receives every
     * declared field named in `updates`; with no such event nothing changes.
     */
    method UpdateStoredEvent(phone: string, id: Value, updates: map<string, Value>) returns (found: bool)
      requires Valid()
      modifies this
      ensures Valid()
      ensures found <==> IdIndex(old(Events(phone)), id).Some?
      ensures userEvents == AfterUpdate(old(userEvents), phone, id, updates)
      ensures sessions == old(sessions)
    {
      if phone !in userEvents {
        return false;
      }
      var events := userEvents[phone];
      var i := 0;
      while i < |events|
        invariant 0 <= i <= |events|
        invariant forall k :: 0 <= k < i ==> events[k].eventId != id
        invariant sessions == old(sessions) && userEvents == old(userEvents)
      {
        if events[i].eventId == id {
          assert IdIndex(events, id) == Some(i);
          var e := AssignFields(events[i], updates);
          var updated := events[i := e];
          assert |updated| == |events|;
          assert userEvents[phone := updated] == AfterUpdate(userEvents, phone, id, updates);
          userEvents := userEvents[phone := updated];
          return true;
        }
        i := i + 1;
      }
      return false;
    }

    /** `find_event_by_title_partial`: the first of all stored events whose lowercased title contains the lowercased text. */
    method FindEventByTitlePartial(phone: string, partial: string) returns (r: Result<Option<StoredEvent>>)
      ensures var found := TitleIndex(Events(phone), Lower(partial));
        (r.Raised? <==> found.Raised?)
        && (r.Ok? ==> (r.value.None? <==> found.value.None?))
        && (r.Ok? && r.value.Some? ==> r.value.value == Events(phone)[found.value.value])
    {
      if phone !in userEvents {
        return Ok(None);
      }
      var found := SearchTitle(userEvents[phone], Lower(partial));
      match found
      case Raised => r := Raised;
      case Ok(None) => r := Ok(None);
      case Ok(Some(k)) => r := Ok(Some(userEvents[phone][k]));
    }
  }
}
