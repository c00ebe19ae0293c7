/**
 * The dialogue engine behind the WhatsApp webhook: the per-user rate limit,
 * the command guards, and one handler per conversation state. The language
 * model's analyses and the calendar's answers for a turn are inputs
 * (`Services`); the conversation store is a `ConversationManager`.
 *
 * Each handler is specified by a pure step function over a `World` (all
 * sessions and all event lists); the handler methods, which call the store
 * the way the bot does, are proved to produce exactly that step.
 */
module Webhook {
  import opened Wrappers
  import opened Text
  import opened Schemas
  import opened Conversation
  import Calendar
  import LanguageModel

  // ---------------------------------------------------------- rate limit

  const MaxMessages: nat := 10
  const WindowSeconds: int := 60

  /** The timestamps a check keeps: those less than `window` seconds before `now`, in order. */
  function InWindow(ts: seq<int>, now: int, window: int): (r: seq<int>)
    ensures |r| <= |ts|
  {
    if ts == [] then []
    else
      var front := InWindow(ts[..|ts| - 1], now, window);
      var t := ts[|ts| - 1];
      assert ts == ts[..|ts| - 1] + [t];
      if now - t < window then front + [t] else front
  }

  /** A check keeps exactly the timestamps less than `window` seconds old. */
  lemma {:induction false} InWindowExactly(ts: seq<int>, now: int, window: int)
    ensures forall t :: t in InWindow(ts, now, window) <==> t in ts && now - t < window
  {
    if ts != [] {
      InWindowExactly(ts[..|ts| - 1], now, window);
      assert ts == ts[..|ts| - 1] + [ts[|ts| - 1]];
    }
  }

  /** `_check_rate_limit` on one user's timestamps: whether the request passes, and the timestamps kept. */
  function Admit(ts: seq<int>, now: int, maxMessages: nat, window: int): (bool, seq<int>) {
    var kept := InWindow(ts, now, window);
    if |kept| >= maxMessages then (false, kept) else (true, kept + [now])
  }

  /** A check never lets a bounded list grow past the limit, and a passed request is recorded last. */
  lemma AdmitBounded(ts: seq<int>, now: int, maxMessages: nat, window: int)
    requires |ts| <= maxMessages
    ensures |Admit(ts, now, maxMessages, window).1| <= maxMessages
    ensures Admit(ts, now, maxMessages, window).0 ==> Admit(ts, now, maxMessages, window).1[|Admit(ts, now, maxMessages, window).1| - 1] == now
    ensures !Admit(ts, now, maxMessages, window).0 ==> |InWindow(ts, now, window)| >= maxMessages
  {
  }

  /** Every timestamp is less than `window` seconds before `now`. */
  predicate AllInWindow(ts: seq<int>, now: int, window: int) {
    forall i :: 0 <= i < |ts| ==> now - ts[i] < window
  }

  /** Timestamps all inside the window are all kept. */
  lemma {:induction false} InWindowKeepsRecent(ts: seq<int>, now: int, window: int)
    requires AllInWindow(ts, now, window)
    ensures InWindow(ts, now, window) == ts
  {
    if ts != [] {
      InWindowKeepsRecent(ts[..|ts| - 1], now, window);
      assert ts == ts[..|ts| - 1] + [ts[|ts| - 1]];
    }
  }

  /** The answers to requests at `times`, starting from `ts`, and the timestamps kept afterwards. */
  function Replay(ts: seq<int>, times: seq<int>, maxMessages: nat, window: int): (seq<bool>, seq<int>)
    ensures |Replay(ts, times, maxMessages, window).0| == |times|
  {
    if times == [] then ([], ts)
    else
      var prior := Replay(ts, times[..|times| - 1], maxMessages, window);
      var step := Admit(prior.1, times[|times| - 1], maxMessages, window);
      (prior.0 + [step.0], step.1)
  }

  /** Requests in order, all within `window` seconds of each other. */
  predicate Burst(times: seq<int>, window: int) {
    forall i, j :: 0 <= i <= j < |times| ==> 0 <= times[j] - times[i] < window
  }

  /** Within a burst shorter than the window, the first requests are each recorded in turn. */
  lemma {:induction false} BurstRecorded(times: seq<int>, maxMessages: nat, window: int)
    requires |times| <= maxMessages
    requires Burst(times, window)
    ensures Replay([], times, maxMessages, window).1 == times
    ensures forall i :: 0 <= i < |times| ==> Replay([], times, maxMessages, window).0[i]
  {
    if times != [] {
      var front := times[..|times| - 1];
      var now := times[|times| - 1];
      BurstFront(times, front, window);
      BurstRecorded(front, maxMessages, window);
      InWindowKeepsRecent(front, now, window);
      assert times == front + [now];
      assert |InWindow(front, now, window)| < maxMessages;
      assert Replay([], times, maxMessages, window).1 == InWindow(front, now, window) + [now];
      var earlier := Replay([], front, maxMessages, window).0;
      assert Replay([], times, maxMessages, window).0 == earlier + [true];
      forall i | 0 <= i < |times|
        ensures Replay([], times, maxMessages, window).0[i]
      {
        if i < |front| {
          assert earlier[i];
        }
      }
    }
  }

  /** A burst without its last request is a burst, and all of it lies within the window of that request. */
  lemma BurstFront(times: seq<int>, front: seq<int>, window: int)
    requires times != [] && front == times[..|times| - 1]
    requires Burst(times, window)
    ensures Burst(front, window)
    ensures AllInWindow(front, times[|times| - 1], window)
  {
  }

  /**
   * With the defaults, the eleventh request of a burst shorter than a minute
   * is refused and the first ten pass.
   */
  lemma EleventhRejected(times: seq<int>)
    requires |times| == MaxMessages + 1
    requires Burst(times, WindowSeconds)
    ensures forall i :: 0 <= i < MaxMessages ==> Replay([], times, MaxMessages, WindowSeconds).0[i]
    ensures !Replay([], times, MaxMessages, WindowSeconds).0[MaxMessages]
  {
    var front := times[..MaxMessages];
    BurstRecorded(front, MaxMessages, WindowSeconds);
    InWindowKeepsRecent(front, times[MaxMessages], WindowSeconds);
    assert times[..|times| - 1] == front;
  }

  /** The sliding-window throttle, with one list of timestamps per user. */
  class RateLimiter {
    var cache: map<string, seq<int>>

    constructor()
      ensures cache == map[]
    {
      cache := map[];
    }

    /** Every user's list is within the limit. */
    predicate Bounded(maxMessages: nat)
      reads this
    {
      forall p :: p in cache ==> |cache[p]| <= maxMessages
    }

    /** `_check_rate_limit`: old timestamps are dropped; the request passes and is recorded only while fewer than the limit remain. */
    method CheckRateLimit(phone: string, now: int, maxMessages: nat := MaxMessages, window: int := WindowSeconds) returns (allowed: bool)
      modifies this
      ensures var ts := if phone in old(cache) then old(cache)[phone] else [];
        phone in cache && (allowed, cache[phone]) == Admit(ts, now, maxMessages, window)
      ensures cache.Keys == old(cache).Keys + {phone}
      ensures forall p :: p in old(cache) && p != phone ==> cache[p] == old(cache)[p]
      ensures old(Bounded(maxMessages)) ==> Bounded(maxMessages)
    {
      if phone !in cache {
        cache := cache[phone := []];
      }
      if |cache[phone]| <= maxMessages {
        AdmitBounded(cache[phone], now, maxMessages, window);
      }
      var kept := InWindow(cache[phone], now, window);
      cache := cache[phone := kept];
      if |kept| >= maxMessages {
        return false;
      }
      cache := cache[phone := kept + [now]];
      allowed := true;
    }
  }

  // ------------------------------------------------------------- inputs

  /** What the collaborators answer during one turn. */
  datatype Services = Services(
    query: map<string, Value>,                                          // analyze_query_message
    edit: EditRequest,                                                   // analyze_edit_request
    task: TaskAnalysis,                                                  // analyze_task_message
    parsed: Value,                                                       // parse_user_response
    modifications: Value,                                                // parse_confirmation_modification (None is Null)
    listEvents: Value -> Result<string>,                                 // list_events(date_range)
    createEvent: map<string, Value> -> Option<Calendar.CreatedLinks>,    // create_event(task_data)
    updateEvent: (Value, map<string, Value>) -> Value)                   // update_event(event_id, updates)

  /** The reply of a turn; `ReplyText` gives its wording. */
  datatype Reply =
    | Cancelled | Help | Restart | Crashed
    | Listing(text: string)
    | Menu(canEdit: bool)
    | Confirm(taskData: map<string, Value>)
    | Ask(field: string, askedFor: map<string, Value>)
    | Created(createdFrom: map<string, Value>, url: Value)
    | CreateFailed | StartOver
    | NoEventsToEdit | EditCrashed
    | ChooseEvent(choices: seq<StoredEvent>)
    | Unclear(title: Value)
    | Changed(changedTitle: Value, updates: map<string, Value>, link: Value)
    | ChangeFailed(failedTitle: Value)
    | SelectionLost | AskNumber | OutOfRange(count: nat) | SelectionCrashed

  const CancelWords: seq<string> := ["cancel", "stop", "quit", "exit"]
  const HelpWords: seq<string> := ["help", "info", "commands"]
  const YesWords: seq<string> := ["yes", "y", "confirm", "ok", "correct", "right", "good"]
  const NoWords: seq<string> := ["no", "n", "cancel", "wrong", "incorrect"]

  /** `message.lower().strip()`. */
  function Command(message: string): string {
    Strip(Lower(message))
  }

  // -------------------------------------------------------- slot filling

  /** The state `ask_for_missing_info` moves to for a field, if it has one. */
  function AskState(field: string): Option<ConversationState> {
    if field == "date" then Some(AwaitingDate)
    else if field == "time" then Some(AwaitingTime)
    else if field == "duration" then Some(AwaitingDuration)
    else None
  }

  /** The entries a handler stores: the truthy ones whose key is not skipped. */
  function TruthyPart(info: map<string, Value>, skip: set<string>): (r: map<string, Value>)
    ensures forall k :: k in r <==> k in info && k !in skip && Truthy(info[k])
    ensures forall k :: k in r ==> r[k] == info[k]
  {
    map k | k in info && k !in skip && Truthy(info[k]) :: info[k]
  }

  /**
   * The step after new task data is in: CONFIRMING with the confirmation when
   * nothing is missing; otherwise the question for the first missing field.
   * With `reset` the state is first set to TASK_DETECTED.
   */
  function Advanced(s: Session, reset: bool, clock: int): (Session, Reply) {
    var missing := MissingFields(s.taskData);
    if missing == [] then (s.(state := Confirming, updatedAt := clock), Confirm(s.taskData))
    else
      var field := missing[0];
      var s1 := if reset then s.(state := TaskDetected, updatedAt := clock) else s;
      match AskState(field)
      case Some(st) => (s1.(state := st, updatedAt := clock), Ask(field, s.taskData))
      case None => (s1, Ask(field, s.taskData))
  }

  // --------------------------------------------------------------- world

  /** Everything the store holds. */
  datatype World = World(sessions: map<string, Session>, events: map<string, seq<StoredEvent>>)

  /** A handler's result: the new world and its reply, or `Raised` when an exception escapes it. */
  datatype Outcome = Outcome(world: World, reply: Result<Reply>)

  /** The world with one user's session replaced. */
  function Put(w: World, phone: string, s: Session): World {
    w.(sessions := w.sessions[phone := s])
  }

  /** The world after `get_session` for the user. */
  function Touch(w: World, phone: string, clock: int): World {
    Put(w, phone, Lookup(w.sessions, phone, clock))
  }

  /** The world after `clear_session` for the user. */
  function Clear(w: World, phone: string, clock: int): World {
    w.(sessions := Cleared(w.sessions, phone, clock))
  }

  // ---------------------------------------------------------------- edits

  /** `extracted_info.get(key) or edit.new_value`. */
  function NewValue(edit: EditRequest, key: string): Value {
    if HasTruthy(edit.extractedInfo, key) then edit.extractedInfo[key] else OptionToValue(edit.newValue)
  }

  const NewKeys: seq<string> := ["new_title", "new_time", "new_duration", "new_date"]

  /** The updates of the `multiple` loop over `keys`: each truthy `new_x` entry becomes an update of `x`. */
  function MultipleFrom(keys: seq<string>, info: map<string, Value>): map<string, Value>
    requires forall i :: 0 <= i < |keys| ==> |keys[i]| >= 4
  {
    if keys == [] then map[]
    else
      var key := keys[|keys| - 1];
      var prior := MultipleFrom(keys[..|keys| - 1], info);
      if HasTruthy(info, key) then prior[key[4..] := info[key]] else prior
  }

  /** The updates of the `multiple` branch. */
  function MultipleUpdates(info: map<string, Value>): map<string, Value> {
    MultipleFrom(NewKeys, info)
  }

  /** The updates `apply_event_edit` derives from an edit request. */
  function EditUpdates(edit: EditRequest): map<string, Value> {
    var info := edit.extractedInfo;
    if edit.editType == Some("title") || HasTruthy(info, "new_title") then map["title" := NewValue(edit, "new_title")]
    else if edit.editType == Some("time") || HasTruthy(info, "new_time") then map["time" := NewValue(edit, "new_time")]
    else if edit.editType == Some("duration") || HasTruthy(info, "new_duration") then map["duration" := NewValue(edit, "new_duration")]
    else if edit.editType == Some("date") || HasTruthy(info, "new_date") then map["date" := NewValue(edit, "new_date")]
    else if edit.editType == Some("multiple") then MultipleUpdates(info)
    else map[]
  }

  /** The edit names the newest event: `event_reference` is "last", or the message mentions "last". */
  predicate SaysLast(message: string, edit: EditRequest) {
    edit.eventReference == Some("last") || Contains(Lower(message), "last")
  }

  /** The lowercased `event_identifier`, when it is a truthy string. */
  function IdentifierText(edit: EditRequest): Option<string> {
    if HasTruthy(edit.extractedInfo, "event_identifier") && edit.extractedInfo["event_identifier"].Str?
    then Some(Lower(edit.extractedInfo["event_identifier"].s)) else None
  }

  /**
   * Which recent event an edit is about: the newest for "last", else the first
   * title match on `event_identifier`, else the only one; `None` asks the user.
   * Lowercasing a non-string identifier or title raises.
   */
  function Target(recent: seq<StoredEvent>, message: string, edit: EditRequest): (r: Result<Option<nat>>)
    requires recent != []
    ensures r.Ok? && r.value.Some? ==> r.value.value < |recent|
    ensures SaysLast(message, edit) ==> r == Ok(Some(0))
    ensures (!SaysLast(message, edit) && IdentifierText(edit).Some? && TitleIndex(recent, IdentifierText(edit).value).Ok?
             && TitleIndex(recent, IdentifierText(edit).value).value.Some?)
      ==> r == Ok(Some(TitleIndex(recent, IdentifierText(edit).value).value.value))
    ensures r.Raised? ==>
      (!SaysLast(message, edit) && HasTruthy(edit.extractedInfo, "event_identifier")
       && (IdentifierText(edit).None? || TitleIndex(recent, IdentifierText(edit).value).Raised?))
    ensures |recent| == 1 && r.Ok? ==> r == Ok(Some(0))
    ensures r == Ok(None) ==>
      (|recent| >= 2 && !SaysLast(message, edit)
       && (IdentifierText(edit).Some? ==> TitleIndex(recent, IdentifierText(edit).value) == Ok(None)))
  {
    if edit.eventReference == Some("last") || Contains(Lower(message), "last") then Ok(Some(0))
    else
      var found: Result<Option<nat>> :=
        if !HasTruthy(edit.extractedInfo, "event_identifier") then Ok(None)
        else if !edit.extractedInfo["event_identifier"].Str? then Raised
        else TitleIndex(recent, Lower(edit.extractedInfo["event_identifier"].s));
      match found
      case Raised => Raised
      case Ok(Some(k)) => Ok(Some(k))
      case Ok(None) => if |recent| == 1 then Ok(Some(0)) else Ok(None)
  }

  /**
   * `apply_event_edit` on the user's event at `index`. Python edits the
   * stored object itself, so the title shown afterwards is the one at `index`
   * after the store has been updated.
   */
  function ApplyStep(w: World, phone: string, index: nat, edit: EditRequest, updateEvent: (Value, map<string, Value>) -> Value): (World, Reply)
    requires index < |EventsOf(w.events, phone)|
  {
    var event := EventsOf(w.events, phone)[index];
    var updates := EditUpdates(edit);
    if updates == map[] then (w, Unclear(event.title))
    else
      var link := updateEvent(event.eventId, updates);
      if !Truthy(link) then (w, ChangeFailed(event.title))
      else
        var evs := AfterUpdate(w.events, phone, event.eventId, updates);
        AfterUpdateKeepsLength(w.events, phone, event.eventId, updates);
        (w.(events := evs), Changed(EventsOf(evs, phone)[index].title, updates, link))
  }

  /** Updating a stored event keeps the list's length. */
  lemma AfterUpdateKeepsLength(evs: map<string, seq<StoredEvent>>, phone: string, id: Value, updates: map<string, Value>)
    ensures |EventsOf(AfterUpdate(evs, phone, id, updates), phone)| == |EventsOf(evs, phone)|
  {
  }

  /** The session `show_event_selection` leaves: the edit saved under `pending_edit`, waiting in SELECTING_EVENT. */
  function Selecting(s: Session, edit: EditRequest, clock: int): Session {
    s.(taskData := s.taskData["pending_edit" := Obj(EditToValue(edit))], state := SelectingEvent, updatedAt := clock)
  }

  /** `handle_edit_request`. */
  function EditStep(w: World, phone: string, message: string, edit: EditRequest, clock: int,
                    updateEvent: (Value, map<string, Value>) -> Value): (World, Reply)
  {
    var recent := Recent(w.events, phone, RecentLimit);
    if recent == [] then (w, NoEventsToEdit)
    else
      match Target(recent, message, edit)
      case Raised => (w, EditCrashed)
      case Ok(None) => (Put(w, phone, Selecting(Lookup(w.sessions, phone, clock), edit, clock)), ChooseEvent(recent))
      case Ok(Some(k)) => ApplyStep(w, phone, k, edit, updateEvent)
  }

  // ------------------------------------------------------------- handlers

  /** `handle_idle_state`: a query, else an edit, else a task, else the menu. */
  function IdleStep(w: World, phone: string, message: string, clock: int, svc: Services): Outcome {
    if HasTruthy(svc.query, "is_query") then
      var listed := svc.listEvents(Get(svc.query, "date_range", Str("today")));
      Outcome(w, if listed.Raised? then Raised else Ok(Listing(listed.value)))
    else if svc.edit.isEdit then
      var (w1, reply) := EditStep(w, phone, message, svc.edit, clock, svc.updateEvent);
      Outcome(w1, Ok(reply))
    else if svc.task.isTask then
      var s := Merged(Lookup(w.sessions, phone, clock), TruthyPart(svc.task.extractedInfo, {}), clock);
      var (s1, reply) := Advanced(s, true, clock);
      Outcome(Put(w, phone, s1), Ok(reply))
    else Outcome(w, Ok(Menu(Recent(w.events, phone, RecentLimit) != [])))
  }

  /** `handle_task_detected_state`: a parsed reply that is not a dict raises when its items are read. */
  function TaskDetectedStep(w: World, phone: string, clock: int, parsed: Value): Outcome {
    var s0 := Lookup(w.sessions, phone, clock);
    if !parsed.Obj? then Outcome(Put(w, phone, s0), Raised)
    else
      var (s1, reply) := Advanced(Merged(s0, TruthyPart(parsed.fields, {"other_info"}), clock), false, clock);
      Outcome(Put(w, phone, s1), Ok(reply))
  }

  /** `handle_awaiting_date_state` and `handle_awaiting_time_state`: the stripped message is the field's value. */
  function AwaitingStep(w: World, phone: string, field: string, message: string, clock: int): (World, Reply) {
    var s0 := Lookup(w.sessions, phone, clock);
    var s1 := s0.(taskData := s0.taskData[field := Str(Strip(message))], updatedAt := clock);
    var (s2, reply) := Advanced(s1, true, clock);
    (Put(w, phone, s2), reply)
  }

  /** `handle_awaiting_duration_state`: the stripped message is the duration, and the task goes to confirmation. */
  function DurationStep(w: World, phone: string, message: string, clock: int): (World, Reply) {
    var s0 := Lookup(w.sessions, phone, clock);
    var td := s0.taskData["duration" := Str(Strip(message))];
    (Put(w, phone, s0.(taskData := td, state := Confirming, updatedAt := clock)), Confirm(td))
  }

  /** The summary stored for a created event; `None` when a field fails validation. */
  function StoredFor(taskData: map<string, Value>, links: Calendar.CreatedLinks, clock: int): Option<StoredEvent> {
    MakeStoredEvent(links.eventId, Get(taskData, "title", Str("Untitled Task")), Get(taskData, "date", Str("")),
                    Get(taskData, "time", Str("")), Str(Render(Get(taskData, "duration", Str("1 hour")))), links.eventUrl, clock)
  }

  /** `handle_confirming_state`. */
  function ConfirmStep(w: World, phone: string, message: string, clock: int, svc: Services): Outcome {
    var s0 := Lookup(w.sessions, phone, clock);
    var touched := Put(w, phone, s0);
    var response := Command(message);
    if response in YesWords then
      match svc.createEvent(s0.taskData)
      case None => Outcome(Put(w, phone, DefaultSession(phone, clock)), Ok(CreateFailed))
      case Some(links) =>
        match StoredFor(s0.taskData, links, clock)
        case None => Outcome(touched, Raised)
        case Some(e) =>
          var stored := w.events[phone := Pushed(EventsOf(w.events, phone), e)];
          Outcome(World(w.sessions[phone := DefaultSession(phone, clock)], stored), Ok(Created(s0.taskData, links.eventUrl)))
    else if response in NoWords then Outcome(Put(w, phone, DefaultSession(phone, clock)), Ok(StartOver))
    else if Truthy(svc.modifications) && !svc.modifications.Obj? then Outcome(touched, Raised)
    else
      var part := if Truthy(svc.modifications) then TruthyPart(svc.modifications.fields, {}) else map[];
      var s1 := Merged(s0, part, clock);
      Outcome(Put(w, phone, s1), Ok(Confirm(s1.taskData)))
  }

  /** `handle_selecting_event_state`. */
  function SelectStep(w: World, phone: string, message: string, clock: int,
                      updateEvent: (Value, map<string, Value>) -> Value): (World, Reply)
  {
    var s0 := Lookup(w.sessions, phone, clock);
    var pending := Get(s0.taskData, "pending_edit", Null);
    if !Truthy(pending) then (Put(w, phone, DefaultSession(phone, clock)), SelectionLost)
    else
      match PyInt(Strip(message))
      case None => (Put(w, phone, s0), AskNumber)
      case Some(n) => ChosenStep(Put(w, phone, s0), phone, n, pending, clock, updateEvent)
  }

  /**
   * The rest of `handle_selecting_event_state` once the reply is the number
   * `n`: a number outside the list asks again; otherwise the session is
   * reset and the saved edit, rebuilt from `pending`, is applied.
   */
  function ChosenStep(w: World, phone: string, n: int, pending: Value, clock: int,
                      updateEvent: (Value, map<string, Value>) -> Value): (World, Reply)
  {
    var recent := Recent(w.events, phone, RecentLimit);
    if n < 1 || n > |recent| then (w, OutOfRange(|recent|))
    else
      var edit := if pending.Obj? then EditFromFields(pending.fields) else None;
      if edit.None? then (Clear(w, phone, clock), SelectionCrashed)
      else ApplyStep(Clear(w, phone, clock), phone, n - 1, edit.value, updateEvent)
  }

  /** The handler a state dispatches to; states without one reset the session. */
  function Dispatch(w: World, phone: string, message: string, st: ConversationState, clock: int, svc: Services): Outcome {
    match st
    case Idle => IdleStep(w, phone, message, clock, svc)
    case TaskDetected => TaskDetectedStep(w, phone, clock, svc.parsed)
    case AwaitingDate => var (w1, r) := AwaitingStep(w, phone, "date", message, clock); Outcome(w1, Ok(r))
    case AwaitingTime => var (w1, r) := AwaitingStep(w, phone, "time", message, clock); Outcome(w1, Ok(r))
    case AwaitingDuration => var (w1, r) := DurationStep(w, phone, message, clock); Outcome(w1, Ok(r))
    case Confirming => ConfirmStep(w, phone, message, clock, svc)
    case SelectingEvent => var (w1, r) := SelectStep(w, phone, message, clock, svc.updateEvent); Outcome(w1, Ok(r))
    case _ => Outcome(Clear(w, phone, clock), Ok(Restart))
  }

  /**
   * `process_message`: the cancel and help commands come first in every
   * state; an exception escaping a handler resets the session.
   */
  function Turn(w: World, phone: string, message: string, st: ConversationState, clock: int, svc: Services): (World, Reply) {
    var command := Command(message);
    if command in CancelWords then (Clear(w, phone, clock), Cancelled)
    else if command in HelpWords then (w, Help)
    else
      var o := Dispatch(w, phone, message, st, clock, svc);
      match o.reply
      case Raised => (Clear(o.world, phone, clock), Crashed)
      case Ok(r) => (o.world, r)
  }

  // -------------------------------------------------------------- methods

  /** A second update of the same key overrides the first. */
  lemma UpdateTwice<K, V>(m: map<K, V>, k: K, a: V, b: V)
    ensures m[k := a][k := b] == m[k := b]
  {
  }

  /** After the entries of `part` are stored, the user's session is the merged one, and replacing it forgets the merge. */
  lemma WithTasksThen(ss: map<string, Session>, phone: string, part: map<string, Value>, clock: int, s: Session)
    ensures Lookup(WithTasks(ss, phone, part, clock), phone, clock) == Merged(Lookup(ss, phone, clock), part, clock)
    ensures WithTasks(ss, phone, part, clock)[phone := s] == ss[phone := s]
  {
    if part != map[] {
      UpdateTwice(ss, phone, Merged(Lookup(ss, phone, clock), part, clock), s);
    }
  }

  /** One `update_task_data` call sets one key of the user's session. */
  lemma TaskDataStored(ss: map<string, Session>, phone: string, key: string, v: Value, clock: int)
    ensures var s0 := Lookup(ss, phone, clock);
      WithTasks(ss, phone, map[key := v], clock) == ss[phone := s0.(taskData := s0.taskData[key := v], updatedAt := clock)]
  {
    var s0 := Lookup(ss, phone, clock);
    assert key in map[key := v];
    assert s0.taskData + map[key := v] == s0.taskData[key := v];
  }

  /** Stores the truthy entries of `info` whose key is not skipped, one `update_task_data` each. */
  method StoreTruthy(cm: ConversationManager, phone: string, info: map<string, Value>, skip: set<string>, clock: int)
    requires cm.Valid()
    modifies cm
    ensures cm.Valid()
    ensures cm.sessions == WithTasks(old(cm.sessions), phone, TruthyPart(info, skip), clock)
    ensures cm.userEvents == old(cm.userEvents)
  {
    var pending := info.Keys;
    ghost var done: map<string, Value> := map[];
    while pending != {}
      invariant cm.Valid()
      invariant pending <= info.Keys
      invariant done == map k | k in info && k !in pending && k !in skip && Truthy(info[k]) :: info[k]
      invariant cm.sessions == WithTasks(old(cm.sessions), phone, done, clock)
      invariant cm.userEvents == old(cm.userEvents)
      decreases pending
    {
      var key :| key in pending;
      if Truthy(info[key]) && key !in skip {
        WithTasksStep(old(cm.sessions), phone, done, key, info[key], clock);
        cm.UpdateTaskData(phone, key, info[key], clock);
        done := done[key := info[key]];
      }
      pending := pending - {key};
    }
    assert done == TruthyPart(info, skip);
  }

  /** `get_confirmation_message`: the task data as it stands. */
  method ConfirmationReply(cm: ConversationManager, phone: string, clock: int) returns (reply: Reply)
    requires cm.Valid()
    modifies cm
    ensures cm.Valid()
    ensures reply == Confirm(Lookup(old(cm.sessions), phone, clock).taskData)
    ensures cm.sessions == Touched(old(cm.sessions), phone, clock) && cm.userEvents == old(cm.userEvents)
  {
    var taskData := cm.GetTaskData(phone, clock);
    reply := Confirm(taskData);
  }

  /** `ask_for_missing_info`: date, time and duration have a question state; any other field is asked about in place. */
  method AskForMissingInfo(cm: ConversationManager, phone: string, field: string, clock: int) returns (reply: Reply)
    requires cm.Valid()
    modifies cm
    ensures cm.Valid()
    ensures reply == Ask(field, Lookup(old(cm.sessions), phone, clock).taskData)
    ensures cm.sessions == match AskState(field)
      case Some(st) => WithState(old(cm.sessions), phone, st, clock)
      case None => Touched(old(cm.sessions), phone, clock)
    ensures cm.userEvents == old(cm.userEvents)
  {
    var taskData := cm.GetTaskData(phone, clock);
    reply := Ask(field, taskData);
    if field == "date" {
      cm.UpdateSessionState(phone, AwaitingDate, clock);
    } else if field == "time" {
      cm.UpdateSessionState(phone, AwaitingTime, clock);
    } else if field == "duration" {
      cm.UpdateSessionState(phone, AwaitingDuration, clock);
    }
  }

  /** The missing-field check that ends the slot-filling handlers. */
  method Advance(cm: ConversationManager, phone: string, clock: int, reset: bool) returns (reply: Reply)
    requires cm.Valid()
    modifies cm
    ensures cm.Valid()
    ensures var (s, r) := Advanced(Lookup(old(cm.sessions), phone, clock), reset, clock);
      cm.sessions == old(cm.sessions)[phone := s] && reply == r
    ensures cm.userEvents == old(cm.userEvents)
  {
    ghost var ss := cm.sessions;
    ghost var s0 := Lookup(ss, phone, clock);
    var missing := cm.GetMissingFields(phone, clock);
    if missing == [] {
      cm.UpdateSessionState(phone, Confirming, clock);
      UpdateTwice(ss, phone, s0, s0.(state := Confirming, updatedAt := clock));
      reply := ConfirmationReply(cm, phone, clock);
      UpdateTwice(ss, phone, s0.(state := Confirming, updatedAt := clock), s0.(state := Confirming, updatedAt := clock));
      return;
    }
    ghost var s1 := if reset then s0.(state := TaskDetected, updatedAt := clock) else s0;
    if reset {
      cm.UpdateSessionState(phone, TaskDetected, clock);
      UpdateTwice(ss, phone, s0, s1);
    }
    assert cm.sessions == ss[phone := s1];
    reply := AskForMissingInfo(cm, phone, missing[0], clock);
    ghost var s2 := Advanced(s0, reset, clock).0;
    UpdateTwice(ss, phone, s1, s2);
  }

  /** The `elif` chain of `apply_event_edit`, with the loop of its `multiple` branch. */
  method UpdatesFor(edit: EditRequest) returns (updates: map<string, Value>)
    ensures updates == EditUpdates(edit)
  {
    var info := edit.extractedInfo;
    updates := map[];
    if edit.editType == Some("title") || HasTruthy(info, "new_title") {
      updates := updates["title" := NewValue(edit, "new_title")];
    } else if edit.editType == Some("time") || HasTruthy(info, "new_time") {
      updates := updates["time" := NewValue(edit, "new_time")];
    } else if edit.editType == Some("duration") || HasTruthy(info, "new_duration") {
      updates := updates["duration" := NewValue(edit, "new_duration")];
    } else if edit.editType == Some("date") || HasTruthy(info, "new_date") {
      updates := updates["date" := NewValue(edit, "new_date")];
    } else if edit.editType == Some("multiple") {
      updates := MultipleLoop(info);
    }
  }

  /** The loop of the `multiple` branch over the four `new_` keys. */
  method MultipleLoop(info: map<string, Value>) returns (updates: map<string, Value>)
    ensures updates == MultipleUpdates(info)
  {
    updates := map[];
    for i := 0 to |NewKeys|
      invariant updates == MultipleFrom(NewKeys[..i], info)
    {
      assert NewKeys[..i + 1][..i] == NewKeys[..i];
      var field := NewKeys[i];
      if field in info && Truthy(info[field]) {
        updates := updates[field[4..] := info[field]];
      }
    }
    assert NewKeys[..|NewKeys|] == NewKeys;
  }

  /** `apply_event_edit` on the user's stored event at `index`. */
  method ApplyEventEdit(cm: ConversationManager, phone: string, index: nat, edit: EditRequest,
                        updateEvent: (Value, map<string, Value>) -> Value) returns (reply: Reply)
    requires cm.Valid() && index < |EventsOf(cm.userEvents, phone)|
    modifies cm
    ensures cm.Valid()
    ensures (World(cm.sessions, cm.userEvents), reply) == ApplyStep(World(old(cm.sessions), old(cm.userEvents)), phone, index, edit, updateEvent)
  {
    var event := cm.userEvents[phone][index];
    assert event == EventsOf(old(cm.userEvents), phone)[index];
    var updates := UpdatesFor(edit);
    if updates == map[] {
      return Unclear(event.title);
    }
    var link := updateEvent(event.eventId, updates);
    if !Truthy(link) {
      return ChangeFailed(event.title);
    }
    var _ := cm.UpdateStoredEvent(phone, event.eventId, updates);
    AfterUpdateKeepsLength(old(cm.userEvents), phone, event.eventId, updates);
    reply := Changed(EventsOf(cm.userEvents, phone)[index].title, updates, link);
  }

  /** `show_event_selection`: the edit is saved for later and up to five choices are offered. */
  method ShowEventSelection(cm: ConversationManager, phone: string, events: seq<StoredEvent>, edit: EditRequest, clock: int)
    returns (reply: Reply)
    requires cm.Valid()
    modifies cm
    ensures cm.Valid()
    ensures cm.sessions == old(cm.sessions)[phone := Selecting(Lookup(old(cm.sessions), phone, clock), edit, clock)]
    ensures cm.userEvents == old(cm.userEvents)
    ensures reply == ChooseEvent(if |events| > RecentLimit then events[..RecentLimit] else events)
  {
    ghost var ss := cm.sessions;
    ghost var s0 := Lookup(ss, phone, clock);
    ghost var s1 := s0.(taskData := s0.taskData["pending_edit" := Obj(EditToValue(edit))], updatedAt := clock);
    TaskDataStored(ss, phone, "pending_edit", Obj(EditToValue(edit)), clock);
    cm.UpdateTaskData(phone, "pending_edit", Obj(EditToValue(edit)), clock);
    cm.UpdateSessionState(phone, SelectingEvent, clock);
    UpdateTwice(ss, phone, s1, s1.(state := SelectingEvent, updatedAt := clock));
    reply := ChooseEvent(if |events| > RecentLimit then events[..RecentLimit] else events);
  }

  /** `handle_edit_request`. */
  method HandleEditRequest(cm: ConversationManager, phone: string, message: string, edit: EditRequest, clock: int,
                           updateEvent: (Value, map<string, Value>) -> Value) returns (reply: Reply)
    requires cm.Valid()
    modifies cm
    ensures cm.Valid()
    ensures (World(cm.sessions, cm.userEvents), reply) == EditStep(World(old(cm.sessions), old(cm.userEvents)), phone, message, edit, clock, updateEvent)
  {
    var recent := cm.RecentEvents(phone, RecentLimit);
    if recent == [] {
      return NoEventsToEdit;
    }
    var target: Option<nat> := None;
    var info := edit.extractedInfo;
    if edit.eventReference == Some("last") || Contains(Lower(message), "last") {
      target := Some(0);
    } else if "event_identifier" in info && Truthy(info["event_identifier"]) {
      var identifier := info["event_identifier"];
      if !identifier.Str? {
        return EditCrashed;
      }
      var found := SearchTitle(recent, Lower(identifier.s));
      if found.Raised? {
        return EditCrashed;
      }
      target := found.value;
    }
    if target.None? && |recent| == 1 {
      target := Some(0);
    }
    assert Target(recent, message, edit) == Ok(target);
    if target.None? {
      reply := ShowEventSelection(cm, phone, recent, edit, clock);
      return;
    }
    reply := ApplyEventEdit(cm, phone, target.value, edit, updateEvent);
  }

  /** `handle_idle_state`. */
  method HandleIdle(cm: ConversationManager, phone: string, message: string, clock: int, svc: Services) returns (r: Result<Reply>)
    requires cm.Valid()
    modifies cm
    ensures cm.Valid()
    ensures Outcome(World(cm.sessions, cm.userEvents), r) == IdleStep(World(old(cm.sessions), old(cm.userEvents)), phone, message, clock, svc)
  {
    if "is_query" in svc.query && Truthy(svc.query["is_query"]) {
      var dateRange := Get(svc.query, "date_range", Str("today"));
      var listed := svc.listEvents(dateRange);
      if listed.Raised? {
        return Raised;
      }
      return Ok(Listing(listed.value));
    }
    var recent := cm.RecentEvents(phone, RecentLimit);
    if svc.edit.isEdit {
      var reply := HandleEditRequest(cm, phone, message, svc.edit, clock, svc.updateEvent);
      return Ok(reply);
    }
    if svc.task.isTask {
      ghost var ss := cm.sessions;
      ghost var part := TruthyPart(svc.task.extractedInfo, {});
      StoreTruthy(cm, phone, svc.task.extractedInfo, {}, clock);
      var reply := Advance(cm, phone, clock, true);
      WithTasksThen(ss, phone, part, clock, Advanced(Merged(Lookup(ss, phone, clock), part, clock), true, clock).0);
      return Ok(reply);
    }
    return Ok(Menu(recent != []));
  }

  /** `handle_task_detected_state`; `parsed` is what `parse_user_response` returned. */
  method HandleTaskDetected(cm: ConversationManager, phone: string, clock: int, parsed: Value) returns (r: Result<Reply>)
    requires cm.Valid()
    modifies cm
    ensures cm.Valid()
    ensures Outcome(World(cm.sessions, cm.userEvents), r) == TaskDetectedStep(World(old(cm.sessions), old(cm.userEvents)), phone, clock, parsed)
  {
    ghost var ss := cm.sessions;
    ghost var s0 := Lookup(ss, phone, clock);
    var taskData := cm.GetTaskData(phone, clock);
    if !parsed.Obj? {
      return Raised;
    }
    ghost var part := TruthyPart(parsed.fields, {"other_info"});
    StoreTruthy(cm, phone, parsed.fields, {"other_info"}, clock);
    var reply := Advance(cm, phone, clock, false);
    ghost var s1 := Advanced(Merged(s0, part, clock), false, clock).0;
    WithTasksThen(ss[phone := s0], phone, part, clock, s1);
    UpdateTwice(ss, phone, s0, s1);
    return Ok(reply);
  }

  /** `handle_awaiting_date_state` (`field` is "date") and `handle_awaiting_time_state` ("time"). */
  method HandleAwaiting(cm: ConversationManager, phone: string, field: string, message: string, clock: int) returns (reply: Reply)
    requires cm.Valid()
    modifies cm
    ensures cm.Valid()
    ensures (World(cm.sessions, cm.userEvents), reply) == AwaitingStep(World(old(cm.sessions), old(cm.userEvents)), phone, field, message, clock)
  {
    ghost var ss := cm.sessions;
    ghost var s0 := Lookup(ss, phone, clock);
    ghost var s1 := s0.(taskData := s0.taskData[field := Str(Strip(message))], updatedAt := clock);
    TaskDataStored(ss, phone, field, Str(Strip(message)), clock);
    cm.UpdateTaskData(phone, field, Str(Strip(message)), clock);
    reply := Advance(cm, phone, clock, true);
    UpdateTwice(ss, phone, s1, Advanced(s1, true, clock).0);
  }

  /** `handle_awaiting_duration_state`. */
  method HandleAwaitingDuration(cm: ConversationManager, phone: string, message: string, clock: int) returns (reply: Reply)
    requires cm.Valid()
    modifies cm
    ensures cm.Valid()
    ensures (World(cm.sessions, cm.userEvents), reply) == DurationStep(World(old(cm.sessions), old(cm.userEvents)), phone, message, clock)
  {
    ghost var ss := cm.sessions;
    ghost var s0 := Lookup(ss, phone, clock);
    ghost var s1 := s0.(taskData := s0.taskData["duration" := Str(Strip(message))], updatedAt := clock);
    TaskDataStored(ss, phone, "duration", Str(Strip(message)), clock);
    cm.UpdateTaskData(phone, "duration", Str(Strip(message)), clock);
    cm.UpdateSessionState(phone, Confirming, clock);
    UpdateTwice(ss, phone, s1, s1.(state := Confirming, updatedAt := clock));
    reply := ConfirmationReply(cm, phone, clock);
    UpdateTwice(ss, phone, s1.(state := Confirming, updatedAt := clock), s1.(state := Confirming, updatedAt := clock));
  }

  /** `handle_confirming_state`. */
  method HandleConfirming(cm: ConversationManager, phone: string, message: string, clock: int, svc: Services) returns (r: Result<Reply>)
    requires cm.Valid()
    modifies cm
    ensures cm.Valid()
    ensures Outcome(World(cm.sessions, cm.userEvents), r) == ConfirmStep(World(old(cm.sessions), old(cm.userEvents)), phone, message, clock, svc)
  {
    ghost var w0 := World(cm.sessions, cm.userEvents);
    ghost var s0 := Lookup(w0.sessions, phone, clock);
    var response := Strip(Lower(message));
    var taskData := cm.GetTaskData(phone, clock);
    if response in YesWords {
      var created := svc.createEvent(taskData);
      if created.None? {
        cm.ClearSession(phone, clock);
        UpdateTwice(w0.sessions, phone, s0, DefaultSession(phone, clock));
        return Ok(CreateFailed);
      }
      var links := created.value;
      var stored := StoredFor(taskData, links, clock);
      if stored.None? {
        return Raised;
      }
      cm.StoreEvent(phone, stored.value);
      var confirmation := Created(taskData, links.eventUrl);
      cm.ClearSession(phone, clock);
      UpdateTwice(w0.sessions, phone, s0, DefaultSession(phone, clock));
      return Ok(confirmation);
    }
    if response in NoWords {
      cm.ClearSession(phone, clock);
      UpdateTwice(w0.sessions, phone, s0, DefaultSession(phone, clock));
      return Ok(StartOver);
    }
    var modifications := svc.modifications;
    ghost var part: map<string, Value> := map[];
    if Truthy(modifications) {
      if !modifications.Obj? {
        return Raised;
      }
      part := TruthyPart(modifications.fields, {});
      StoreTruthy(cm, phone, modifications.fields, {}, clock);
    }
    assert cm.sessions == WithTasks(w0.sessions[phone := s0], phone, part, clock);
    ghost var s1 := Merged(s0, part, clock);
    WithTasksThen(w0.sessions[phone := s0], phone, part, clock, s1);
    UpdateTwice(w0.sessions, phone, s0, s1);
    var reply := ConfirmationReply(cm, phone, clock);
    assert ConfirmStep(w0, phone, message, clock, svc) == Outcome(Put(w0, phone, s1), Ok(Confirm(s1.taskData)));
    return Ok(reply);
  }

  /** `handle_selecting_event_state`. */
  method HandleSelectingEvent(cm: ConversationManager, phone: string, message: string, clock: int,
                              updateEvent: (Value, map<string, Value>) -> Value) returns (reply: Reply)
    requires cm.Valid()
    modifies cm
    ensures cm.Valid()
    ensures (World(cm.sessions, cm.userEvents), reply) == SelectStep(World(old(cm.sessions), old(cm.userEvents)), phone, message, clock, updateEvent)
  {
    ghost var ss := cm.sessions;
    ghost var s0 := Lookup(ss, phone, clock);
    var taskData := cm.GetTaskData(phone, clock);
    var pending := Get(taskData, "pending_edit", Null);
    if !Truthy(pending) {
      cm.ClearSession(phone, clock);
      UpdateTwice(ss, phone, s0, DefaultSession(phone, clock));
      return SelectionLost;
    }
    var selection := PyInt(Strip(message));
    if selection.None? {
      return AskNumber;
    }
    reply := ApplySelection(cm, phone, selection.value, pending, clock, updateEvent);
  }

  /** The part of `handle_selecting_event_state` after the number is read. */
  method ApplySelection(cm: ConversationManager, phone: string, selection: int, pending: Value, clock: int,
                        updateEvent: (Value, map<string, Value>) -> Value) returns (reply: Reply)
    requires cm.Valid()
    modifies cm
    ensures cm.Valid()
    ensures (World(cm.sessions, cm.userEvents), reply) == ChosenStep(World(old(cm.sessions), old(cm.userEvents)), phone, selection, pending, clock, updateEvent)
  {
    var recent := cm.RecentEvents(phone, RecentLimit);
    var bound := if |recent| < RecentLimit then |recent| else RecentLimit;
    if selection < 1 || selection > bound {
      return OutOfRange(bound);
    }
    var edit := if pending.Obj? then EditFromFields(pending.fields) else None;
    if edit.None? {
      cm.ClearSession(phone, clock);
      return SelectionCrashed;
    }
    cm.ClearSession(phone, clock);
    reply := ApplyEventEdit(cm, phone, selection - 1, edit.value, updateEvent);
  }

  /** `process_message` for a user whose session is in state `st`. */
  method ProcessMessage(cm: ConversationManager, phone: string, message: string, st: ConversationState, clock: int, svc: Services)
    returns (reply: Reply)
    requires cm.Valid()
    modifies cm
    ensures cm.Valid()
    ensures (World(cm.sessions, cm.userEvents), reply) == Turn(World(old(cm.sessions), old(cm.userEvents)), phone, message, st, clock, svc)
  {
    var command := Strip(Lower(message));
    if command in CancelWords {
      cm.ClearSession(phone, clock);
      return Cancelled;
    }
    if command in HelpWords {
      return Help;
    }
    var r := DispatchMessage(cm, phone, message, st, clock, svc);
    if r.Raised? {
      cm.ClearSession(phone, clock);
      return Crashed;
    }
    reply := r.value;
  }

  /** The handler `process_message` calls for the state `st`; a state without one resets the session. */
  method DispatchMessage(cm: ConversationManager, phone: string, message: string, st: ConversationState, clock: int, svc: Services)
    returns (r: Result<Reply>)
    requires cm.Valid()
    modifies cm
    ensures cm.Valid()
    ensures Outcome(World(cm.sessions, cm.userEvents), r) == Dispatch(World(old(cm.sessions), old(cm.userEvents)), phone, message, st, clock, svc)
  {
    match st {
      case Idle => r := HandleIdle(cm, phone, message, clock, svc);
      case TaskDetected => r := HandleTaskDetected(cm, phone, clock, svc.parsed);
      case AwaitingDate => var x := HandleAwaiting(cm, phone, "date", message, clock); r := Ok(x);
      case AwaitingTime => var x := HandleAwaiting(cm, phone, "time", message, clock); r := Ok(x);
      case AwaitingDuration => var x := HandleAwaitingDuration(cm, phone, message, clock); r := Ok(x);
      case Confirming => r := HandleConfirming(cm, phone, message, clock, svc);
      case SelectingEvent => var x := HandleSelectingEvent(cm, phone, message, clock, svc.updateEvent); r := Ok(x);
      case _ =>
        cm.ClearSession(phone, clock);
        r := Ok(Restart);
    }
  }

  // ----------------------------------------------------------- properties

  /**
   * The global guards of `process_message`: a cancel word clears the session
   * in every state, a help word changes nothing, and a state without a
   * handler resets the session.
   */
  lemma GlobalGuards(w: World, phone: string, message: string, st: ConversationState, clock: int, svc: Services)
    ensures Command(message) in CancelWords ==> Turn(w, phone, message, st, clock, svc) == (Clear(w, phone, clock), Cancelled)
    ensures Command(message) !in CancelWords && Command(message) in HelpWords ==> Turn(w, phone, message, st, clock, svc) == (w, Help)
    ensures Command(message) !in CancelWords && Command(message) !in HelpWords && !Handled(st) ==>
      Turn(w, phone, message, st, clock, svc) == (Clear(w, phone, clock), Restart)
  {
  }

  /** "cancel" is also a no-word of CONFIRMING, but the cancel guard answers it first. */
  lemma CancelInConfirming(w: World, phone: string, message: string, clock: int, svc: Services)
    requires Command(message) == "cancel"
    ensures Command(message) in NoWords
    ensures Turn(w, phone, message, Confirming, clock, svc) == (Clear(w, phone, clock), Cancelled)
  {
  }

  /** A positive query in IDLE replies with the listing and changes nothing. */
  lemma QueryChangesNothing(w: World, phone: string, message: string, clock: int, svc: Services)
    requires HasTruthy(svc.query, "is_query")
    ensures IdleStep(w, phone, message, clock, svc).world == w
    ensures svc.listEvents(Get(svc.query, "date_range", Str("today"))).Ok? ==>
      IdleStep(w, phone, message, clock, svc).reply == Ok(Listing(svc.listEvents(Get(svc.query, "date_range", Str("today"))).value))
  {
  }

  /**
   * The missing-field rule: nothing missing leads to CONFIRMING; a missing
   * title is asked for in place (TASK_DETECTED after a reset); a missing date
   * or time moves to its question state. The task data is never changed.
   */
  lemma AdvancedRule(s: Session, reset: bool, clock: int)
    ensures var (s1, r) := Advanced(s, reset, clock);
      s1.taskData == s.taskData && s1.userPhone == s.userPhone && s1.createdAt == s.createdAt
      && (TaskComplete(s.taskData) ==> s1.state == Confirming && r == Confirm(s.taskData))
      && (!HasTruthy(s.taskData, "title") ==> s1.state == (if reset then TaskDetected else s.state) && r == Ask("title", s.taskData))
      && (HasTruthy(s.taskData, "title") && !HasTruthy(s.taskData, "date") ==> s1.state == AwaitingDate && r == Ask("date", s.taskData))
      && (HasTruthy(s.taskData, "title") && HasTruthy(s.taskData, "date") && !HasTruthy(s.taskData, "time") ==>
            s1.state == AwaitingTime && r == Ask("time", s.taskData))
  {
    MissingFieldsOrder(s.taskData);
    CompleteIffNoMissing(s.taskData);
    if !TaskComplete(s.taskData) {
      assert exists f :: f in RequiredFields && !HasTruthy(s.taskData, f);
    }
  }

  /** The missing-field rule never enters AWAITING_DURATION. */
  lemma AdvancedAvoidsDuration(s: Session, reset: bool, clock: int)
    requires reset || s.state != AwaitingDuration
    ensures Advanced(s, reset, clock).0.state != AwaitingDuration
  {
    AdvancedRule(s, reset, clock);
  }

  /** Answering a date or time question stores the stripped answer, so a non-blank answer is no longer missing. */
  lemma AwaitingStoresAnswer(w: World, phone: string, field: string, message: string, clock: int)
    ensures var s1 := Lookup(AwaitingStep(w, phone, field, message, clock).0.sessions, phone, clock);
      s1.taskData == Lookup(w.sessions, phone, clock).taskData[field := Str(Strip(message))]
      && (Strip(message) != "" ==> field !in MissingFields(s1.taskData))
  {
    var s0 := Lookup(w.sessions, phone, clock);
    var td := s0.taskData[field := Str(Strip(message))];
    var s2 := Advanced(s0.(taskData := td, updatedAt := clock), true, clock).0;
    assert AwaitingStep(w, phone, field, message, clock).0.sessions == w.sessions[phone := s2];
    AdvancedRule(s0.(taskData := td, updatedAt := clock), true, clock);
    assert HasTruthy(td, field) <== Strip(message) != "";
    MissingFieldsOrder(td);
  }

  /** AWAITING_DURATION always moves to CONFIRMING with the stripped answer as the duration. */
  lemma DurationConfirms(w: World, phone: string, message: string, clock: int)
    ensures var (w1, r) := DurationStep(w, phone, message, clock);
      var s1 := Lookup(w1.sessions, phone, clock);
      s1.state == Confirming && s1.taskData == Lookup(w.sessions, phone, clock).taskData["duration" := Str(Strip(message))]
      && r == Confirm(s1.taskData) && w1.events == w.events
  {
  }

  /**
   * CONFIRMING: a yes-word with a created event stores it at the head of the
   * user's list and resets the session; a no-word resets the session; any
   * other reply keeps the state and shows the confirmation again.
   */
  lemma ConfirmRules(w: World, phone: string, message: string, clock: int, svc: Services)
    ensures var o := ConfirmStep(w, phone, message, clock, svc);
      var s0 := Lookup(w.sessions, phone, clock);
      var s1 := Lookup(o.world.sessions, phone, clock);
      (Command(message) in YesWords && o.reply.Ok? ==>
         s1 == DefaultSession(phone, clock)
         && (o.reply.value.Created? <==> svc.createEvent(s0.taskData).Some?)
         && (o.reply.value.Created? ==>
               |EventsOf(o.world.events, phone)| >= 1
               && Some(EventsOf(o.world.events, phone)[0]) == StoredFor(s0.taskData, svc.createEvent(s0.taskData).value, clock)))
      && (Command(message) !in YesWords && Command(message) in NoWords ==> s1 == DefaultSession(phone, clock) && o.reply == Ok(StartOver))
      && (Command(message) !in YesWords && Command(message) !in NoWords && o.reply.Ok? ==>
            s1.state == s0.state && o.reply == Ok(Confirm(s1.taskData)) && o.world.events == w.events)
  {
    var s0 := Lookup(w.sessions, phone, clock);
    var o := ConfirmStep(w, phone, message, clock, svc);
    var response := Command(message);
    if response in YesWords {
      match svc.createEvent(s0.taskData) {
        case None =>
          assert o.world == Put(w, phone, DefaultSession(phone, clock));
        case Some(links) =>
          match StoredFor(s0.taskData, links, clock) {
            case None =>
            case Some(e) =>
              var xs := Pushed(EventsOf(w.events, phone), e);
              assert o.world == World(w.sessions[phone := DefaultSession(phone, clock)], w.events[phone := xs]);
              assert EventsOf(o.world.events, phone) == xs;
          }
      }
    } else if response !in NoWords && !(Truthy(svc.modifications) && !svc.modifications.Obj?) {
      var part := if Truthy(svc.modifications) then TruthyPart(svc.modifications.fields, {}) else map[];
      var s1 := Merged(s0, part, clock);
      assert o == Outcome(Put(w, phone, s1), Ok(Confirm(s1.taskData)));
      assert Lookup(o.world.sessions, phone, clock) == s1;
    }
  }

  /** The user's session after a step is not waiting for a duration. */
  predicate NotAwaitingDuration(w: World, phone: string, clock: int) {
    Lookup(w.sessions, phone, clock).state != AwaitingDuration
  }

  /** Applying an edit changes only the event lists. */
  lemma ApplyKeepsSessions(w: World, phone: string, index: nat, edit: EditRequest, updateEvent: (Value, map<string, Value>) -> Value)
    requires index < |EventsOf(w.events, phone)|
    ensures ApplyStep(w, phone, index, edit, updateEvent).0.sessions == w.sessions
  {
  }

  /** An edit request leaves the session as it was, or waiting in SELECTING_EVENT. */
  lemma EditStepSession(w: World, phone: string, message: string, edit: EditRequest, clock: int,
                        updateEvent: (Value, map<string, Value>) -> Value)
    ensures var w1 := EditStep(w, phone, message, edit, clock, updateEvent).0;
      w1.sessions == w.sessions || w1.sessions == w.sessions[phone := Selecting(Lookup(w.sessions, phone, clock), edit, clock)]
  {
    var recent := Recent(w.events, phone, RecentLimit);
    if recent != [] {
      match Target(recent, message, edit)
      case Raised =>
      case Ok(None) =>
      case Ok(Some(k)) => ApplyKeepsSessions(w, phone, k, edit, updateEvent);
    }
  }

  lemma IdleAvoidsDuration(w: World, phone: string, message: string, clock: int, svc: Services)
    requires Lookup(w.sessions, phone, clock).state == Idle
    ensures NotAwaitingDuration(IdleStep(w, phone, message, clock, svc).world, phone, clock)
  {
    if !HasTruthy(svc.query, "is_query") {
      if svc.edit.isEdit {
        EditStepSession(w, phone, message, svc.edit, clock, svc.updateEvent);
      } else if svc.task.isTask {
        AdvancedAvoidsDuration(Merged(Lookup(w.sessions, phone, clock), TruthyPart(svc.task.extractedInfo, {}), clock), true, clock);
      }
    }
  }

  lemma TaskDetectedAvoidsDuration(w: World, phone: string, clock: int, parsed: Value)
    requires Lookup(w.sessions, phone, clock).state == TaskDetected
    ensures NotAwaitingDuration(TaskDetectedStep(w, phone, clock, parsed).world, phone, clock)
  {
    if parsed.Obj? {
      AdvancedAvoidsDuration(Merged(Lookup(w.sessions, phone, clock), TruthyPart(parsed.fields, {"other_info"}), clock), false, clock);
    }
  }

  lemma AwaitingAvoidsDuration(w: World, phone: string, field: string, message: string, clock: int)
    ensures NotAwaitingDuration(AwaitingStep(w, phone, field, message, clock).0, phone, clock)
  {
    var s0 := Lookup(w.sessions, phone, clock);
    AdvancedAvoidsDuration(s0.(taskData := s0.taskData[field := Str(Strip(message))], updatedAt := clock), true, clock);
  }

  lemma ChosenAvoidsDuration(w: World, phone: string, n: int, pending: Value, clock: int,
                             updateEvent: (Value, map<string, Value>) -> Value)
    requires Lookup(w.sessions, phone, clock).state == SelectingEvent
    ensures NotAwaitingDuration(ChosenStep(w, phone, n, pending, clock, updateEvent).0, phone, clock)
  {
    var edit := if pending.Obj? then EditFromFields(pending.fields) else None;
    if 1 <= n <= |Recent(w.events, phone, RecentLimit)| && edit.Some? {
      ApplyKeepsSessions(Clear(w, phone, clock), phone, n - 1, edit.value, updateEvent);
    }
  }

  lemma SelectAvoidsDuration(w: World, phone: string, message: string, clock: int, updateEvent: (Value, map<string, Value>) -> Value)
    requires Lookup(w.sessions, phone, clock).state == SelectingEvent
    ensures NotAwaitingDuration(SelectStep(w, phone, message, clock, updateEvent).0, phone, clock)
  {
    var s0 := Lookup(w.sessions, phone, clock);
    var pending := Get(s0.taskData, "pending_edit", Null);
    if Truthy(pending) {
      match PyInt(Strip(message)) {
        case None =>
        case Some(n) =>
          var w0 := Put(w, phone, s0);
          assert Lookup(w0.sessions, phone, clock) == s0;
          ChosenAvoidsDuration(w0, phone, n, pending, clock, updateEvent);
          assert SelectStep(w, phone, message, clock, updateEvent) == ChosenStep(w0, phone, n, pending, clock, updateEvent);
      }
    }
  }

  lemma ConfirmAvoidsDuration(w: World, phone: string, message: string, clock: int, svc: Services)
    requires Lookup(w.sessions, phone, clock).state == Confirming
    ensures NotAwaitingDuration(ConfirmStep(w, phone, message, clock, svc).world, phone, clock)
  {
    ConfirmRules(w, phone, message, clock, svc);
  }

  lemma DispatchAvoidsDuration(w: World, phone: string, message: string, st: ConversationState, clock: int, svc: Services)
    requires Lookup(w.sessions, phone, clock).state == st && st != AwaitingDuration
    ensures NotAwaitingDuration(Dispatch(w, phone, message, st, clock, svc).world, phone, clock)
  {
    match st {
      case Idle => IdleAvoidsDuration(w, phone, message, clock, svc);
      case TaskDetected => TaskDetectedAvoidsDuration(w, phone, clock, svc.parsed);
      case AwaitingDate => AwaitingAvoidsDuration(w, phone, "date", message, clock);
      case AwaitingTime => AwaitingAvoidsDuration(w, phone, "time", message, clock);
      case Confirming => ConfirmAvoidsDuration(w, phone, message, clock, svc);
      case SelectingEvent => SelectAvoidsDuration(w, phone, message, clock, svc.updateEvent);
      case _ =>
    }
  }

  /**
   * AWAITING_DURATION is never entered: from a session in any other state,
   * every turn leaves it in a state other than AWAITING_DURATION, so a
   * conversation that does not start there never reaches it.
   */
  lemma DurationNeverEntered(w: World, phone: string, message: string, st: ConversationState, clock: int, svc: Services)
    requires Lookup(w.sessions, phone, clock).state == st && st != AwaitingDuration
    ensures NotAwaitingDuration(Turn(w, phone, message, st, clock, svc).0, phone, clock)
  {
    ClearedIdle(w.sessions, phone, clock);
    var command := Command(message);
    if command !in CancelWords && command !in HelpWords {
      var o := Dispatch(w, phone, message, st, clock, svc);
      DispatchAvoidsDuration(w, phone, message, st, clock, svc);
      ClearedIdle(o.world.sessions, phone, clock);
    }
  }

  /** After `clear_session` the user's session is IDLE. */
  lemma ClearedIdle(ss: map<string, Session>, phone: string, clock: int)
    ensures Lookup(Cleared(ss, phone, clock), phone, clock).state == Idle
  {
  }

  /** With no truthy key the `multiple` loop collects nothing. */
  lemma {:induction false} MultipleFromNone(keys: seq<string>, info: map<string, Value>)
    requires forall i :: 0 <= i < |keys| ==> |keys[i]| >= 4 && !HasTruthy(info, keys[i])
    ensures MultipleFrom(keys, info) == map[]
  {
    if keys != [] {
      MultipleFromNone(keys[..|keys| - 1], info);
    }
  }

  /**
   * The `multiple` branch is reached only when no `new_` key is truthy, so it
   * never yields an update: an edit of type `multiple` changes nothing unless
   * a `new_` entry is truthy, and then the chain has already picked one field.
   */
  lemma MultipleBranchEmpty(edit: EditRequest)
    requires edit.editType == Some("multiple")
    ensures var info := edit.extractedInfo;
      EditUpdates(edit) == map[] <==>
        !HasTruthy(info, "new_title") && !HasTruthy(info, "new_time") && !HasTruthy(info, "new_duration") && !HasTruthy(info, "new_date")
  {
    var info := edit.extractedInfo;
    if !HasTruthy(info, "new_title") && !HasTruthy(info, "new_time") && !HasTruthy(info, "new_duration") && !HasTruthy(info, "new_date") {
      MultipleFromNone(NewKeys, info);
    } else if HasTruthy(info, "new_title") {
      assert "title" in EditUpdates(edit);
    } else if HasTruthy(info, "new_time") {
      assert "time" in EditUpdates(edit);
    } else if HasTruthy(info, "new_duration") {
      assert "duration" in EditUpdates(edit);
    } else {
      assert "date" in EditUpdates(edit);
    }
  }

  /**
   * The `elif` chain yields at most one update, chosen in the order title,
   * time, duration, date by the edit type or a truthy `new_` entry.
   */
  lemma EditUpdatesAtMostOne(edit: EditRequest)
    ensures |EditUpdates(edit)| <= 1
    ensures EditUpdates(edit).Keys <= {"title", "time", "duration", "date"}
    ensures var info := edit.extractedInfo;
      var title := edit.editType == Some("title") || HasTruthy(info, "new_title");
      var time := edit.editType == Some("time") || HasTruthy(info, "new_time");
      var duration := edit.editType == Some("duration") || HasTruthy(info, "new_duration");
      var date := edit.editType == Some("date") || HasTruthy(info, "new_date");
      (title ==> EditUpdates(edit) == map["title" := NewValue(edit, "new_title")])
      && (!title && time ==> EditUpdates(edit) == map["time" := NewValue(edit, "new_time")])
      && (!title && !time && duration ==> EditUpdates(edit) == map["duration" := NewValue(edit, "new_duration")])
      && (!title && !time && !duration && date ==> EditUpdates(edit) == map["date" := NewValue(edit, "new_date")])
      && (!title && !time && !duration && !date ==> EditUpdates(edit) == map[])
  {
    var info := edit.extractedInfo;
    if !HasTruthy(info, "new_title") && !HasTruthy(info, "new_time") && !HasTruthy(info, "new_duration") && !HasTruthy(info, "new_date") {
      MultipleFromNone(NewKeys, info);
    }
  }

  /**
   * `apply_event_edit`: no updates or a failed calendar update change
   * nothing; a successful one updates the first stored event with the id.
   * Python edits the stored object itself, so the title in the reply is the
   * new one exactly when that first event is the one at `index`.
   */
  lemma ApplyRules(w: World, phone: string, index: nat, edit: EditRequest, updateEvent: (Value, map<string, Value>) -> Value)
    requires index < |EventsOf(w.events, phone)|
    ensures var events := EventsOf(w.events, phone);
      var event := events[index];
      var updates := EditUpdates(edit);
      var (w1, r) := ApplyStep(w, phone, index, edit, updateEvent);
      (updates == map[] ==> w1 == w && r == Unclear(event.title))
      && (updates != map[] && !Truthy(updateEvent(event.eventId, updates)) ==> w1 == w && r == ChangeFailed(event.title))
      && (r.Changed? ==>
            r.updates == updates && w1.sessions == w.sessions
            && (IdIndex(events, event.eventId) == Some(index) ==>
                  r.changedTitle == Updated(event, updates).title && EventsOf(w1.events, phone)[index] == Updated(event, updates))
            && (IdIndex(events, event.eventId) != Some(index) ==> r.changedTitle == event.title))
  {
    var events := EventsOf(w.events, phone);
    var event := events[index];
    match IdIndex(events, event.eventId)
    case None =>
    case Some(k) =>
  }

  /** An edit request that lists choices has saved the edit and moved to SELECTING_EVENT. */
  lemma EditStepChoosing(w: World, phone: string, message: string, edit: EditRequest, clock: int,
                         updateEvent: (Value, map<string, Value>) -> Value)
    requires EditStep(w, phone, message, edit, clock, updateEvent).1.ChooseEvent?
    ensures EditStep(w, phone, message, edit, clock, updateEvent).0 == Put(w, phone, Selecting(Lookup(w.sessions, phone, clock), edit, clock))
  {
    var recent := Recent(w.events, phone, RecentLimit);
    match Target(recent, message, edit)
    case Raised =>
    case Ok(None) =>
    case Ok(Some(k)) => ApplyRules(w, phone, k, edit, updateEvent);
  }

  /** Applying an edit reads only the event lists. */
  lemma ApplyIgnoresSessions(w: World, v: World, phone: string, index: nat, edit: EditRequest,
                             updateEvent: (Value, map<string, Value>) -> Value)
    requires w.events == v.events && index < |EventsOf(w.events, phone)|
    ensures ApplyStep(w, phone, index, edit, updateEvent).1 == ApplyStep(v, phone, index, edit, updateEvent).1
    ensures ApplyStep(w, phone, index, edit, updateEvent).0.events == ApplyStep(v, phone, index, edit, updateEvent).0.events
  {
  }

  /**
   * An edit that had to ask which event is meant is saved in the session; a
   * later in-range number applies that same edit to the chosen event, as if
   * it had been the target, and resets the session.
   */
  lemma SelectionResumesEdit(w: World, phone: string, message: string, edit: EditRequest, clock: int,
                             updateEvent: (Value, map<string, Value>) -> Value, answer: string, later: int, n: int)
    requires EditStep(w, phone, message, edit, clock, updateEvent).1.ChooseEvent?
    requires PyInt(Strip(answer)) == Some(n) && 1 <= n <= |Recent(w.events, phone, RecentLimit)|
    ensures SelectStep(EditStep(w, phone, message, edit, clock, updateEvent).0, phone, answer, later, updateEvent).1
            == ApplyStep(w, phone, n - 1, edit, updateEvent).1
    ensures SelectStep(EditStep(w, phone, message, edit, clock, updateEvent).0, phone, answer, later, updateEvent).0.events
            == ApplyStep(w, phone, n - 1, edit, updateEvent).0.events
  {
    var wc := ResumedWorld(w, phone, message, edit, clock, updateEvent, answer, later, n);
    var applied := ApplyStep(wc, phone, n - 1, edit, updateEvent);
    ApplyIgnoresSessions(wc, w, phone, n - 1, edit, updateEvent);
    assert applied.1 == ApplyStep(w, phone, n - 1, edit, updateEvent).1;
    assert applied.0.events == ApplyStep(w, phone, n - 1, edit, updateEvent).0.events;
  }

  /** After the saved edit is applied, the user's session is a fresh IDLE one. */
  lemma SelectionResetsSession(w: World, phone: string, message: string, edit: EditRequest, clock: int,
                               updateEvent: (Value, map<string, Value>) -> Value, answer: string, later: int, n: int)
    requires EditStep(w, phone, message, edit, clock, updateEvent).1.ChooseEvent?
    requires PyInt(Strip(answer)) == Some(n) && 1 <= n <= |Recent(w.events, phone, RecentLimit)|
    ensures Lookup(SelectStep(EditStep(w, phone, message, edit, clock, updateEvent).0, phone, answer, later, updateEvent).0.sessions, phone, later)
            == DefaultSession(phone, later)
  {
    var wc := ResumedWorld(w, phone, message, edit, clock, updateEvent, answer, later, n);
    ApplyKeepsSessions(wc, phone, n - 1, edit, updateEvent);
  }

  /** The world the saved edit is applied in: the events as they were and the user's session reset. */
  lemma ResumedWorld(w: World, phone: string, message: string, edit: EditRequest, clock: int,
                     updateEvent: (Value, map<string, Value>) -> Value, answer: string, later: int, n: int)
    returns (wc: World)
    requires EditStep(w, phone, message, edit, clock, updateEvent).1.ChooseEvent?
    requires PyInt(Strip(answer)) == Some(n) && 1 <= n <= |Recent(w.events, phone, RecentLimit)|
    ensures wc.events == w.events && n - 1 < |EventsOf(w.events, phone)|
    ensures Lookup(wc.sessions, phone, later) == DefaultSession(phone, later)
    ensures SelectStep(EditStep(w, phone, message, edit, clock, updateEvent).0, phone, answer, later, updateEvent)
            == ApplyStep(wc, phone, n - 1, edit, updateEvent)
  {
    var s := Selecting(Lookup(w.sessions, phone, clock), edit, clock);
    var w1 := Put(w, phone, s);
    EditStepChoosing(w, phone, message, edit, clock, updateEvent);
    assert s.taskData["pending_edit"] == Obj(EditToValue(edit));
    assert "is_edit" in EditToValue(edit);
    SelectingResumes(w1, phone, s, answer, later, updateEvent);
    var w2 := Put(w1, phone, s);
    wc := Clear(w2, phone, later);
    ChosenApplies(w2, phone, n, edit, later, updateEvent);
  }

  /** A number answered in SELECTING_EVENT continues with the saved edit. */
  lemma SelectingResumes(w: World, phone: string, s: Session, answer: string, clock: int,
                         updateEvent: (Value, map<string, Value>) -> Value)
    requires phone in w.sessions && w.sessions[phone] == s
    requires "pending_edit" in s.taskData && Truthy(s.taskData["pending_edit"]) && PyInt(Strip(answer)).Some?
    ensures SelectStep(w, phone, answer, clock, updateEvent) ==
            ChosenStep(Put(w, phone, s), phone, PyInt(Strip(answer)).value, s.taskData["pending_edit"], clock, updateEvent)
  {
  }

  /** An in-range number applies the saved edit to that event once the session is reset. */
  lemma ChosenApplies(w: World, phone: string, n: int, edit: EditRequest, clock: int,
                      updateEvent: (Value, map<string, Value>) -> Value)
    requires 1 <= n <= |Recent(w.events, phone, RecentLimit)|
    ensures ChosenStep(w, phone, n, Obj(EditToValue(edit)), clock, updateEvent) ==
            ApplyStep(Clear(w, phone, clock), phone, n - 1, edit, updateEvent)
  {
    EditRoundTrip(edit);
  }

  /**
   * The choices listed are the user's recent events, at least two and at
   * most five, so the numbers offered are exactly the ones SELECTING_EVENT
   * accepts.
   */
  lemma OfferedRangeAccepted(w: World, phone: string, message: string, edit: EditRequest, clock: int,
                             updateEvent: (Value, map<string, Value>) -> Value)
    requires EditStep(w, phone, message, edit, clock, updateEvent).1.ChooseEvent?
    ensures var (w1, r) := EditStep(w, phone, message, edit, clock, updateEvent);
      r.choices == Recent(w1.events, phone, RecentLimit) && 2 <= |r.choices| <= RecentLimit
  {
    EditStepChoosing(w, phone, message, edit, clock, updateEvent);
  }

  // ----------------------------------------------- edit target and selection

  /** Without recent events an edit request changes nothing and says so. */
  lemma EditWithoutEvents(w: World, phone: string, message: string, edit: EditRequest, clock: int,
                          updateEvent: (Value, map<string, Value>) -> Value)
    requires Recent(w.events, phone, RecentLimit) == []
    ensures EditStep(w, phone, message, edit, clock, updateEvent) == (w, NoEventsToEdit)
  {
  }

  /** "last" in the request or the message edits the newest event. */
  lemma EditTargetsLast(w: World, phone: string, message: string, edit: EditRequest, clock: int,
                        updateEvent: (Value, map<string, Value>) -> Value)
    requires Recent(w.events, phone, RecentLimit) != [] && SaysLast(message, edit)
    ensures EditStep(w, phone, message, edit, clock, updateEvent) == ApplyStep(w, phone, 0, edit, updateEvent)
  {
  }

  /** Otherwise an identifier edits the first recent event whose title contains it. */
  lemma EditTargetsTitle(w: World, phone: string, message: string, edit: EditRequest, clock: int,
                         updateEvent: (Value, map<string, Value>) -> Value, k: nat)
    requires Recent(w.events, phone, RecentLimit) != [] && !SaysLast(message, edit) && IdentifierText(edit).Some?
    requires TitleIndex(Recent(w.events, phone, RecentLimit), IdentifierText(edit).value) == Ok(Some(k))
    ensures k < |EventsOf(w.events, phone)|
    ensures EditStep(w, phone, message, edit, clock, updateEvent) == ApplyStep(w, phone, k, edit, updateEvent)
  {
  }

  /** With a single recent event, an edit that does not raise is about that event. */
  lemma EditTargetsOnly(w: World, phone: string, message: string, edit: EditRequest, clock: int,
                        updateEvent: (Value, map<string, Value>) -> Value)
    requires |Recent(w.events, phone, RecentLimit)| == 1
    ensures EditStep(w, phone, message, edit, clock, updateEvent) == ApplyStep(w, phone, 0, edit, updateEvent)
         || EditStep(w, phone, message, edit, clock, updateEvent) == (w, EditCrashed)
  {
  }

  /** Storing a map's own entry again changes nothing. */
  lemma PutSame<K, V>(m: map<K, V>, k: K)
    requires k in m
    ensures m[k := m[k]] == m
  {
  }

  /** A saved edit means the user has a stored session, which `get_session` returns unchanged. */
  lemma PendingMeansStored(w: World, phone: string, clock: int)
    requires Truthy(Get(Lookup(w.sessions, phone, clock).taskData, "pending_edit", Null))
    ensures phone in w.sessions && Put(w, phone, Lookup(w.sessions, phone, clock)) == w
  {
    PutSame(w.sessions, phone);
  }

  /** With an edit waiting, a reply that is not a number asks again and changes nothing. */
  lemma SelectionRepromptsOnText(w: World, phone: string, answer: string, clock: int,
                                 updateEvent: (Value, map<string, Value>) -> Value)
    requires Truthy(Get(Lookup(w.sessions, phone, clock).taskData, "pending_edit", Null))
    requires PyInt(Strip(answer)).None?
    ensures SelectStep(w, phone, answer, clock, updateEvent) == (w, AskNumber)
  {
    PendingMeansStored(w, phone, clock);
  }

  /** With an edit waiting, a number outside 1..min(n, 5) names the range and changes nothing. */
  lemma SelectionRepromptsOutOfRange(w: World, phone: string, answer: string, clock: int,
                                     updateEvent: (Value, map<string, Value>) -> Value)
    requires Truthy(Get(Lookup(w.sessions, phone, clock).taskData, "pending_edit", Null))
    requires PyInt(Strip(answer)).Some?
    requires PyInt(Strip(answer)).value < 1 || PyInt(Strip(answer)).value > |Recent(w.events, phone, RecentLimit)|
    ensures SelectStep(w, phone, answer, clock, updateEvent) == (w, OutOfRange(|Recent(w.events, phone, RecentLimit)|))
  {
    PendingMeansStored(w, phone, clock);
  }
}
