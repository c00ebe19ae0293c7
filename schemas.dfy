/**
 * The records the bot passes around: the conversation states, the per-user
 * session, the stored summary of a created event, the edit request and the task
 * analysis the language model produces. Dynamically typed Python values (the
 * contents of `task_data`, decoded JSON) are `Value`s, with Python's truthiness
 * and `str()` rendering.
 */
module Schemas {
  import opened Wrappers
  import Text

  /** A JSON-like Python value. */
  datatype Value = Null | Bool(b: bool) | Int(i: int) | Str(s: string) | Arr(items: seq<Value>) | Obj(fields: map<string, Value>)

  /** Python's `bool(v)`. */
  predicate Truthy(v: Value) {
    match v
    case Null => false
    case Bool(b) => b
    case Int(i) => i != 0
    case Str(s) => s != ""
    case Arr(xs) => xs != []
    case Obj(m) => m != map[]
  }

  /** Python's `str(v)`, as an f-string shows it. */
  function Render(v: Value): string {
    match v
    case Null => "None"
    case Bool(b) => if b then "True" else "False"
    case Int(i) => Text.IntToString(i)
    case Str(s) => s
    case Arr(_) => "[...]"
    case Obj(_) => "{...}"
  }

  /** `d.get(key, default)`. */
  function Get(d: map<string, Value>, key: string, default: Value): Value {
    if key in d then d[key] else default
  }

  /** `bool(d.get(key))`. */
  predicate HasTruthy(d: map<string, Value>, key: string) {
    key in d && Truthy(d[key])
  }

  datatype ConversationState =
    | Idle | TaskDetected | AwaitingDate | AwaitingTime | AwaitingDuration | Confirming
    | EditingEvent | AwaitingEditField | AwaitingNewValue | ConfirmingEdit | SelectingEvent
  {
    /** The enum member's string value. */
    function Name(): string {
      match this
      case Idle => "idle"
      case TaskDetected => "task_detected"
      case AwaitingDate => "awaiting_date"
      case AwaitingTime => "awaiting_time"
      case AwaitingDuration => "awaiting_duration"
      case Confirming => "confirming"
      case EditingEvent => "editing_event"
      case AwaitingEditField => "awaiting_edit_field"
      case AwaitingNewValue => "awaiting_new_value"
      case ConfirmingEdit => "confirming_edit"
      case SelectingEvent => "selecting_event"
    }
  }

  /** The members in declaration order. */
  function AllStates(): (r: seq<ConversationState>)
    ensures |r| == 11
    ensures forall i, j :: 0 <= i < j < |r| ==> r[i].Name() != r[j].Name()
  {
    [Idle, TaskDetected, AwaitingDate, AwaitingTime, AwaitingDuration, Confirming,
     EditingEvent, AwaitingEditField, AwaitingNewValue, ConfirmingEdit, SelectingEvent]
  }

  /** The enumeration has exactly the eleven members listed. */
  lemma StatesEnumerated(st: ConversationState)
    ensures st in AllStates()
  {
    match st
    case Idle =>
    case TaskDetected =>
    case AwaitingDate =>
    case AwaitingTime =>
    case AwaitingDuration =>
    case Confirming =>
    case EditingEvent =>
    case AwaitingEditField =>
    case AwaitingNewValue =>
    case ConfirmingEdit =>
    case SelectingEvent =>
  }

  /** `ConversationState(name)`: the member whose value is `name`, if any. */
  function StateFromName(name: string): (r: Option<ConversationState>)
    ensures r.Some? ==> r.value.Name() == name
  {
    if name == "idle" then Some(Idle)
    else if name == "task_detected" then Some(TaskDetected)
    else if name == "awaiting_date" then Some(AwaitingDate)
    else if name == "awaiting_time" then Some(AwaitingTime)
    else if name == "awaiting_duration" then Some(AwaitingDuration)
    else if name == "confirming" then Some(Confirming)
    else if name == "editing_event" then Some(EditingEvent)
    else if name == "awaiting_edit_field" then Some(AwaitingEditField)
    else if name == "awaiting_new_value" then Some(AwaitingNewValue)
    else if name == "confirming_edit" then Some(ConfirmingEdit)
    else if name == "selecting_event" then Some(SelectingEvent)
    else None
  }

  /** Every member is found again from its value, so the values are pairwise distinct. */
  lemma StateNameRoundTrip(st: ConversationState)
    ensures StateFromName(st.Name()) == Some(st)
  {
  }

  /** The states the message dispatcher has a handler for. */
  predicate Handled(st: ConversationState) {
    st in {Idle, TaskDetected, AwaitingDate, AwaitingTime, AwaitingDuration, Confirming, SelectingEvent}
  }

  /**
   * A conversation session. `createdAt` and `updatedAt` are readings of one
   * abstract clock in seconds.
   */
  datatype Session = Session(userPhone: string, state: ConversationState, taskData: map<string, Value>, createdAt: int, updatedAt: int)

  /** `ConversationSession(user_phone=...)` with the field defaults. */
  function DefaultSession(phone: string, clock: int): Session {
    Session(phone, Idle, map[], clock, clock)
  }

  /**
   * The stored summary of a created event. Construction checks the field types,
   * but later attribute assignments store any value, so every field is a `Value`.
   */
  datatype StoredEvent = StoredEvent(eventId: Value, title: Value, date: Value, time: Value, duration: Value, createdAt: Value, calendarUrl: Value)

  /** `StoredEvent(event_id=..., ...)`: `None` when a field fails validation. */
  function MakeStoredEvent(eventId: Value, title: Value, date: Value, time: Value, duration: Value, calendarUrl: Value, clock: int): (r: Option<StoredEvent>)
    ensures r.Some? <==> eventId.Str? && title.Str? && date.Str? && time.Str? && duration.Str? && (calendarUrl.Null? || calendarUrl.Str?)
    ensures r.Some? ==> r.value.eventId == eventId && r.value.title == title && r.value.date == date && r.value.time == time
                        && r.value.duration == duration && r.value.calendarUrl == calendarUrl && r.value.createdAt == Int(clock)
  {
    if eventId.Str? && title.Str? && date.Str? && time.Str? && duration.Str? && (calendarUrl.Null? || calendarUrl.Str?)
    then Some(StoredEvent(eventId, title, date, time, duration, Int(clock), calendarUrl))
    else None
  }

  predicate IsStoredEventField(name: string) {
    name in {"event_id", "title", "date", "time", "duration", "created_at", "calendar_url"}
  }

  /** `getattr(e, name)` for the declared fields. */
  function Attr(e: StoredEvent, name: string): Option<Value> {
    match name
    case "event_id" => Some(e.eventId)
    case "title" => Some(e.title)
    case "date" => Some(e.date)
    case "time" => Some(e.time)
    case "duration" => Some(e.duration)
    case "created_at" => Some(e.createdAt)
    case "calendar_url" => Some(e.calendarUrl)
    case _ => None
  }

  /** `setattr(e, name, v)` on a declared field; other names leave `e` alone. */
  function SetAttr(e: StoredEvent, name: string, v: Value): StoredEvent {
    match name
    case "event_id" => e.(eventId := v)
    case "title" => e.(title := v)
    case "date" => e.(date := v)
    case "time" => e.(time := v)
    case "duration" => e.(duration := v)
    case "created_at" => e.(createdAt := v)
    case "calendar_url" => e.(calendarUrl := v)
    case _ => e
  }

  /** `hasattr` holds exactly for the declared fields. */
  lemma AttrDefinedOnFields(e: StoredEvent, name: string)
    ensures Attr(e, name).Some? <==> IsStoredEventField(name)
  {
  }

  /** An assignment is read back, and every other attribute keeps its value. */
  lemma SetAttrFrame(e: StoredEvent, name: string, v: Value, other: string)
    requires IsStoredEventField(name)
    ensures Attr(SetAttr(e, name, v), name) == Some(v)
    ensures other != name ==> Attr(SetAttr(e, name, v), other) == Attr(e, other)
  {
  }

  /** An edit request as the language model's analysis describes it. */
  datatype EditRequest = EditRequest(isEdit: bool, editType: Option<string>, newValue: Option<string>, eventReference: Option<string>, extractedInfo: map<string, Value>)

  /** An `Optional[str]` field with default `None`. */
  function OptionalStr(m: map<string, Value>, key: string): Result<Option<string>> {
    if key !in m then Ok(None)
    else match m[key]
      case Null => Ok(None)
      case Str(s) => Ok(Some(s))
      case _ => Raised
  }

  /** A `Dict[str, Any]` field with default `{}`. */
  function DictField(m: map<string, Value>, key: string): Result<map<string, Value>> {
    if key !in m then Ok(map[])
    else match m[key]
      case Obj(f) => Ok(f)
      case _ => Raised
  }

  /** `EditRequest(**m)`: `None` when validation fails. Unknown keys are ignored. */
  function EditFromFields(m: map<string, Value>): (r: Option<EditRequest>)
    ensures r.Some? ==> "is_edit" in m && m["is_edit"] == Bool(r.value.isEdit)
  {
    if "is_edit" !in m || !m["is_edit"].Bool? then None
    else
      var t, v, ref, info := OptionalStr(m, "edit_type"), OptionalStr(m, "new_value"), OptionalStr(m, "event_reference"), DictField(m, "extracted_info");
      if t.Raised? || v.Raised? || ref.Raised? || info.Raised? then None
      else Some(EditRequest(m["is_edit"].b, t.value, v.value, ref.value, info.value))
  }

  function OptionToValue(o: Option<string>): Value {
    match o
    case None => Null
    case Some(s) => Str(s)
  }

  /** `edit_request.dict()`. */
  function EditToValue(e: EditRequest): map<string, Value> {
    map["is_edit" := Bool(e.isEdit), "edit_type" := OptionToValue(e.editType), "new_value" := OptionToValue(e.newValue),
        "event_reference" := OptionToValue(e.eventReference), "extracted_info" := Obj(e.extractedInfo)]
  }

  /** Dumping an edit request and validating the dump gives the same request back. */
  lemma EditRoundTrip(e: EditRequest)
    ensures EditFromFields(EditToValue(e)) == Some(e)
  {
    var m := EditToValue(e);
    assert m["edit_type"] == OptionToValue(e.editType);
    assert m["new_value"] == OptionToValue(e.newValue);
    assert m["event_reference"] == OptionToValue(e.eventReference);
    assert m["extracted_info"] == Obj(e.extractedInfo);
  }

  /** Only `is_edit` is required: the other fields default to `None` and `{}`. */
  lemma EditDefaults(b: bool)
    ensures EditFromFields(map["is_edit" := Bool(b)]) == Some(EditRequest(b, None, None, None, map[]))
  {
  }

  /** The language model's reading of a message as a task. */
  datatype TaskAnalysis = TaskAnalysis(isTask: bool, extractedInfo: map<string, Value>, suggestedQuestions: seq<string>)

  predicate AllStr(xs: seq<Value>) { forall i :: 0 <= i < |xs| ==> xs[i].Str? }

  function Strs(xs: seq<Value>): (r: seq<string>)
    requires AllStr(xs)
    ensures |r| == |xs| && forall i :: 0 <= i < |xs| ==> xs[i] == Str(r[i])
  {
    if xs == [] then [] else [xs[0].s] + Strs(xs[1..])
  }

  /** `OpenAITaskAnalysis(**m)`: `None` when validation fails. */
  function TaskFromFields(m: map<string, Value>): (r: Option<TaskAnalysis>)
    ensures r.Some? ==> "is_task" in m && m["is_task"] == Bool(r.value.isTask)
    ensures r.Some? && "suggested_questions" !in m ==> r.value.suggestedQuestions == []
    ensures r.Some? && "extracted_info" !in m ==> r.value.extractedInfo == map[]
  {
    if "is_task" !in m || !m["is_task"].Bool? then None
    else
      var info := DictField(m, "extracted_info");
      var qs := if "suggested_questions" !in m then Ok([])
                else if m["suggested_questions"].Arr? && AllStr(m["suggested_questions"].items) then Ok(Strs(m["suggested_questions"].items))
                else Raised;
      if info.Raised? || qs.Raised? then None
      else Some(TaskAnalysis(m["is_task"].b, info.value, qs.value))
  }

  function TaskToValue(a: TaskAnalysis): map<string, Value> {
    map["is_task" := Bool(a.isTask), "extracted_info" := Obj(a.extractedInfo), "suggested_questions" := Arr(seq(|a.suggestedQuestions|, i requires 0 <= i < |a.suggestedQuestions| => Str(a.suggestedQuestions[i])))]
  }

  /** Dumping a task analysis and validating the dump gives the same analysis back. */
  lemma TaskRoundTrip(a: TaskAnalysis)
    ensures TaskFromFields(TaskToValue(a)) == Some(a)
  {
    var m := TaskToValue(a);
    var xs := m["suggested_questions"].items;
    assert AllStr(xs);
    assert Strs(xs) == a.suggestedQuestions;
  }
}
