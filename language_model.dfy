/**
 * The bot's side of the language-model conversation: the retry policy of one
 * completion request, the recovery of a JSON object from the model's reply,
 * the defaults the three analyses fill in, the follow-up questions and the
 * list of recent events an edit analysis is shown. The requests themselves are
 * not modelled: each attempt's outcome is given, and `json.loads` is an
 * arbitrary partial function `decode`.
 */
module LanguageModel {
  import opened Wrappers
  import opened Text
  import opened Schemas

  /** The outcome of one completion request. */
  datatype Attempt =
    | Replied(content: string)  // the first choice's text
    | AuthFailure               // `openai.AuthenticationError`
    | RateLimited               // `openai.RateLimitError`
    | Failed                    // any other exception, a missing text included

  const MaxRetries: nat := 3

  /** What an attempt that ends the call returns. */
  function Answer(a: Attempt): Option<string> {
    if a.Replied? then Some(Strip(a.content)) else None
  }

  /**
   * `_make_api_call`: with no client nothing is attempted; otherwise attempts
   * are made until one replies, fails with an authentication or rate-limit
   * error, or the third one fails. `outcomes[k]` is what attempt `k` would
   * give.
   */
  method MakeApiCall(clientReady: bool, outcomes: seq<Attempt>) returns (result: Option<string>, attempts: nat)
    requires |outcomes| >= MaxRetries
    ensures !clientReady ==> result.None? && attempts == 0
    ensures clientReady ==> 1 <= attempts <= MaxRetries
    ensures clientReady ==> forall k :: 0 <= k < attempts - 1 ==> outcomes[k].Failed?
    ensures clientReady && attempts < MaxRetries ==> !outcomes[attempts - 1].Failed?
    ensures clientReady ==> result == Answer(outcomes[attempts - 1])
  {
    if !clientReady {
      return None, 0;
    }
    attempts := 0;
    while attempts < MaxRetries
      invariant attempts <= MaxRetries
      invariant forall k :: 0 <= k < attempts ==> outcomes[k].Failed?
    {
      var outcome := outcomes[attempts];
      attempts := attempts + 1;
      match outcome {
        case Replied(content) =>
          return Some(Strip(content)), attempts;
        case AuthFailure =>
          return None, attempts;
        case RateLimited =>
          return None, attempts;
        case Failed =>
          if attempts == MaxRetries {
            return None, attempts;
          }
      }
    }
    result := None;
  }

  /**
   * The text between `"```json"` and the next `"```"`, stripped, when the reply
   * has such a fence. With no closing fence `find` gives -1 and the slice loses
   * the reply's last character.
   */
  function FencedBlock(c: string): (r: Option<string>)
    ensures r.Some? <==> Contains(c, "```json")
  {
    if Contains(c, "```json") then
      var start := Find(c, "```json", 0) + 7;
      var end := Find(c, "```", start);
      Some(Strip(PySlice(c, start, end)))
    else None
  }

  /** The text from the first `{` to the last `}`, when the last comes after the first. */
  function BracedSpan(c: string): (r: Option<string>)
    ensures r.Some? ==> |r.value| >= 2 && r.value[0] == '{' && r.value[|r.value| - 1] == '}'
  {
    var start := Find(c, "{", 0);
    var end := RFind(c, "}") + 1;
    if start >= 0 && end > start then
      assert c[start..start + 1] == "{" && c[end - 1..end] == "}";
      Some(c[start..end])
    else None
  }

  /**
   * `_safe_json_parse`: an empty or missing reply gives the fallback; otherwise
   * the reply itself, then its fenced block, then its braced span are decoded,
   * and the first that decodes is the result.
   */
  function SafeJsonParse(reply: Option<string>, fallback: Value, decode: string -> Option<Value>): (r: Value)
    ensures r == fallback || (reply.Some? && (decode(reply.value) == Some(r)
              || (FencedBlock(reply.value).Some? && decode(FencedBlock(reply.value).value) == Some(r))
              || (BracedSpan(reply.value).Some? && decode(BracedSpan(reply.value).value) == Some(r))))
  {
    if reply.None? || reply.value == "" then fallback
    else
      var c := reply.value;
      if decode(c).Some? then decode(c).value
      else
        var fenced := FencedBlock(c);
        if fenced.Some? && decode(fenced.value).Some? then decode(fenced.value).value
        else
          var braced := BracedSpan(c);
          if braced.Some? && decode(braced.value).Some? then decode(braced.value).value
          else fallback
  }

  predicate NoBackquote(s: string) { forall i :: 0 <= i < |s| ==> s[i] != '`' }

  /** A fence opening the reply is found at its start. */
  lemma FenceAtStart(c: string, body: string)
    requires c == "```json" + body
    ensures Find(c, "```json", 0) == 0
  {
    assert c[0..7] == "```json";
  }

  /** Inside a body without backquotes no fence can start. */
  lemma NoFenceIn(c: string, body: string, j: int)
    requires |c| >= 7 + |body| && c[7..7 + |body|] == body && NoBackquote(body)
    requires 7 <= j < 7 + |body|
    ensures !MatchAt(c, "```", j)
  {
    assert c[j] == body[j - 7];
  }

  /** A reply fenced as `"```json" + body + "```" + rest` yields the stripped body. */
  lemma FencedBlockOfClosed(body: string, rest: string)
    requires NoBackquote(body)
    ensures FencedBlock("```json" + body + "```" + rest) == Some(Strip(body))
  {
    var c := "```json" + body + "```" + rest;
    FenceAtStart(c, body + "```" + rest);
    ContainsAt(c, "```json", 0);
    var e := 7 + |body|;
    assert c == "```json" + body + ("```" + rest);
    MatchAtShift("```json", body, "```" + rest, body, 0);
    MatchAtShift("```json" + body, "```", rest, "```", 0);
    assert c[7..e] == body;
    forall j | 7 <= j < e
      ensures !MatchAt(c, "```", j)
    {
      NoFenceIn(c, body, j);
    }
    assert Find(c, "```", 7) == e;
    assert PySlice(c, 7, e) == body;
  }

  /** An unclosed fence yields the stripped body without its last character. */
  lemma FencedBlockOfUnclosed(body: string)
    requires NoBackquote(body)
    ensures FencedBlock("```json" + body) == Some(Strip(if body == [] then [] else body[..|body| - 1]))
  {
    var c := "```json" + body;
    FenceAtStart(c, body);
    ContainsAt(c, "```json", 0);
    assert c[7..] == body;
    forall j | 7 <= j
      ensures !MatchAt(c, "```", j)
    {
      if 7 <= j < |c| {
        NoFenceIn(c, body, j);
      }
    }
    assert Find(c, "```", 7) == -1;
    var kept := if body == [] then [] else body[..|body| - 1];
    if |body| >= 2 {
      assert PySlice(c, 7, -1) == c[7..|c| - 1] == kept;
    } else {
      assert SliceIndex(-1, |c|) <= 7;
      assert PySlice(c, 7, -1) == [] == kept;
    }
  }

  /** Prose around one object: the span runs from its `{` to its `}`. */
  lemma BracedSpanOfWrapped(pre: string, mid: string, post: string)
    requires forall i :: 0 <= i < |pre| ==> pre[i] != '{'
    requires forall i :: 0 <= i < |post| ==> post[i] != '}'
    ensures BracedSpan(pre + "{" + mid + "}" + post) == Some("{" + mid + "}")
  {
    var span := "{" + mid + "}";
    var c := pre + span + post;
    assert c == pre + "{" + mid + "}" + post;
    assert span[0] == '{' && span[|span| - 1] == '}';
    FirstBrace(pre, span + post);
    assert c == pre + (span + post);
    LastBrace(pre + span, post);
    MiddleSlice(pre, span, post);
  }

  /** The first '{' of `pre + rest` is the one that starts `rest`, when `pre` has none. */
  lemma FirstBrace(pre: string, rest: string)
    requires forall i :: 0 <= i < |pre| ==> pre[i] != '{'
    requires rest != [] && rest[0] == '{'
    ensures Find(pre + rest, "{", 0) == |pre|
  {
    var c := pre + rest;
    assert c[|pre|..|pre| + 1] == "{";
    assert MatchAt(c, "{", |pre|);
    forall j | 0 <= j < |pre|
      ensures !MatchAt(c, "{", j)
    {
      assert c[j] == pre[j];
    }
    FindIsFirst(c, "{", |pre|);
  }

  /** The last '}' of `front + post` is the one that ends `front`, when `post` has none. */
  lemma LastBrace(front: string, post: string)
    requires forall i :: 0 <= i < |post| ==> post[i] != '}'
    requires front != [] && front[|front| - 1] == '}'
    ensures RFind(front + post, "}") == |front| - 1
  {
    var c := front + post;
    var b := |front| - 1;
    assert c[b..b + 1] == "}";
    assert MatchAt(c, "}", b);
    forall j | b < j
      ensures !MatchAt(c, "}", j)
    {
      if j < |c| {
        assert c[j] == post[j - b - 1];
      }
    }
    RFindIsLast(c, "}", b);
  }

  lemma MiddleSlice(a: string, b: string, c: string)
    ensures |a + b + c| == |a| + |b| + |c| && (a + b + c)[|a|..|a| + |b|] == b
  {
    var t := a + b + c;
    assert t[|a|..|a| + |b|] == b by {
      forall i | 0 <= i < |b| ensures t[|a| + i] == b[i] { }
    }
  }

  /** A reply that decodes as it stands is taken as it stands. */
  lemma ParseTakesDirectDecode(c: string, fallback: Value, decode: string -> Option<Value>)
    requires c != [] && decode(c).Some?
    ensures SafeJsonParse(Some(c), fallback, decode) == decode(c).value
  {
  }

  /** A reply inside a closed ```json fence gives the decoded body. */
  lemma ParseFencedReply(body: string, rest: string, fallback: Value, decode: string -> Option<Value>)
    requires NoBackquote(body)
    requires decode("```json" + body + "```" + rest).None? && decode(Strip(body)).Some?
    ensures SafeJsonParse(Some("```json" + body + "```" + rest), fallback, decode) == decode(Strip(body)).value
  {
    FencedBlockOfClosed(body, rest);
  }

  /** An object inside prose, with no fence, gives the decoded object. */
  lemma ParseWrappedObject(pre: string, mid: string, post: string, fallback: Value, decode: string -> Option<Value>)
    requires forall i :: 0 <= i < |pre| ==> pre[i] != '{'
    requires forall i :: 0 <= i < |post| ==> post[i] != '}'
    requires !Contains(pre + "{" + mid + "}" + post, "```json")
    requires decode(pre + "{" + mid + "}" + post).None? && decode("{" + mid + "}").Some?
    ensures SafeJsonParse(Some(pre + "{" + mid + "}" + post), fallback, decode) == decode("{" + mid + "}").value
  {
    BracedSpanOfWrapped(pre, mid, post);
  }

  /** A reply that does not decode and has neither a fence nor a `{` gives the fallback. */
  lemma ParseFallsBack(c: string, fallback: Value, decode: string -> Option<Value>)
    requires decode(c).None? && !Contains(c, "```json")
    requires forall i :: 0 <= i < |c| ==> c[i] != '{'
    ensures SafeJsonParse(Some(c), fallback, decode) == fallback
  {
  }

  /** `d.setdefault(key, v)`, as the new value of `d`. */
  function SetDefault(d: map<string, Value>, key: string, v: Value): (r: map<string, Value>)
    ensures key in r && (key in d ==> r[key] == d[key]) && (key !in d ==> r[key] == v)
    ensures r.Keys == d.Keys + {key} && forall k :: k in d && k != key ==> r[k] == d[k]
  {
    if key in d then d else d[key := v]
  }

  function TaskFallback(): map<string, Value> {
    map["is_task" := Bool(false), "extracted_info" := Obj(map[]), "suggested_questions" := Arr([])]
  }

  function NoTask(): TaskAnalysis { TaskAnalysis(false, map[], []) }

  /** The three `setdefault` calls of `analyze_task_message`. */
  function FillTask(d: map<string, Value>): map<string, Value> {
    SetDefault(SetDefault(SetDefault(d, "is_task", Bool(false)), "extracted_info", Obj(map[])), "suggested_questions", Arr([]))
  }

  /** Filling the defaults changes nothing that already validates. */
  lemma TaskDefaultsAgree(d: map<string, Value>)
    requires TaskFromFields(d).Some?
    ensures TaskFromFields(FillTask(d)) == TaskFromFields(d)
  {
    var m := FillTask(d);
    assert DictField(m, "extracted_info") == DictField(d, "extracted_info");
    if "suggested_questions" !in d {
      assert m["suggested_questions"] == Arr([]);
      assert Strs([]) == [];
    }
  }

  /** A present but mistyped `extracted_info` (`{"is_task": true, "extracted_info": 5}`) survives the defaults and fails validation. */
  lemma MistypedInfoFailsTask(d: map<string, Value>)
    requires "extracted_info" in d && !d["extracted_info"].Obj?
    ensures TaskFromFields(FillTask(d)).None?
  {
    assert FillTask(d)["extracted_info"] == d["extracted_info"];
  }

  /**
   * The validation step of `analyze_task_message`: the three keys are
   * defaulted and the record is validated; a non-object (which has no
   * `setdefault`) or a failed validation raises, which gives the all-default
   * analysis.
   */
  method CompleteTask(data: Value) returns (r: TaskAnalysis)
    ensures !data.Obj? ==> r == NoTask()
    ensures r.isTask ==> data.Obj? && "is_task" in data.fields && data.fields["is_task"] == Bool(true)
    ensures data.Obj? && TaskFromFields(data.fields).Some? ==> r == TaskFromFields(data.fields).value
    ensures data.Obj? && TaskFromFields(FillTask(data.fields)).Some? ==> r == TaskFromFields(FillTask(data.fields)).value
    ensures data.Obj? && TaskFromFields(FillTask(data.fields)).None? ==> r == NoTask()
  {
    if !data.Obj? {
      return NoTask();
    }
    var m := data.fields;
    m := SetDefault(m, "is_task", Bool(false));
    m := SetDefault(m, "extracted_info", Obj(map[]));
    m := SetDefault(m, "suggested_questions", Arr([]));
    var a := TaskFromFields(m);
    if a.Some? {
      r := a.value;
    } else {
      r := NoTask();
    }
    if TaskFromFields(data.fields).Some? {
      TaskDefaultsAgree(data.fields);
    }
  }

  /** `analyze_task_message` after the request: the reply parsed with the all-default fallback, then validated. */
  method AnalyzeTask(reply: Option<string>, decode: string -> Option<Value>) returns (r: TaskAnalysis)
    ensures reply.None? ==> r == NoTask()
    ensures var data := SafeJsonParse(reply, Obj(TaskFallback()), decode);
      (!data.Obj? ==> r == NoTask())
      && (r.isTask ==> data.Obj? && "is_task" in data.fields && data.fields["is_task"] == Bool(true))
      && (data.Obj? && TaskFromFields(data.fields).Some? ==> r == TaskFromFields(data.fields).value)
      && (data.Obj? && TaskFromFields(FillTask(data.fields)).Some? ==> r == TaskFromFields(FillTask(data.fields)).value)
      && (data.Obj? && TaskFromFields(FillTask(data.fields)).None? ==> r == NoTask())
  {
    var data := SafeJsonParse(reply, Obj(TaskFallback()), decode);
    r := CompleteTask(data);
    if reply.None? {
      assert TaskFromFields(TaskFallback()) == Some(NoTask()) by {
        assert Strs([]) == [];
      }
    }
  }

  function EditFallback(): map<string, Value> {
    map["is_edit" := Bool(false), "edit_type" := Null, "new_value" := Null, "event_reference" := Null, "extracted_info" := Obj(map[])]
  }

  function NoEdit(): EditRequest { EditRequest(false, None, None, None, map[]) }

  /** The five `setdefault` calls of `analyze_edit_request`. */
  function FillEdit(d: map<string, Value>): map<string, Value> {
    SetDefault(SetDefault(SetDefault(SetDefault(SetDefault(d, "is_edit", Bool(false)), "edit_type", Null), "new_value", Null),
               "event_reference", Null), "extracted_info", Obj(map[]))
  }

  /** Filling the defaults changes nothing that already validates. */
  lemma EditDefaultsAgree(d: map<string, Value>)
    requires EditFromFields(d).Some?
    ensures EditFromFields(FillEdit(d)) == EditFromFields(d)
  {
    var m2 := SetDefault(d, "edit_type", Null);
    var m3 := SetDefault(m2, "new_value", Null);
    var m4 := SetDefault(m3, "event_reference", Null);
    var m := SetDefault(m4, "extracted_info", Obj(map[]));
    assert SetDefault(d, "is_edit", Bool(false)) == d;
    assert m == FillEdit(d);
    NullDefaultAgrees(d, m, "edit_type");
    NullDefaultAgrees(d, m, "new_value");
    NullDefaultAgrees(d, m, "event_reference");
    assert DictField(m, "extracted_info") == DictField(d, "extracted_info");
    assert m["is_edit"] == d["is_edit"];
  }

  /** A key given the default `None` reads as it did before, or as missing. */
  lemma NullDefaultAgrees(d: map<string, Value>, m: map<string, Value>, key: string)
    requires key in m && (key in d ==> m[key] == d[key]) && (key !in d ==> m[key] == Null)
    ensures OptionalStr(m, key) == OptionalStr(d, key)
  {
  }

  /** A present `edit_type` that is neither a string nor `None` (`{"is_edit": true, "edit_type": 3}`) fails validation. */
  lemma MistypedEditTypeFailsEdit(d: map<string, Value>)
    requires "edit_type" in d && !d["edit_type"].Null? && !d["edit_type"].Str?
    ensures EditFromFields(FillEdit(d)).None?
  {
    assert FillEdit(d)["edit_type"] == d["edit_type"];
  }

  /** The validation step of `analyze_edit_request`, with the same shape as `CompleteTask`. */
  method CompleteEdit(data: Value) returns (r: EditRequest)
    ensures !data.Obj? ==> r == NoEdit()
    ensures r.isEdit ==> data.Obj? && "is_edit" in data.fields && data.fields["is_edit"] == Bool(true)
    ensures data.Obj? && EditFromFields(data.fields).Some? ==> r == EditFromFields(data.fields).value
    ensures data.Obj? && EditFromFields(FillEdit(data.fields)).Some? ==> r == EditFromFields(FillEdit(data.fields)).value
    ensures data.Obj? && EditFromFields(FillEdit(data.fields)).None? ==> r == NoEdit()
  {
    if !data.Obj? {
      return NoEdit();
    }
    var m := data.fields;
    m := SetDefault(m, "is_edit", Bool(false));
    m := SetDefault(m, "edit_type", Null);
    m := SetDefault(m, "new_value", Null);
    m := SetDefault(m, "event_reference", Null);
    m := SetDefault(m, "extracted_info", Obj(map[]));
    var e := EditFromFields(m);
    if e.Some? {
      r := e.value;
    } else {
      r := NoEdit();
    }
    if EditFromFields(data.fields).Some? {
      EditDefaultsAgree(data.fields);
    }
  }

  /** `analyze_edit_request` after the request. */
  method AnalyzeEdit(reply: Option<string>, decode: string -> Option<Value>) returns (r: EditRequest)
    ensures reply.None? ==> r == NoEdit()
    ensures var data := SafeJsonParse(reply, Obj(EditFallback()), decode);
      (!data.Obj? ==> r == NoEdit())
      && (r.isEdit ==> data.Obj? && "is_edit" in data.fields && data.fields["is_edit"] == Bool(true))
      && (data.Obj? && EditFromFields(data.fields).Some? ==> r == EditFromFields(data.fields).value)
      && (data.Obj? && EditFromFields(FillEdit(data.fields)).Some? ==> r == EditFromFields(FillEdit(data.fields)).value)
      && (data.Obj? && EditFromFields(FillEdit(data.fields)).None? ==> r == NoEdit())
  {
    var data := SafeJsonParse(reply, Obj(EditFallback()), decode);
    r := CompleteEdit(data);
  }

  function QueryFallback(): map<string, Value> {
    map["is_query" := Bool(false), "query_type" := Null, "date_range" := Null]
  }

  /**
   * The defaulting step of `analyze_query_message`: the object with each of
   * the three keys it lacks set to its default; anything but an object gives
   * the defaults alone.
   */
  method CompleteQuery(data: Value) returns (r: map<string, Value>)
    ensures "is_query" in r && "query_type" in r && "date_range" in r
    ensures data.Obj? ==> r.Keys == data.fields.Keys + QueryFallback().Keys
    ensures data.Obj? ==> forall k :: k in r ==> r[k] == (if k in data.fields then data.fields[k] else QueryFallback()[k])
    ensures !data.Obj? ==> r == QueryFallback()
  {
    if !data.Obj? {
      return QueryFallback();
    }
    r := data.fields;
    r := SetDefault(r, "is_query", Bool(false));
    r := SetDefault(r, "query_type", Null);
    r := SetDefault(r, "date_range", Null);
  }

  /** `analyze_query_message` after the request. */
  method AnalyzeQuery(reply: Option<string>, decode: string -> Option<Value>) returns (r: map<string, Value>)
    ensures reply.None? ==> r == QueryFallback()
    ensures var data := SafeJsonParse(reply, Obj(QueryFallback()), decode);
      "is_query" in r && "query_type" in r && "date_range" in r
      && (data.Obj? ==> r.Keys == data.fields.Keys + QueryFallback().Keys)
      && (data.Obj? ==> forall k :: k in r ==> r[k] == (if k in data.fields then data.fields[k] else QueryFallback()[k]))
      && (!data.Obj? ==> r == QueryFallback())
  {
    var data := SafeJsonParse(reply, Obj(QueryFallback()), decode);
    r := CompleteQuery(data);
    if reply.None? {
      assert r.Keys == QueryFallback().Keys;
    }
  }

  /**
   * `generate_follow_up_question`: a template quoting the task's title (by
   * default "your task") for a date, time or duration, and a generic request
   * for any other field.
   */
  function FollowUpQuestion(field: string, taskData: map<string, Value>): (r: string)
    ensures var title := Render(Get(taskData, "title", Str("your task")));
      (field == "date" ==> StartsWith(r, "What date would you like to schedule '" + title + "'"))
      && (field == "time" ==> StartsWith(r, "What time works best for '" + title + "'"))
      && (field == "duration" ==> StartsWith(r, "How long should I block for '" + title + "'"))
      && (field !in {"date", "time", "duration"} ==> r == "Could you provide more details about " + field + "?")
  {
    var title := Render(Get(taskData, "title", Str("your task")));
    if field == "date" then DateQuestion(title)
    else if field == "time" then TimeQuestion(title)
    else if field == "duration" then DurationQuestion(title)
    else "Could you provide more details about " + field + "?"
  }

  function DateQuestion(title: string): (r: string)
    ensures StartsWith(r, "What date would you like to schedule '" + title + "'")
  {
    Quoted("What date would you like to schedule '", title, "? You can say something like 'tomorrow', 'next Friday', or a specific date.")
  }

  function TimeQuestion(title: string): (r: string)
    ensures StartsWith(r, "What time works best for '" + title + "'")
  {
    Quoted("What time works best for '", title, "? You can specify like '3pm', '15:00', or 'morning'.")
  }

  function DurationQuestion(title: string): (r: string)
    ensures StartsWith(r, "How long should I block for '" + title + "'")
  {
    Quoted("How long should I block for '", title, "? For example, '1 hour' or '30 minutes'.")
  }

  /** `f"{head}{title}'{tail}"`. */
  function Quoted(head: string, title: string, tail: string): (r: string)
    ensures StartsWith(r, head + title + "'")
  {
    var p := head + title + "'";
    assert (p + tail)[..|p|] == p;
    p + tail
  }

  /** The line describing the `i`-th recent event. */
  function ContextLine(i: nat, e: StoredEvent): string {
    NatToString(i + 1) + ". '" + Render(e.title) + "' on " + Render(e.date) + " at " + Render(e.time) + "\n"
  }

  /** One line for each of the first three recent events, numbered from 1. */
  function ContextLines(events: seq<StoredEvent>): (r: seq<string>)
    ensures |r| == (if |events| < 3 then |events| else 3)
    ensures forall i :: 0 <= i < |r| ==> r[i] == ContextLine(i, events[i])
  {
    var n := if |events| < 3 then |events| else 3;
    seq(n, i requires 0 <= i < n => ContextLine(i, events[i]))
  }

  /** The recent-events part of the edit analysis prompt. */
  function ContextText(events: seq<StoredEvent>): string {
    if events == [] then "" else "\nRecent events:\n" + Concat(ContextLines(events))
  }

  /** Events beyond the third never reach the prompt. */
  lemma ContextShowsFirstThree(events: seq<StoredEvent>, older: seq<StoredEvent>)
    requires |events| >= 3
    ensures ContextText(events + older) == ContextText(events)
  {
    assert ContextLines(events + older) == ContextLines(events);
  }

  /** The context builder of `analyze_edit_request`: a numbered line per event of the first three. */
  method EditContext(events: seq<StoredEvent>) returns (context: string)
    ensures context == ContextText(events)
  {
    context := "";
    if events != [] {
      var header := "\nRecent events:\n";
      context := header;
      var shown := PyPrefix(events, 3);
      ghost var lines := ContextLines(events);
      for i := 0 to |shown|
        invariant context == header + Concat(lines[..i])
      {
        assert shown[i] == events[i];
        assert Concat([lines[i]]) == lines[i];
        ConcatAppend(lines[..i], [lines[i]]);
        assert lines[..i + 1] == lines[..i] + [lines[i]];
        assert lines[i] == ContextLine(i, shown[i]);
        ghost var done := Concat(lines[..i]);
        Associate(header, done, lines[i]);
        context := context + ContextLine(i, shown[i]);
      }
      assert lines[..|shown|] == lines;
    }
  }
}
