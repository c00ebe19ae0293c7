# WhatsApp calendar bot: a verified model of its conversation core

The bot reads WhatsApp messages and turns them into Google Calendar events.
For each user, identified by phone number, it keeps a conversation session:
a state, the task data collected so far, and the ten most recent events it
created. A message goes through checks in this order:

1. the global commands (cancel, help);
2. the handler of the user's state:
   - in IDLE: a calendar query, else an edit of a recent event, else a new task;
   - the slot-filling states, which collect title, date and time;
   - the confirmation;
   - the choice of the event an edit is about.

The calendar service reads free-form date, time and duration phrases. The
language-model service recovers a JSON object from a model's reply. The
messaging service prefixes, truncates, retries and splits outbound messages.

This Dafny project models that core, one module per source file:

| module | models |
|---|---|
| `Schemas` | `models/schemas.py`: the state enumeration, the session, the stored event, the edit request and the task analysis, over a JSON-like `Value` with Python truthiness |
| `Conversation` | `models/conversation.py`: a `ConversationManager` class over `map<string, Session>` and `map<string, seq<StoredEvent>>`, whose methods update those maps in place |
| `Webhook` | `routers/webhook.py`: a `RateLimiter` class for the sliding-window throttle, one step function and one method per handler, and `process_message` as `Turn`/`ProcessMessage` |
| `Replies` | the wording of the replies `routers/webhook.py` builds itself |
| `DateParse`, `DateParseFacts` | `parse_datetime_string`, `_parse_date_string` and `_parse_time_string` of `services/calendar_service.py`, with a deterministic model of `strptime` over their format lists |
| `Calendar` | the rest of `services/calendar_service.py`: duration normalisation, the event body of `create_event`, the merge rules of `update_event`, both confirmation formatters, and the window and reply of `list_events` |
| `Helpers` | the eight functions of `utils/helpers.py` |
| `LanguageModel` | the retry policy, `_safe_json_parse`, the default-filling and the follow-up templates of `services/openai_service.py` |
| `Messaging` | the prefix, truncation, retry and chunking policy of `services/twilio_service.py` |
| `Civil`, `Text`, `Wrappers` | the Python semantics the rest relies on: proleptic Gregorian dates with day numbers and weekdays, `str.lower`/`strip`/`split`/`find`, `int()` on text, and `Option`/`Result` |

## Modelling choices

- **Collaborators are parameters.** The language model, the calendar service
  and the messaging service are never called. What they answer in a turn is
  a `Webhook.Services` value, or an explicit parameter of a method:
  - the query, edit and task analyses;
  - the parsed reply and the confirmation modifications;
  - `list_events`, `create_event` and `update_event` as functions.

  Attempt outcomes of the retry loops are sequences. `json.loads` is an
  uninterpreted partial function `decode`.
- **Time.** "Now" is a parameter: a civil `Date` for the date readers, and an
  integer clock for session stamps and rate-limit timestamps. A `DateTime` is
  a date and a minute of the day. Seconds and timezones are not modelled.
- **Exceptions.** An exception that the source catches further up is a
  `Result.Raised` value. It is propagated exactly as far as the source lets
  it go. Examples:
  - `datetime.time(h, m)` raises `TypeError`, so the time reader raises;
  - `int("pm")` raises in `parse_relative_time`;
  - `.lower()` of a non-string raises in edit-target resolution.
- **Python values.** A `Value` is `Null`, `Bool`, `Int`, `Str`, `Arr` or `Obj`.
  Dictionaries whose iteration order matters are ordered sequences of pairs:
  - the weekday table;
  - the time-phrase table;
  - the format lists.

  `strptime` is modelled only for the directives of those lists.

### Where the code and its description differ

The model follows the code in each of these cases:

- A weekday name is always one to seven days ahead. "Friday" on a Friday is a
  week ahead, and "next" changes nothing (`DateParseFacts.WeekdayAhead`).
- "next month" contains "mon", so it gives the coming Monday and never the
  date 30 days ahead (`DateParseFacts.NextMonthIsWeekday`). A `list_events`
  range that names a month lists that one day (`Calendar.MonthRangeIsOneDay`).
- An ordinal day that has already passed this month moves to the same day of
  the next month, not to the first (`DateParse.OrdinalDate`).
- A parsed year of 1900 is replaced by the current year, even when it was
  written out. So `DateParseFacts.DateFromIso` excludes 1900.
- The time table matches by substring in insertion order:
  - "afternoon" reads as 12:00 and "midnight" as 21:00;
  - "early morning" reads as 09:00.
- Three branches of `_parse_time_string` call `datetime.time(h, m)` and raise.
  So "6 in the morning" and "930" make `parse_datetime_string` return `None`.
- In `parse_relative_time`, "3pm" raises `ValueError` instead of giving 15:00
  (`Helpers.MeridiemRaises`).
- AWAITING_DURATION is never entered (`Webhook.DurationNeverEntered`).
- The `multiple` branch of `apply_event_edit` never yields an update
  (`Webhook.MultipleBranchEmpty`).

## Model

| member | source | states |
|---|---|---|
| `Schemas.AllStates` | models/schemas.py:6-17 | the enumeration lists eleven members with pairwise distinct values |
| `Schemas.StatesEnumerated` | models/schemas.py:6-17 | every conversation state is one of the eleven listed |
| `Schemas.StateFromName` | models/schemas.py:6-17 | `ConversationState(name)` yields only a member whose value is `name` |
| `Schemas.StateNameRoundTrip` | models/schemas.py:6-17 | every member is found again from its value |
| `Schemas.MakeStoredEvent` | models/schemas.py:57-64 | construction succeeds exactly when the five required fields are strings and `calendar_url` is a string or `None`; the record holds the given fields and the creation stamp |
| `Schemas.AttrDefinedOnFields` | models/schemas.py:57-64 | `Attr` is defined exactly on the seven declared fields |
| `Schemas.SetAttrFrame` | models/schemas.py:57-64 | an assigned field reads back the new value and every other field keeps its value |
| `Schemas.EditFromFields` | models/schemas.py:66-71 | a validated edit request takes `is_edit` from a boolean `is_edit` entry |
| `Schemas.EditRoundTrip` | models/schemas.py:66-71 | validating `edit_request.dict()` gives the same request back |
| `Schemas.EditDefaults` | models/schemas.py:66-71 | only `is_edit` is required; the other fields default to `None` and `{}` |
| `Schemas.TaskFromFields` | models/schemas.py:48-51 | a validated analysis takes `is_task` from a boolean entry, with `[]` and `{}` for missing questions and info |
| `Schemas.TaskRoundTrip` | models/schemas.py:48-51 | validating the dump of a task analysis gives it back |
| `Conversation.GetSessionCreatesOnlyWhenAbsent` | models/conversation.py:14-24 | `get_session` leaves the store alone for a known user and adds a fresh IDLE session with empty task data only for an unknown one |
| `Conversation.ClearThenGet` | models/conversation.py:43-52 | after `clear_session` the next `get_session` yields IDLE with `{}`, and an unknown user stays absent |
| `Conversation.UpdateTaskDataChangesOneKey` | models/conversation.py:32-36 | `update_task_data` sets one key of one session and keeps its state and every other session |
| `Conversation.UpdateStateChangesOnlyState` | models/conversation.py:26-30 | `update_session_state` changes only the state (and stamp) of one session |
| `Conversation.WithTasksStep` | models/conversation.py:32-36 | storing entries one call at a time adds up to storing them all |
| `Conversation.MissingFrom` | models/conversation.py:61-71 | a field is listed exactly when it is required and absent or falsy |
| `Conversation.MissingFieldsOrder` | models/conversation.py:61-71 | the missing list has at most three fields and starts with the first of title, date, time not yet collected |
| `Conversation.CompleteIffNoMissing` | models/conversation.py:54-59 | a task is complete exactly when no field is missing |
| `Conversation.Recent` | models/conversation.py:98-103 | the recent events are the first `limit` stored events in order, none for an unknown user; callers pass the default `RecentLimit` of 5 |
| `Conversation.EventAt` | models/conversation.py:105-110 | an index gives an event exactly when it is inside the five-event prefix, and then the event at that index |
| `Conversation.Pushed` | models/conversation.py:86-96 | the new event comes first, then the previous ones in order, for a length of min(old + 1, 10) |
| `Conversation.IdIndex` | models/conversation.py:112-120 | the index found is the first event with the id; none means no event has it |
| `Conversation.Updated` | models/conversation.py:122-134 | each declared field takes its value from `updates` when named there and keeps it otherwise |
| `Conversation.SetAttrUpdated` | models/conversation.py:126-129 | one more assignment extends the assignments already made |
| `Conversation.TitleIndex` | models/conversation.py:136-145 | the first event whose lowercased title contains the query, every earlier one not matching; it raises only at a non-string title that comes before any match |
| `Conversation.SearchTitle` | models/conversation.py:136-145 | the search loop finds what `TitleIndex` specifies |
| `Conversation.AssignFields` | models/conversation.py:126-129 | the `setattr` loop leaves the event `Updated` specifies |
| `Conversation.ConversationManager.constructor` | models/conversation.py:8-12 | a new manager has no sessions and no events |
| `Conversation.ConversationManager.GetSession` | models/conversation.py:14-24 | returns the stored or fresh session and stores it; the event lists are unchanged |
| `Conversation.ConversationManager.UpdateSessionState` | models/conversation.py:26-30 | the sessions become `WithState` of the old ones; events unchanged |
| `Conversation.ConversationManager.UpdateTaskData` | models/conversation.py:32-36 | the user's task data gains the key; events unchanged |
| `Conversation.ConversationManager.GetTaskData` | models/conversation.py:38-41 | returns the task data of the session `get_session` yields |
| `Conversation.ConversationManager.ClearSession` | models/conversation.py:43-52 | a known user is reset to a fresh session; an unknown one stays absent |
| `Conversation.ConversationManager.IsTaskComplete` | models/conversation.py:54-59 | true exactly when title, date and time are all truthy |
| `Conversation.ConversationManager.GetMissingFields` | models/conversation.py:61-71 | the append loop returns the missing fields in order |
| `Conversation.ConversationManager.CleanupOldSessions` | models/conversation.py:73-84 | exactly the sessions last updated more than the given hours ago are deleted; the default is `DefaultMaxAgeHours`, 24 |
| `Conversation.ConversationManager.StoreEvent` | models/conversation.py:86-96 | the user's list becomes the new event followed by at most nine older ones; sessions unchanged |
| `Conversation.ConversationManager.GetEventById` | models/conversation.py:112-120 | returns the first stored event with the id, or none when no event has it |
| `Conversation.ConversationManager.UpdateStoredEvent` | models/conversation.py:122-134 | true exactly when an event has the id; only that first event's declared fields change |
| `Conversation.ConversationManager.FindEventByTitlePartial` | models/conversation.py:136-145 | the first of all stored events whose lowercased title contains the lowercased text |
| `Webhook.InWindow` | routers/webhook.py:116-120 | the kept timestamps are no more than the old ones |
| `Webhook.InWindowExactly` | routers/webhook.py:116-120 | a timestamp is kept exactly when it is less than the window old |
| `Webhook.AdmitBounded` | routers/webhook.py:109-128 | a list within the limit stays within it; a passed request is recorded last; a refusal means the limit was reached |
| `Webhook.InWindowKeepsRecent` | routers/webhook.py:116-120 | timestamps all inside the window are all kept |
| `Webhook.Replay` | routers/webhook.py:109-128 | a run of requests gets one answer per request |
| `Webhook.BurstRecorded` | routers/webhook.py:109-128 | within a burst shorter than the window, the first `max` requests all pass and are all recorded |
| `Webhook.BurstFront` | routers/webhook.py:116-120 | a burst without its last request is a burst inside that request's window |
| `Webhook.EleventhRejected` | routers/webhook.py:109-128 | with the defaults, ten requests inside a minute pass and the eleventh is refused |
| `Webhook.RateLimiter.constructor` | routers/webhook.py:107 | the cache starts empty |
| `Webhook.RateLimiter.CheckRateLimit` | routers/webhook.py:109-128 | the answer and the user's new list are those of `Admit`; other users are untouched; the length bound is preserved |
| `Webhook.TruthyPart` | routers/webhook.py:200-202 | the stored entries are exactly the truthy ones whose key is not skipped, with their values |
| `Webhook.Target` | routers/webhook.py:433-447 | "last" in the reference or the message picks the newest event; otherwise the first title match of the identifier; otherwise the only event; no target means at least two events and no match; it raises only at an unreadable identifier or title |
| `Webhook.AfterUpdateKeepsLength` | models/conversation.py:122-134 | updating a stored event keeps the list's length |
| `Webhook.WithTasksThen` | routers/webhook.py:200-214 | after storing entries the session is the merged one, and replacing it forgets the merge |
| `Webhook.TaskDataStored` | routers/webhook.py:258-268 | one `update_task_data` call sets one key of the user's session |
| `Webhook.StoreTruthy` | routers/webhook.py:200-202 | the storing loop merges exactly the truthy, non-skipped entries; events unchanged |
| `Webhook.ConfirmationReply` | routers/webhook.py:358-374 | the confirmation shows the task data `get_session` yields |
| `Webhook.AskForMissingInfo` | routers/webhook.py:339-356 | date, time and duration move to their question state; another field is asked about in place |
| `Webhook.Advance` | routers/webhook.py:204-214 | the session and reply become those of the missing-field rule; events unchanged |
| `Webhook.UpdatesFor` | routers/webhook.py:483-504 | the `elif` chain computes `EditUpdates` |
| `Webhook.MultipleLoop` | routers/webhook.py:501-504 | the loop over the four `new_` keys computes `MultipleUpdates` |
| `Webhook.ApplyEventEdit` | routers/webhook.py:478-523 | the new store and the reply are those of `ApplyStep` |
| `Webhook.ShowEventSelection` | routers/webhook.py:462-476 | the edit is saved as `pending_edit` in SELECTING_EVENT and at most five choices are offered; events unchanged |
| `Webhook.HandleEditRequest` | routers/webhook.py:417-458 | the new store and the reply are those of `EditStep`, whose cases `EditWithoutEvents`, `EditTargetsLast`, `EditTargetsTitle` and `EditTargetsOnly` state |
| `Webhook.EditWithoutEvents` | routers/webhook.py:420-425 | without recent events nothing changes and the reply says there is nothing to edit |
| `Webhook.EditTargetsLast` | routers/webhook.py:434-436 | "last" applies the edit to the newest event |
| `Webhook.EditTargetsTitle` | routers/webhook.py:437-443 | otherwise the first recent event whose title contains the identifier is edited |
| `Webhook.EditTargetsOnly` | routers/webhook.py:446-447 | a user with one recent event has that event edited, unless a non-string title makes the search raise |
| `Webhook.HandleIdle` | routers/webhook.py:175-231 | the new store and the reply are those of `IdleStep` |
| `Webhook.HandleTaskDetected` | routers/webhook.py:233-256 | the new store and the reply are those of `TaskDetectedStep` |
| `Webhook.HandleAwaiting` | routers/webhook.py:258-280 | the new store and the reply are those of `AwaitingStep` |
| `Webhook.HandleAwaitingDuration` | routers/webhook.py:282-286 | the new store and the reply are those of `DurationStep` |
| `Webhook.HandleConfirming` | routers/webhook.py:288-337 | the new store and the reply are those of `ConfirmStep` |
| `Webhook.HandleSelectingEvent` | routers/webhook.py:376-415 | the new store and the reply are those of `SelectStep`, whose re-prompts `SelectionRepromptsOnText` and `SelectionRepromptsOutOfRange` state |
| `Webhook.PendingMeansStored` | routers/webhook.py:380-386 | a pending edit is only found in a stored session, so writing that session back changes nothing |
| `Webhook.SelectionRepromptsOnText` | routers/webhook.py:388-392 | an answer that is not a number keeps the session and asks for a number |
| `Webhook.SelectionRepromptsOutOfRange` | routers/webhook.py:394-398 | a number outside 1 to the count of recent events keeps the session and names the range |
| `Webhook.ApplySelection` | routers/webhook.py:394-410 | the new store and the reply are those of `ChosenStep` |
| `Webhook.ProcessMessage` | routers/webhook.py:130-173 | the new store and the reply are those of `Turn` |
| `Webhook.DispatchMessage` | routers/webhook.py:143-168 | the new store and the reply are those of `Dispatch` |
| `Webhook.GlobalGuards` | routers/webhook.py:135-168 | in every state a cancel word clears the session, a help word changes nothing, and a state without a handler resets the session |
| `Webhook.CancelInConfirming` | routers/webhook.py:135-137 | "cancel" is also a no-word, but the cancel reply wins over the "No problem" reply |
| `Webhook.QueryChangesNothing` | routers/webhook.py:179-182 | a positive query changes nothing and replies with the listing of `date_range` |
| `Webhook.AdvancedRule` | routers/webhook.py:204-214 | nothing missing leads to CONFIRMING; a missing title is asked in place; a missing date or time moves to its question state; the task data is kept |
| `Webhook.AdvancedAvoidsDuration` | routers/webhook.py:339-356 | the missing-field rule never enters AWAITING_DURATION |
| `Webhook.AwaitingStoresAnswer` | routers/webhook.py:258-280 | the stripped answer is stored as the field, and a non-blank answer is no longer missing |
| `Webhook.DurationConfirms` | routers/webhook.py:282-286 | AWAITING_DURATION always moves to CONFIRMING with the stripped answer as duration |
| `Webhook.ConfirmRules` | routers/webhook.py:288-337 | a yes-word stores the created event first and resets the session; a no-word resets it; another reply keeps the state and re-renders the details |
| `Webhook.ApplyKeepsSessions` | routers/webhook.py:478-523 | applying an edit changes only the event lists |
| `Webhook.EditStepSession` | routers/webhook.py:417-476 | an edit request leaves the session alone or saves the edit in SELECTING_EVENT |
| `Webhook.IdleAvoidsDuration` | routers/webhook.py:175-231 | from IDLE the session never ends in AWAITING_DURATION |
| `Webhook.TaskDetectedAvoidsDuration` | routers/webhook.py:233-256 | from TASK_DETECTED the session never ends in AWAITING_DURATION |
| `Webhook.AwaitingAvoidsDuration` | routers/webhook.py:258-280 | answering a date or time question never ends in AWAITING_DURATION |
| `Webhook.ChosenAvoidsDuration` | routers/webhook.py:394-410 | a chosen event never leaves the session in AWAITING_DURATION |
| `Webhook.SelectAvoidsDuration` | routers/webhook.py:376-415 | from SELECTING_EVENT the session never ends in AWAITING_DURATION |
| `Webhook.ConfirmAvoidsDuration` | routers/webhook.py:288-337 | from CONFIRMING the session never ends in AWAITING_DURATION |
| `Webhook.DispatchAvoidsDuration` | routers/webhook.py:143-168 | no handler of another state leaves the session in AWAITING_DURATION |
| `Webhook.DurationNeverEntered` | routers/webhook.py:130-173 | a turn from any state but AWAITING_DURATION never enters it |
| `Webhook.ClearedIdle` | models/conversation.py:43-52 | after `clear_session` the user's session is IDLE |
| `Webhook.MultipleFromNone` | routers/webhook.py:501-504 | with no truthy `new_` key the loop collects nothing |
| `Webhook.MultipleBranchEmpty` | routers/webhook.py:487-504 | an edit of type `multiple` yields no update exactly when no `new_` entry is truthy: the branch's loop is dead code |
| `Webhook.EditUpdatesAtMostOne` | routers/webhook.py:487-504 | at most one update, chosen in priority title, time, duration, date by the edit type or a truthy `new_` entry |
| `Webhook.ApplyRules` | routers/webhook.py:506-523 | no updates or a failed calendar update change nothing; a success updates the first stored event with the id and reports its title after the update |
| `Webhook.EditStepChoosing` | routers/webhook.py:449-451 | an edit that lists choices has saved the edit and moved to SELECTING_EVENT |
| `Webhook.ApplyIgnoresSessions` | routers/webhook.py:478-523 | applying an edit reads only the event lists |
| `Webhook.SelectionResumesEdit` | routers/webhook.py:376-410 | after a listed choice, an in-range number applies the saved edit to that event, as if it had been the target |
| `Webhook.SelectionResetsSession` | routers/webhook.py:407-408 | after the saved edit is applied the user's session is a fresh IDLE one |
| `Webhook.ResumedWorld` | routers/webhook.py:403-410 | the saved edit is applied with the events as they were and the session reset |
| `Webhook.SelectingResumes` | routers/webhook.py:379-392 | a number answered with a pending edit continues with that edit |
| `Webhook.ChosenApplies` | routers/webhook.py:394-410 | an in-range number applies the rebuilt edit to that event after the reset |
| `Webhook.OfferedRangeAccepted` | routers/webhook.py:462-476 | the choices offered are the recent events, two to five of them, so every number offered is accepted |
| `Replies.ConfirmationPrompt` | routers/webhook.py:358-374 | the confirmation starts with its header, holds the task, date, time and duration lines with their defaults, and ends with the yes/no question |
| `Replies.ChoiceLines` | routers/webhook.py:471-472 | one line per choice, numbered from 1 |
| `Replies.SelectionPrompt` | routers/webhook.py:462-476 | the selection list starts with its question, holds one numbered line per event, and ends with the footer naming the count, which is the source's `min(len, 5)` because at most `RecentLimit` events are listed |
| `Calendar.DurationOfText` | services/calendar_service.py:278-289 | a duration string always means a positive number of minutes |
| `Calendar.DurationMinutes` | services/calendar_service.py:277-291 | `timedelta` accepts exactly strings, ints and bools; a string is read by `DurationOfText`, an int taken as it is |
| `Calendar.TokensSkip` | services/calendar_service.py:280 | text without digits contributes no number |
| `Calendar.TokensCons` | services/calendar_service.py:280 | a digit run followed by neither a digit nor a dot is one number |
| `Calendar.NoDigitsMeansHour` | services/calendar_service.py:288-289 | a string without digits means one hour |
| `Calendar.TokensOfPair` | services/calendar_service.py:280 | the numbers of "H unit M unit" are H and M |
| `Calendar.DurationOfPair` | services/calendar_service.py:281-287 | two numbers with both units give H * 60 + M, with 0 read as an hour |
| `Calendar.HoursAndMinutes` | services/calendar_service.py:277-291 | "H hour M minutes" means H * 60 + M minutes, with 0 read as 60 |
| `Calendar.MinutesOnly` | services/calendar_service.py:277-291 | "M minutes" means M, with 0 read as 60 |
| `Calendar.BareNumber` | services/calendar_service.py:277-291 | a bare number names no unit and means one hour, whatever it is |
| `Calendar.BodyAt` | services/calendar_service.py:294-316 | the body starts at the start, lasts the minutes, and carries title, description, location and the two reminders |
| `Calendar.EventBodyFor` | services/calendar_service.py:265-316 | a body is built exactly when the date, time and duration can be read, and then it is scheduled by them |
| `Calendar.CreateEvent` | services/calendar_service.py:259-339 | without a service nothing is sent; otherwise the body of `EventBodyFor` is sent, and the result holds `id` and `htmlLink` of the response exactly when there is one |
| `Calendar.MovedStart` | services/calendar_service.py:413-426 | a new start exists only for a timed event with a date or time update, and is valid |
| `Calendar.TimeOnlyMoveKeepsDay` | services/calendar_service.py:413-426 | a time-only update keeps the event's day, read back from its rendering |
| `Calendar.TimeOnlyMove` | services/calendar_service.py:421-425 | a time-only update pairs the new time with the current date's rendering |
| `Calendar.DateOnlyMoveKeepsTime` | services/calendar_service.py:413-426 | a date-only update keeps the event's time of day |
| `Calendar.MoveEvent` | services/calendar_service.py:413-445 | an unreadable or absent move leaves the event unchanged; a move keeps the length (an hour without an end) and the title |
| `Calendar.ApplyDuration` | services/calendar_service.py:448-474 | a duration update raises exactly for a value `timedelta` refuses; otherwise the end is start plus the minutes, or nothing changes |
| `Calendar.MergeUpdates` | services/calendar_service.py:405-474 | the merge raises exactly when the duration does, and otherwise satisfies every field rule |
| `Calendar.UpdateEvent` | services/calendar_service.py:392-491 | an event is sent exactly when the service, the fetched event and the duration allow it, merged by the rules; the link is the response's `htmlLink` |
| `Calendar.DurationTextRoundTrip` | services/calendar_service.py:349-358 | an int duration as the confirmations show it reads back as itself |
| `Calendar.ConfirmationMessage` | services/calendar_service.py:341-369 | the message starts with the title line, holds the date, time, duration and reminder lines with their defaults, and ends with the calendar link |
| `Calendar.UpdateLines` | services/calendar_service.py:497-517 | one line for each of title, date, time and duration present, in that order: the title line first, the date and time lines next with their values, the duration line last |
| `Calendar.UpdateConfirmationWithoutFields` | services/calendar_service.py:493-521 | without changed fields the message is the header and the link alone |
| `Calendar.UpdateConfirmation` | services/calendar_service.py:493-521 | the message starts with the header, holds one line per changed field, and ends with the link |
| `Calendar.Member` | services/calendar_service.py:540-542 | `w in v` is defined exactly for strings, lists and dicts |
| `Calendar.ListWindow` | services/calendar_service.py:529-553 | a window found runs between two valid dates |
| `Calendar.WeekBranch` | services/calendar_service.py:540-546 | a range naming a week takes the week branch |
| `Calendar.WeekOfShape` | services/calendar_service.py:541-546 | a week runs Monday to Sunday, starting this week or seven days later |
| `Calendar.WeekWindow` | services/calendar_service.py:540-546 | a range naming a week lists Monday to Sunday of this week, or of the next one when it says "next" |
| `Calendar.DayWindow` | services/calendar_service.py:547-553 | any other range lists the single day the date reader gives, or is not understood |
| `Calendar.MonthRangeIsOneDay` | services/calendar_service.py:547-553 | a range naming a month lists a single day one to seven days ahead |
| `Calendar.MonthContainsMon` | services/calendar_service.py:99-106 | "month" contains the weekday abbreviation "mon" |
| `Calendar.Clock12` | services/calendar_service.py:574 | `%I:%M %p`: two digits of the hour from 12 through 11, a colon, two digits of the minute, and AM before noon or PM after |
| `Calendar.Clock12ReadBack` | services/calendar_service.py:574 | the 12-hour rendering reads back as its minute of the day |
| `Calendar.EventLines` | services/calendar_service.py:571-574 | one line per listed event, with its summary and start |
| `Calendar.ListReply` | services/calendar_service.py:523-583 | no service gives the can't-access reply; it raises exactly when the window computation raises; a date that is not understood gives its own reply; otherwise the reply is `FetchedReply` of the list call's outcome |
| `Calendar.FetchedReply` | services/calendar_service.py:556-583 | an `HttpError` gives the fetch-error reply and any other exception the unexpected-error reply; no items give the no-events reply; an item without a summary gives the unexpected-error reply; otherwise the reply opens with the header and holds each event's line |
| `DateParse.MonthNameAt` | services/calendar_service.py:128-135 | a month read is a name of the table occurring at the position |
| `DateParse.NumberStep` | services/calendar_service.py:138-146 | a numeric directive consumes at least one character |
| `DateParse.Step` | services/calendar_service.py:138-146 | every directive consumes at least one character |
| `DateParse.StrptimeDate` | services/calendar_service.py:140 | a parsed date is a valid date in year 1 or later |
| `DateParse.DateFormats` | services/calendar_service.py:122-136 | there are thirteen date formats |
| `DateParse.FirstDateFormat` | services/calendar_service.py:138-146 | the first matching format gives a valid date |
| `DateParse.WeekdayIn` | services/calendar_service.py:99-106 | the first weekday key found gives a weekday |
| `DateParse.OrdinalDate` | services/calendar_service.py:150-164 | an ordinal day gives that day, never before today, and this month's day when it is not past |
| `DateParse.FindOrdinal` | services/calendar_service.py:150 | an ordinal number has at most two digits |
| `DateParse.WithDefaultYear` | services/calendar_service.py:142-143 | year 1900 becomes today's year; month and day are kept |
| `DateParse.DateFromText` | services/calendar_service.py:86-166 | every date the chain gives is valid |
| `DateParse.ParseDateString` | services/calendar_service.py:84-166 | every date `_parse_date_string` gives is valid |
| `DateParse.TimeFormats` | services/calendar_service.py:210-218 | there are seven time formats |
| `DateParse.ParseDateTime` | services/calendar_service.py:49-82 | a result exists exactly when both parts are strings and both readers succeed, and combines their answers |
| `DateParse.IsoDate` | services/calendar_service.py:421 | a four-digit year renders as ten characters |
| `DateParse.ClockText` | services/calendar_service.py:422 | `%H:%M` is five characters |
| `DateParseFacts.FirstFormatOfIso` | services/calendar_service.py:122-146 | the first format reads an ISO date back |
| `DateParseFacts.LetterlessDate` | services/calendar_service.py:86-146 | text without letters skips every phrase and is read by the formats |
| `DateParseFacts.DateFromIso` | services/calendar_service.py:84-146 | the date reader reads back the `%Y-%m-%d` rendering of any date but one in 1900 |
| `DateParseFacts.DateStringOfIso` | services/calendar_service.py:84-146 | `_parse_date_string` reads back the `%Y-%m-%d` rendering of any date with a four-digit year other than 1900 |
| `DateParseFacts.TimeFromClock` | services/calendar_service.py:168-224 | the time reader reads back the `%H:%M` rendering of any minute of the day |
| `DateParseFacts.TimeStringOfClock` | services/calendar_service.py:168-224 | `_parse_time_string` reads back the `%H:%M` rendering of any minute of the day |
| `DateParseFacts.ParseDateTimeRoundTrip` | services/calendar_service.py:421-425 | the date and time `update_event` fills in read back as the current start |
| `DateParseFacts.ParseDateTimeOfParts` | services/calendar_service.py:57-69 | when both readers succeed the result combines their answers |
| `DateParseFacts.WeekdayAhead` | services/calendar_service.py:99-113 | a weekday name lands on that weekday one to seven days ahead, a week ahead on the same weekday, with or without "next" |
| `DateParseFacts.NextMonthIsWeekday` | services/calendar_service.py:99-119 | "next month" gives a day one to seven days ahead, never the date thirty days ahead |
| `DateParseFacts.YearFirstNeedsFourDigits` | services/calendar_service.py:123 | `%Y-%m-%d` needs four digits first |
| `DateParseFacts.SlashDateIsDayFirst` | services/calendar_service.py:122-146 | a slash date is read day first whenever it can be |
| `DateParseFacts.SlashDateMonthFirst` | services/calendar_service.py:122-146 | a month-first slash date is understood only when its day is above 12 |
| `DateParseFacts.FirstFormatOfDayFirst` | services/calendar_service.py:122-146 | the format list reads "DD/MM/YYYY" as that day and month |
| `DateParseFacts.FirstFormatOfMonthFirst` | services/calendar_service.py:122-146 | "MM/DD/YYYY" is read as that date when its day is above 12 |
| `DateParseFacts.MeridiemTime` | services/calendar_service.py:210-224 | "3pm", "12am" and "12pm" are read through `%I%p` into the 24-hour clock |
| `DateParseFacts.MeridiemFormat` | services/calendar_service.py:210-224 | an hour 1-12 followed by "am" or "pm" is read on the hour in the 24-hour clock by the first matching format |
| `DateParseFacts.MeridiemHit` | services/calendar_service.py:216 | `%I%p` reads an hour 1-12 with "am" or "pm" on the hour in the 24-hour clock |
| `DateParseFacts.HourOfMeridiem` | services/calendar_service.py:213-216 | 12am is hour 0, 12pm is 12, and pm adds twelve to other hours |
| `DateParseFacts.ClockFormatFails` | services/calendar_service.py:211-215 | the first five formats fail on an hour followed by "am" or "pm" |
| `DateParseFacts.TimeOfFormat` | services/calendar_service.py:205-224 | text with no period phrase and no named time is read by the first matching format |
| `DateParseFacts.PhraseWithoutDigits` | services/calendar_service.py:190-207 | text without digits that names a time phrase gets that phrase's time |
| `DateParseFacts.AfternoonMeansNoon` | services/calendar_service.py:190-207 | "afternoon" reads as 12:00 because "noon" comes first |
| `DateParseFacts.MidnightMeansNight` | services/calendar_service.py:190-207 | "midnight" reads as 21:00 because "night" comes first |
| `DateParseFacts.EarlyMorningMeansMorning` | services/calendar_service.py:190-207 | "early morning" reads as 09:00 |
| `DateParseFacts.LongRunNoTimeFormat` | services/calendar_service.py:210-224 | three or more digits match no time format |
| `DateParseFacts.BareDigitsRaise` | services/calendar_service.py:245-255 | three or four bare digits reach the branch that raises |
| `DateParseFacts.PeriodPhraseRaises` | services/calendar_service.py:174-187 | an hour before "morning", "afternoon" or "evening" reaches the branch that raises |
| `DateParseFacts.SixInTheMorningRaises` | services/calendar_service.py:174-187 | "6 in the morning" raises |
| `DateParseFacts.DottedTime` | services/calendar_service.py:210-212 | "HH.MM" is read by the second format |
| `DateParseFacts.ScanKeepsYear` | services/calendar_service.py:132-135 | a format without `%Y` leaves the year at its default |
| `DateParseFacts.YearlessFormats` | services/calendar_service.py:132-143 | the year-less formats give 1900, which becomes today's year |
| `DateParseFacts.RelativeDays` | services/calendar_service.py:89-96 | "today", "tomorrow", "day after tomorrow" and "yesterday" are 0, 1, 2 and -1 days from today |
| `DateParseFacts.TimeInRange` | services/calendar_service.py:168-257 | every time the reader returns is a time of day |
| `DateParseFacts.ParseDateTimeValid` | services/calendar_service.py:49-82 | `parse_datetime_string` yields a valid date-time |
| `Helpers.FormatDuration` | utils/helpers.py:84-96 | every rendered duration reads back as its minutes |
| `Helpers.RoundTripOfHours` | utils/helpers.py:93-94 | a whole number of hours renders as "Hh" and reads back |
| `Helpers.RoundTripOfMixed` | utils/helpers.py:95-96 | hours and minutes render as "Hh Mm" and read back |
| `Helpers.RelativeTimeTable` | utils/helpers.py:45-52 | every table entry is a time of day |
| `Helpers.ParseRelativeTime` | utils/helpers.py:79-80 | every time returned passes the final range check: a time of day |
| `Helpers.ParseTimeText` | utils/helpers.py:79-80 | every time the pattern chain returns passes the final range check |
| `Helpers.RelativeTimeOfWord` | utils/helpers.py:43-55 | each of the six table words, in any case and with surrounding whitespace, gives its table time |
| `Helpers.NightIsEight` | utils/helpers.py:43-55 | " Night " gives 20:00 |
| `Helpers.ParseRelativeTimeOfMeridiemClock` | utils/helpers.py:60-80 | "H:MM", optional spaces and "am" or "pm" is read on the 12-hour clock: 12am is hour 0, 12pm is hour 12, another pm hour gains 12 |
| `Helpers.ParseRelativeTimeOfHour` | utils/helpers.py:62-80 | a bare hour of one or two digits up to 23 gives that hour, minute 0 |
| `Helpers.ParseRelativeTimeOutOfRange` | utils/helpers.py:60-82 | a colon time whose hour is over 23 or whose minute is over 59 gives nothing |
| `Helpers.TwentyFiveOClock` | utils/helpers.py:60-82 | "25:00" gives nothing |
| `Helpers.ParseRelativeTimeOfClock` | utils/helpers.py:59-80 | a 24-hour "H:MM" or "HH:MM" reading is read back exactly |
| `Helpers.MeridiemRaises` | utils/helpers.py:61-69 | a bare hour followed by "am" or "pm" raises |
| `Helpers.FullDayIndex` | utils/helpers.py:22-25 | a full day name gives a weekday |
| `Helpers.DaysAhead` | utils/helpers.py:29-33 | the next strictly later day with the weekday is one to seven days ahead |
| `Helpers.ParseRelativeDate` | utils/helpers.py:15-36 | every result is a valid date at midnight, as each `replace(hour=0, ...)` makes it |
| `Helpers.ParseDateText` | utils/helpers.py:15-36 | every date the cases give is a valid date at midnight |
| `Helpers.ParseRelativeDateCases` | utils/helpers.py:11-38 | "today" gives today at midnight and "tomorrow" the next day at midnight, in any case and with surrounding whitespace; the result is nothing exactly when the text is neither of them nor "next " and a full day name |
| `Helpers.ParseRelativeDateNextDay` | utils/helpers.py:20-36 | "next <day>" lands on that weekday one to seven days ahead |
| `Helpers.KeepPhoneChars` | utils/helpers.py:106 | only digits and '+' are kept, and clean text is unchanged |
| `Helpers.ExtractPhoneNumber` | utils/helpers.py:98-108 | the result holds only digits and '+' |
| `Helpers.KeepPhoneCharsOfChar` | utils/helpers.py:106 | one character is kept exactly when it is a digit or '+' |
| `Helpers.KeepPhoneCharsConcat` | utils/helpers.py:106 | filtering a concatenation is the concatenation of the filtered parts |
| `Helpers.ExtractPhoneNumberOfPrefixed` | utils/helpers.py:101-106 | the "whatsapp:" prefix is dropped before filtering |
| `Helpers.ExtractPhoneNumberOfUnprefixed` | utils/helpers.py:101-106 | a number without the prefix is only filtered |
| `Helpers.ExtractPhoneNumberIdempotent` | utils/helpers.py:98-108 | cleaning a clean number changes nothing |
| `Helpers.EmailShapeMeansPattern` | utils/helpers.py:117-119 | the split at the first '@' and last '.' accepts exactly what the anchored pattern accepts |
| `Helpers.ValidateCalendarIdMeansPattern` | utils/helpers.py:110-119 | an id is accepted exactly when it is "primary" or matches the e-mail pattern, optionally before one final newline as `$` allows |
| `Helpers.CalendarIdHasOneAt` | utils/helpers.py:110-119 | an accepted id other than "primary" holds exactly one '@' |
| `Helpers.CollapseSpaces` | utils/helpers.py:125 | whitespace runs become single spaces, a non-space first character is kept, and the ends stay blank exactly when they were |
| `Helpers.CollapseKeepsText` | utils/helpers.py:125 | collapsing keeps every non-space character, in order |
| `Helpers.CollapseWord` | utils/helpers.py:125 | a text without whitespace passes through collapsing unchanged |
| `Helpers.CollapseRun` | utils/helpers.py:125 | a whitespace run before the end or before a non-space character becomes one space |
| `Helpers.DropBracketPrefix` | utils/helpers.py:128 | when the text opens with "[" and a later "]" with no newline before it, the result is the suffix after that first "]" and the whitespace following it, opening with a non-space; otherwise the text is unchanged |
| `Helpers.SanitizeMessage` | utils/helpers.py:121-130 | the result has only single spaces as whitespace and no space at either end |
| `Helpers.SanitizeKeepsText` | utils/helpers.py:121-130 | the result keeps the message's non-space text, except that a leading "[...]" block, closed by the first "]", is removed |
| `Helpers.SanitizeWithoutBracket` | utils/helpers.py:121-130 | without a leading "[...]" block sanitising only collapses whitespace |
| `Helpers.GetNextBusinessDay` | utils/helpers.py:148-165 | the result is the first weekday one to three days later, at 09:00, in business hours |
| `LanguageModel.MakeApiCall` | services/openai_service.py:136-168 | no client means no attempt; otherwise one to three attempts, stopping at the first reply or authentication or rate-limit error |
| `LanguageModel.FencedBlock` | services/openai_service.py:180-185 | a block is cut exactly when the reply has a json fence |
| `LanguageModel.BracedSpan` | services/openai_service.py:190-194 | a span runs from a '{' to a '}' |
| `LanguageModel.SafeJsonParse` | services/openai_service.py:170-200 | the result is the fallback or the decoding of the reply, its fenced block or its braced span |
| `LanguageModel.FencedBlockOfClosed` | services/openai_service.py:180-185 | a closed fence yields its stripped body |
| `LanguageModel.FencedBlockOfUnclosed` | services/openai_service.py:180-185 | an unclosed fence loses the reply's last character |
| `LanguageModel.BracedSpanOfWrapped` | services/openai_service.py:190-194 | an object inside prose is found from its '{' to its '}' |
| `LanguageModel.ParseTakesDirectDecode` | services/openai_service.py:172-177 | a reply that decodes is taken as it stands |
| `LanguageModel.ParseFencedReply` | services/openai_service.py:178-187 | a reply in a closed json fence gives the decoded body |
| `LanguageModel.ParseWrappedObject` | services/openai_service.py:189-197 | an object inside prose gives the decoded object |
| `LanguageModel.ParseFallsBack` | services/openai_service.py:170-200 | a reply without fence or brace that does not decode gives the fallback |
| `LanguageModel.SetDefault` | services/openai_service.py:249-251 | `setdefault` adds a missing key and keeps every present one |
| `LanguageModel.TaskDefaultsAgree` | services/openai_service.py:249-253 | filling the defaults changes nothing that already validates |
| `LanguageModel.MistypedInfoFailsTask` | services/openai_service.py:249-262 | an `extracted_info` that is not an object fails validation |
| `LanguageModel.CompleteTask` | services/openai_service.py:249-262 | a non-object gives the all-default analysis; a task needs `is_task` true; an object whose filled-in defaults validate is taken as it is, and one that fails validation gives the all-default analysis |
| `LanguageModel.AnalyzeTask` | services/openai_service.py:202-262 | no reply gives the default; otherwise the parsed reply is validated as `CompleteTask` states, a failed validation giving the default |
| `LanguageModel.EditDefaultsAgree` | services/openai_service.py:412-418 | filling the defaults changes nothing that already validates |
| `LanguageModel.MistypedEditTypeFailsEdit` | services/openai_service.py:412-428 | an `edit_type` that is neither a string nor null fails validation |
| `LanguageModel.NullDefaultAgrees` | services/openai_service.py:413-415 | a key defaulted to `None` reads as before, or as missing |
| `LanguageModel.CompleteEdit` | services/openai_service.py:412-428 | a non-object gives the all-default request; an edit needs `is_edit` true; an object whose filled-in defaults validate is taken as it is, and one that fails validation gives the all-default request |
| `LanguageModel.AnalyzeEdit` | services/openai_service.py:344-428 | no reply gives the default; otherwise the parsed reply is validated as `CompleteEdit` states, a failed validation giving the default |
| `LanguageModel.CompleteQuery` | services/openai_service.py:463-475 | the three keys are present, each missing one with its default and every other entry kept; a non-object gives the defaults |
| `LanguageModel.AnalyzeQuery` | services/openai_service.py:430-475 | no reply gives the defaults; otherwise the parsed reply is completed as `CompleteQuery` states |
| `LanguageModel.FollowUpQuestion` | services/openai_service.py:298-309 | date, time and duration get their template around the title (by default "your task"); any other field the generic question |
| `LanguageModel.ContextLines` | services/openai_service.py:349-351 | one numbered line for each of the first three events |
| `LanguageModel.ContextShowsFirstThree` | services/openai_service.py:349-351 | events beyond the third never reach the prompt |
| `LanguageModel.EditContext` | services/openai_service.py:348-351 | the context loop builds `ContextText` |
| `Messaging.Address` | services/twilio_service.py:42-43 | the address starts with `whatsapp:`, and one that did is unchanged |
| `Messaging.FormatPhoneNumber` | services/twilio_service.py:139-143 | exactly one leading `whatsapp:` is removed, and other numbers are unchanged |
| `Messaging.FormatOfAddress` | services/twilio_service.py:139-143 | formatting an address gives the formatted number |
| `Messaging.AddressOfFormat` | services/twilio_service.py:139-143 | a prefixed address is rebuilt from its formatted number |
| `Messaging.Fit` | services/twilio_service.py:46-47 | at most 1600 characters; longer text keeps its first 1597 and gains "..." |
| `Messaging.FitIdempotent` | services/twilio_service.py:46-47 | fitting twice is fitting once |
| `Messaging.SendMessage` | services/twilio_service.py:34-89 | no client means no attempt; otherwise the prefixed, fitted message is tried up to three times, stopping at success or status 400/404 |
| `Messaging.SplitChunks` | services/twilio_service.py:96-112 | the splitting loop computes `Chunks` |
| `Messaging.ChunkLinesStep` | services/twilio_service.py:100-109 | the loop over one more line is one more step |
| `Messaging.ChunkLinesWithin` | services/twilio_service.py:100-109 | while every line fits, every chunk fits |
| `Messaging.ChunksWithin` | services/twilio_service.py:96-112 | when no line reaches the limit, no chunk is over it |
| `Messaging.Labelled` | services/twilio_service.py:116-120 | the chunks are labelled "(i/n)" only when there are several |
| `Messaging.SingleChunkUnlabelled` | services/twilio_service.py:120 | a single chunk goes out as it is |
| `Messaging.LabelEndsWithChunk` | services/twilio_service.py:120 | each message ends with its chunk |
| `Messaging.SendAll` | services/twilio_service.py:114-125 | the labelled chunks are sent in order, stopping at the first failure; success means all were accepted |
| `Messaging.SendChunks` | services/twilio_service.py:91-125 | a message within the limit is one send; a longer one is sent chunk by chunk as `SendAll` states |
| `Messaging.ValidateWebhook` | services/twilio_service.py:127-137 | a request passes exactly when there is no validator or the validator accepts it |

## Left out

- The HTTP endpoint `handle_whatsapp_webhook` (routers/webhook.py:19-104) is transport plumbing. This covers form parsing, signature checking, the media and empty-body replies, the rate-limit reply and the response codes. The rate limiter it calls is modelled.
- The real calendar, language-model and messaging clients are not called. This covers credentials, client set-up, HTTP errors and the prompt texts. Their answers are parameters.
- `get_event` is not modelled as a call: its result is the `fetched` parameter of `Calendar.UpdateEvent`.
- `get_message_status` and `send_typing_indicator` are not modelled: one is a plain client call and the other is a constant `True`.
- `time.sleep` and `asyncio.sleep` back-off delays are not modelled. Only attempt counting matters.
- async/await and concurrency are not modelled: one turn is handled at a time.
- Timezones, seconds and microseconds are not modelled. `is_business_hours` and `get_next_business_day` take a local date-time after timezone conversion. `datetime.now` and `utcnow` become one abstract clock, so a session's timestamps (UTC) and the date readers' "now" (local) are not related.
- The `date < now` check in `parse_datetime_string` is not modelled: it only logs.
- Fractional durations are not modelled. "1.5 hours" goes through `float(...)`, and `NumberTokens` keeps only the integer part of each number.
- `json.loads` is an uninterpreted partial function. A `Render` of a list or dict is not Python's exact `repr`.
- `Value` has no floating-point case, so JSON numbers with a fraction or an exponent are not modelled.
- Python's `1 == True` equality of values, and pydantic's type coercion (it would accept the string "true" for a bool), are not modelled. Validation accepts exactly the declared types.
- `int()` on a string accepts underscores and non-ASCII digits in Python. `PyInt` reads only optional sign, ASCII digits and surrounding whitespace.
- `\d` and `str.lower` are modelled on ASCII only: they do not match non-ASCII digits or fold non-ASCII letters. `\s` and `strip` use Python's full `isspace`, Unicode separators included.
- An `OverflowError` from a date far outside the calendar range is not modelled.
- `DateParse.StrptimeDate` models `strptime` only for the directives of the format lists, with `%B`/`%b` read as the English month names.
- `list_events` sends a window to the calendar, but the events it lists are a parameter. The model does not check that they fall inside the window.
- `apply_event_edit`'s exception reply (routers/webhook.py:525-527) is unreachable in the model: no step of that function can raise once its inputs are well-typed.
- `Webhook.ApplySelection` is `ChosenStep` on the class. It applies the edit after the reset, as the source does. Reading the selected event before the reset is not distinguished, because the reset does not touch the event lists.
- A line over 1600 characters is cut to 1597 characters plus "..." when the current chunk is empty. `Messaging.ChunksWithin` covers only messages whose lines are all within the limit.
- `Calendar.CreateEvent`: its contract is stated through `Calendar.EventBodyFor`, whose own contract states what the body holds.
- `Conversation.Updated` ignores every name other than the seven declared fields. For pydantic, `hasattr` also holds for the model's own methods, and `setattr` of such a name would raise. No caller reaches this: `apply_event_edit` updates only title, time, duration and date (routers/webhook.py:486-504).
- `Helpers.IsBusinessHours` is a predicate with no contract of its own: it is stated in `Helpers.GetNextBusinessDay`'s contract.
