/**
 * The wording of the bot's replies. Each `Reply` the dialogue steps produce
 * is rendered here into the text the user receives; replies built by other
 * services (follow-up questions, calendar confirmations, event listings) are
 * rendered by those services' own templates.
 */
module Replies {
  import opened Text
  import opened Schemas
  import opened Webhook
  import Calendar
  import LanguageModel

  const Smile: string := "\U{1F60A}"

  /** `get_confirmation_message`: the task's details with their defaults, then the question. */
  function ConfirmationPrompt(taskData: map<string, Value>): (r: string)
    ensures StartsWith(r, ConfirmationHeader)
    ensures EndsWith(r, ConfirmationQuestion)
    ensures Contains(r, "\U{1F4DD} Task: " + Render(Get(taskData, "title", Str("Your task"))) + "\n")
    ensures Contains(r, "\U{1F4C5} Date: " + Render(Get(taskData, "date", Str("Not specified"))) + "\n")
    ensures Contains(r, "\U{23F0} Time: " + Render(Get(taskData, "time", Str("Not specified"))) + "\n")
    ensures Contains(r, "\U{23F1}\U{FE0F} Duration: " + Render(Get(taskData, "duration", Str("1 hour"))) + "\n\n")
  {
    var task := "\U{1F4DD} Task: " + Render(Get(taskData, "title", Str("Your task"))) + "\n";
    var date := "\U{1F4C5} Date: " + Render(Get(taskData, "date", Str("Not specified"))) + "\n";
    var time := "\U{23F0} Time: " + Render(Get(taskData, "time", Str("Not specified"))) + "\n";
    var duration := "\U{23F1}\U{FE0F} Duration: " + Render(Get(taskData, "duration", Str("1 hour"))) + "\n\n";
    PiecesContained(ConfirmationHeader, task, date, time, duration, ConfirmationQuestion);
    ConfirmationHeader + task + date + time + duration + ConfirmationQuestion
  }

  const ConfirmationHeader: string := "Great! Let me confirm the details:\n\n"

  const ConfirmationQuestion: string := "Should I add this to your Google Calendar? Reply 'yes' to confirm or 'no' to cancel."

  /** One line of `show_event_selection`: `{i}. '{title}' on {date} at {time}`. */
  function ChoiceLine(i: nat, e: StoredEvent): string {
    NatToString(i + 1) + ". '" + Render(e.title) + "' on " + Render(e.date) + " at " + Render(e.time) + "\n"
  }

  /** The numbered lines of the selection list, numbered from 1. */
  function ChoiceLines(choices: seq<StoredEvent>): (r: seq<string>)
    ensures |r| == |choices|
    ensures forall i :: 0 <= i < |choices| ==> r[i] == ChoiceLine(i, choices[i])
  {
    seq(|choices|, i requires 0 <= i < |choices| => ChoiceLine(i, choices[i]))
  }

  /** `show_event_selection`'s message: the header, one line per choice and the range to answer in. */
  function SelectionPrompt(choices: seq<StoredEvent>): (r: string)
    ensures StartsWith(r, "Which event would you like to edit?\n\n")
    ensures forall i :: 0 <= i < |choices| ==> Contains(r, ChoiceLine(i, choices[i]))
    ensures EndsWith(r, SelectionFooter(|choices|))
  {
    var head := "Which event would you like to edit?\n\n";
    var lines := ChoiceLines(choices);
    var r := head + Concat(lines) + SelectionFooter(|choices|);
    Framed(head, Concat(lines), SelectionFooter(|choices|));
    forall i | 0 <= i < |choices|
      ensures Contains(r, ChoiceLine(i, choices[i]))
    {
      ConcatContains(lines, i);
      ContainsInfix(head, Concat(lines), SelectionFooter(|choices|), lines[i]);
    }
    r
  }

  function SelectionFooter(count: nat): string {
    "\nReply with the number (1-" + NatToString(count) + ") of the event you want to edit."
  }

  function MenuText(canEdit: bool): string {
    "I help you schedule tasks and add them to your Google Calendar! \U{1F4C5}\n\n"
    + "\U{1F4DD} Create new events:\n"
    + "\U{2022} 'Remind me to call John tomorrow at 3pm'\n"
    + "\U{2022} 'Meeting with team on Friday'\n"
    + "\U{2022} 'Doctor appointment next Tuesday at 10am'\n\n"
    + (if canEdit then MenuEditSection else "")
    + "What would you like to do?"
  }

  const MenuEditSection: string :=
    "\U{270F}\U{FE0F} Edit existing events:\n"
    + "\U{2022} 'Change my meeting time to 4pm'\n"
    + "\U{2022} 'Update the title to Sprint Planning'\n"
    + "\U{2022} 'Make the duration 2 hours'\n\n"

  /** `get_help_message`. */
  function HelpText(): string {
    "\U{1F916} WhatsApp Task Bot Help\n\n"
    + "I can help you schedule tasks and add them to your Google Calendar!\n\n"
    + "\U{1F4DD} Create Events:\n"
    + "\U{2022} 'Remind me to call John tomorrow at 3pm'\n"
    + "\U{2022} 'Meeting with team on Friday at 2pm'\n"
    + "\U{2022} 'Doctor appointment next Tuesday at 10am'\n"
    + "\U{2022} 'Lunch with Sarah on Monday'\n\n"
    + "\U{270F}\U{FE0F} Edit Events:\n"
    + "\U{2022} 'Change my meeting time to 4pm'\n"
    + "\U{2022} 'Update the title to Sprint Planning'\n"
    + "\U{2022} 'Make the duration 2 hours'\n"
    + "\U{2022} 'Reschedule to tomorrow'\n\n"
    + "\U{1F527} Commands:\n"
    + "\U{2022} 'help' - Show this help message\n"
    + "\U{2022} 'cancel' - Cancel current operation\n\n"
    + "Just send me a message describing what you want to do! " + Smile
  }

  /** The fixed replies. */
  function CancelledText(): string {
    "Task scheduling cancelled. Feel free to send me another task anytime! " + Smile
  }

  function RestartText(): string {
    "Something went wrong. Let's start over. Please send me a task you'd like to schedule! " + Smile
  }

  function CrashedText(): string {
    "Sorry, I encountered an error. Please try again with your task."
  }

  function CreateFailedText(): string {
    "Sorry, I couldn't create the calendar event. Please check your Google Calendar settings and try again.\n\n"
    + "Feel free to send me another task! " + Smile
  }

  function StartOverText(): string {
    "No problem! Let's start over. Please send me your task again with the correct details. " + Smile
  }

  function NoEventsToEditText(): string {
    "I don't see any recent events to edit. Please create an event first, then you can edit it!\n\n"
    + "Try: 'Schedule a meeting tomorrow at 2pm'"
  }

  function EditCrashedText(): string {
    "Sorry, I encountered an error while trying to edit your event. Please try again."
  }

  function SelectionLostText(): string {
    "Something went wrong. Please try your edit request again."
  }

  function AskNumberText(): string {
    "Please reply with a number (1-5) to select which event you want to edit."
  }

  function SelectionCrashedText(): string {
    "Sorry, I encountered an error. Please try your edit request again."
  }

  function UnclearText(title: Value): string {
    "I'm not sure what you want to change about '" + Render(title) + "'. Could you be more specific?\n\n"
    + "For example: 'Change the time to 4pm' or 'Update the title to Team Meeting'"
  }

  function ChangeFailedText(title: Value): string {
    "Sorry, I couldn't update '" + Render(title) + "'. Please try again or check your calendar manually."
  }

  function OutOfRangeText(count: nat): string {
    "Please choose a number between 1 and " + NatToString(count) + "."
  }

  /** The text sent for a reply. */
  function ReplyText(r: Reply): string {
    match r
    case Cancelled => CancelledText()
    case Help => HelpText()
    case Restart => RestartText()
    case Crashed => CrashedText()
    case Listing(text) => text
    case Menu(canEdit) => MenuText(canEdit)
    case Confirm(taskData) => ConfirmationPrompt(taskData)
    case Ask(field, taskData) => LanguageModel.FollowUpQuestion(field, taskData)
    case Created(taskData, url) => Calendar.ConfirmationMessage(taskData, url)
    case CreateFailed => CreateFailedText()
    case StartOver => StartOverText()
    case NoEventsToEdit => NoEventsToEditText()
    case EditCrashed => EditCrashedText()
    case ChooseEvent(choices) => SelectionPrompt(choices)
    case Unclear(title) => UnclearText(title)
    case Changed(title, updates, link) => Calendar.UpdateConfirmation(title, updates, link)
    case ChangeFailed(title) => ChangeFailedText(title)
    case SelectionLost => SelectionLostText()
    case AskNumber => AskNumberText()
    case OutOfRange(count) => OutOfRangeText(count)
    case SelectionCrashed => SelectionCrashedText()
  }
}
