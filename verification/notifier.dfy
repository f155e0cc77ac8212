/**
  The two job callbacks, `send_reminder` and `send_session_end`.

  A callback reads the job's payload dictionary and either produces the
  message the bot sends to the job's chat or nothing. The message text is
  abstracted to its kind and the numbers it mentions.
*/
module Notifier {
  import opened Wrappers
  import opened SessionPlan

  /** A Telegram chat identifier. */
  type ChatId = int

  /** The job's `data` dictionary, as read through `dict.get`: a missing key
      reads as `None`. */
  datatype Data = Data(minutesLeft: Option<int>, total: Option<int>)

  /** An outgoing message: a reminder saying how many minutes are left out of
      the total, or the end-of-session notice quoting the total. */
  datatype Message =
    | ReminderText(chat: ChatId, minutesLeft: int, total: int)
    | EndText(chat: ChatId, endTotal: Option<int>)

  /** The payload the handler attaches to a scheduled job: `{minutes_left,
      total}` for a reminder, `{total}` for the end job. */
  function PayloadOf(spec: JobSpec): (d: Data)
    ensures d.total == Some(spec.total)
    ensures d.minutesLeft.Some? <==> spec.Reminder?
    ensures spec.Reminder? ==> d.minutesLeft == Some(spec.minutesLeft)
  {
    match spec
    case Reminder(k, _, t) => Data(Some(k), Some(t))
    case End(_, t) => Data(None, Some(t))
  }

  /** Python truthiness of a value read from the payload: `None` and `0` are
      false. */
  predicate Truthy(v: Option<int>) {
    v.Some? && v.value != 0
  }

  /** The guard of `send_reminder`: `minutes_left and total`. A missing key
      reads as `None` and fails it, so does a zero, and two present non-zero
      values pass it. */
  function ShouldSendReminder(d: Data): (b: bool)
    ensures d.minutesLeft.None? || d.total.None? ==> !b
    ensures d.minutesLeft == Some(0) || d.total == Some(0) ==> !b
    ensures d.minutesLeft.Some? && d.minutesLeft.value != 0 && d.total.Some? && d.total.value != 0 ==> b
  {
    Truthy(d.minutesLeft) && Truthy(d.total)
  }

  /** `send_reminder`: a reminder message exactly when both payload values are
      present and non-zero, quoting those values; nothing otherwise. */
  function SendReminder(chat: ChatId, d: Data): (m: Option<Message>)
    ensures m.Some? <==>
              d.minutesLeft.Some? && d.minutesLeft.value != 0 && d.total.Some? && d.total.value != 0
    ensures m.Some? ==> m.value == ReminderText(chat, d.minutesLeft.value, d.total.value)
  {
    if ShouldSendReminder(d) then Some(ReminderText(chat, d.minutesLeft.value, d.total.value))
    else None
  }

  /** `send_session_end`: always sends, quoting whatever the payload holds
      under `total` (possibly nothing). */
  function SendSessionEnd(chat: ChatId, d: Data): (m: Message)
    ensures m.EndText? && m.chat == chat && m.endTotal == d.total
  {
    EndText(chat, d.total)
  }

  /** The callback the job queue runs for a job of the given kind: the end
      job always notifies, and a reminder notifies exactly when its offset and
      total are both non-zero, quoting them. */
  function RunCallback(chat: ChatId, spec: JobSpec): (r: Option<Message>)
    ensures spec.End? ==> r == Some(EndText(chat, Some(spec.total)))
    ensures spec.Reminder? ==> (r.Some? <==> spec.minutesLeft != 0 && spec.total != 0)
    ensures spec.Reminder? && r.Some? ==> r.value == ReminderText(chat, spec.minutesLeft, spec.total)
  {
    match spec
    case Reminder(_, _, _) => SendReminder(chat, PayloadOf(spec))
    case End(_, _) => Some(SendSessionEnd(chat, PayloadOf(spec)))
  }

  /** The reminder guard never suppresses a job the handler planned for a
      valid session: every planned job, when run, sends its message, and the
      message quotes the job's own offset and total. */
  lemma {:induction false} PlannedJobsNotify(chat: ChatId, total: int, i: int)
    requires total > 0
    requires 0 <= i < |Plan(total)|
    ensures RunCallback(chat, Plan(total)[i]).Some?
    ensures Plan(total)[i].Reminder? ==>
              RunCallback(chat, Plan(total)[i]) ==
                Some(ReminderText(chat, Plan(total)[i].minutesLeft, total))
    ensures Plan(total)[i].End? ==> RunCallback(chat, Plan(total)[i]) == Some(EndText(chat, Some(total)))
  {
    var j := Plan(total)[i];
    assert j in Plan(total);
    PlanMatchesExpected(total, j);
  }

  /** A reminder payload missing either value, or holding a zero, is dropped
      silently, while the end callback sends even with an empty payload. */
  lemma {:induction false} MalformedPayloads(chat: ChatId)
    ensures SendReminder(chat, Data(None, Some(30))) == None
    ensures SendReminder(chat, Data(Some(5), None)) == None
    ensures SendReminder(chat, Data(Some(0), Some(30))) == None
    ensures SendSessionEnd(chat, Data(None, None)) == EndText(chat, None)
  {
  }
}
