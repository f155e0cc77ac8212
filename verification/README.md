# claude-token-alert-bot: session reminders in Dafny

The bot is a Telegram bot with one command that matters. `/start_session
<minutes>` starts a countdown of that many minutes for the chat. The bot sends
a reminder when 10 minutes are left and another when 5 are left, then a notice
when the session ends. A new `/start_session` in the same chat cancels the jobs
of the previous one before it schedules its own.

The model has five modules:

- `Wrappers` (`wrappers.dfy`): the `Option` type, which stands for Python's
  `None`.
- `Validation` (`validation.dfy`): `_validate_minutes`, together with the part
  of Python's `int()` it relies on. `int()` is modelled on ASCII text: C-locale
  white space around the number (tab, line feed, vertical tab, form feed,
  carriage return, space), an optional sign, and digits with single
  underscores between them. Like CPython 3.11 and later, `int()` refuses a
  number of more than 4300 digits, the default `sys.get_int_max_str_digits()`.
  `FormatInt` renders an integer the way `str()`
  does, and it is the partner used for the round trip.
- `SessionPlan` (`session_plan.dfy`): the inner `schedule_reminder` and the
  list of jobs the handler stores, written as a pure function of the total.
  `Expected` is an independent description of which jobs must be planned.
- `Notifier` (`notifier.dfy`): the job payloads and the guards of the two
  callbacks, `send_reminder` and `send_session_end`.
- `Scheduler` (`scheduler.dfy`): the per-chat registry of job ids, the job
  queue, the `/start_session` handler, and the timer firing a job.
  - The job queue is modelled as a map from job id to job status:
    `Scheduled`, `Fired` or `Cancelled`.
  - `Valid` is the invariant every reachable state keeps.
  - `Run` processes any sequence of commands and timer events.

## Model

| member | source | states |
|---|---|---|
| Validation.ValidateMinutes | main.py:45-54 | A value is returned only when `int(text)` succeeds and is strictly positive, and it is that integer. Failed parsing, including a number beyond the 4300-digit limit, and non-positive values give `None`, in both directions. |
| Validation.ValidateMinutesOfFormat | main.py:45-54 | On the decimal text of an integer `n`, the result is `n` when `n > 0` and `n` has at most 4300 digits, and `None` otherwise. |
| Validation.ValidateMinutesRejectsLong | main.py:50-53 | A run of more than 4300 digits is rejected, as `int()` raises `ValueError` for it. |
| Validation.ValidateMinutesRejectsSeparator | main.py:50-53 | A file separator (0x1C) before the digits is rejected: `int()` skips only C-locale white space, although `str.isspace` holds for that character. |
| Validation.ValidateMinutesRejects | main.py:50-54 | `"-5"`, `"0"`, `"abc"` and the empty text are all rejected. |
| Validation.ParseFormatRoundTrip | main.py:51 | `int(str(n)) == n` for every integer `n` of at most 4300 digits. The decimal text of a longer integer is refused. |
| Validation.DigitsValueOfFormat | main.py:51 | The digits of a natural number read back as that number. |
| Validation.ParseGroupedDigits | main.py:51 | `int()` reads `a_b` the same as `ab` for two runs of digits. |
| Validation.DropSeparatorsAppend | main.py:51 | Removing separators commutes with concatenation. |
| SessionPlan.ScheduleReminder | main.py:97-108 | A reminder job exists iff `total > minutesLeft`. It carries `{minutes_left, total}` and is due `(total - minutesLeft) * 60` seconds after the call, a positive delay ending `minutesLeft` minutes before the end. |
| SessionPlan.PlanMatchesExpected | main.py:97-124 | A job is in the stored list iff it is the end job at `total * 60` s or a reminder for an offset in {10, 5} below the total, due at `(total - k) * 60` s with payload `{k, total}`. |
| SessionPlan.ReminderPlannedIff | main.py:99-112 | For `k` in {10, 5}, the reminder for `k` is planned iff `total > k`. The end job is always planned. |
| SessionPlan.PlanCases | main.py:111-124 | The stored list is `[end]` up to 5 minutes, `[r5, end]` up to 10, and `[r10, r5, end]` beyond. |
| SessionPlan.PlanLength | main.py:111-124 | The list holds 1, 2 or 3 jobs, depending on the total. |
| SessionPlan.PlanEndsOnce | main.py:114-124 | There is exactly one end job. It is the last entry and is due at `total * 60` seconds. |
| SessionPlan.PlanDelaysIncrease | main.py:97-124 | For a positive total, every delay is positive and the delays strictly increase along the list. |
| SessionPlan.PlanBoundaries | main.py:97-124 | 5 minutes gives only the end job at 300 s. 10 minutes gives the 5-minute reminder at 300 s and the end at 600 s. 30 minutes gives reminders at 1200 s and 1500 s and the end at 1800 s. |
| SessionPlan.Plan | main.py:111-124 | The stored list is never empty, ends with the end job, and holds only expected jobs. `PlanCases` and `PlanMatchesExpected` characterise it fully. |
| SessionPlan.EndJob | main.py:115-121 | The end job is due at `total * 60` seconds with payload `{total}`, which is what `Expected` requires of it. |
| SessionPlan.Present | main.py:124 | `[job for job in jobs if job]` keeps no more entries than it was given. Everything it keeps was present, and every present entry is kept. |
| SessionPlan.PresentOfThree | main.py:124 | The comprehension over three optional jobs keeps the present ones, in order. |
| Notifier.PayloadOf | main.py:101-121 | A reminder's payload holds both `minutes_left` and `total`. The end job's payload holds only `total`. |
| Notifier.ShouldSendReminder | main.py:137 | The guard `minutes_left and total` fails when either key is missing or either value is zero, and holds when both are present and non-zero. |
| Notifier.SendReminder | main.py:132-143 | A reminder is sent iff both payload values are present and non-zero, which is Python's truthiness. The message quotes those values. |
| Notifier.SendSessionEnd | main.py:146-155 | The end notice is always sent, quoting whatever `total` holds, possibly nothing. |
| Notifier.RunCallback | main.py:101-121 | A job runs the callback it was scheduled with. The end job always notifies with its total. A reminder notifies, quoting its offset and total, iff both are non-zero. |
| Notifier.PlannedJobsNotify | main.py:101-155 | Every job the handler plans sends its message when run, with the job's own offset and total. |
| Notifier.MalformedPayloads | main.py:132-155 | A reminder payload that lacks a value or holds a zero sends nothing. The end callback sends even with an empty payload. |
| Scheduler.StartSession | main.py:68-124 | A missing argument or an invalid number leaves the state unchanged and gives the matching error reply. An accepted call confirms the parsed positive total and stores an entry the length of the plan. Other chats' entries are unchanged. |
| Scheduler.CancelAll | main.py:89-92 | Every listed job is cancelled. Every other job keeps its state. No job is added or removed. |
| Scheduler.CancelAllIdempotent | main.py:90-92 | Cancelling the same jobs twice is the same as cancelling them once. |
| Scheduler.Cancel | main.py:92 | A cancelled job keeps its chat and payload and can no longer fire. A job that had fired or was already cancelled is unchanged. |
| Scheduler.RunOnce | main.py:101-121 | A job gets a fresh id and is added as `Scheduled`. The registry is not touched. |
| Scheduler.ScheduleAll | main.py:111-121 | The new jobs get fresh consecutive ids, one `Scheduled` job per spec, in order. Older jobs are unchanged. |
| Scheduler.StartSessionCancelsListed | main.py:86-124 | Every job the chat had listed is cancelled, or stays fired. None of them is in the new entry. |
| Scheduler.StartSessionInstallsPlan | main.py:111-124 | The new entry lists fresh jobs, one per planned job in plan order, each `Scheduled` for this chat with its spec. No other jobs are added. |
| Scheduler.StartSessionFramesOtherChats | main.py:86-124 | Every other chat keeps its entry and all of its jobs. |
| Scheduler.StartSessionRetiresOldJobs | main.py:86-92 | After an accepted call, no job the chat had before can still fire. |
| Scheduler.StartSessionPendingIsNewEntry | main.py:86-124 | After an accepted call, the chat's jobs that can still fire are exactly the jobs in its new entry. |
| Scheduler.StartSessionPreservesValid | main.py:68-124 | The handler keeps the registry invariant. |
| Scheduler.InitValid | main.py:87-88 | The empty registry satisfies the invariant. |
| Scheduler.Fire | main.py:132-155 | Only a job that can still fire does anything. It becomes fired and its callback's message is produced. The registry and the other jobs are unchanged. |
| Scheduler.FirePreservesValid | main.py:132-155 | A timer event keeps the registry invariant. |
| Scheduler.StartSessionKeepsCancelled | main.py:86-124 | The handler never revives a cancelled job. |
| Scheduler.StepKeepsCancelled | main.py:68-155 | Any single event keeps the invariant and leaves cancelled jobs cancelled. |
| Scheduler.RunKeepsCancelled | main.py:68-155 | Any sequence of events keeps the invariant and leaves cancelled jobs cancelled. |
| Scheduler.StartSessionKeepsRetired | main.py:86-124 | The handler keeps every job with its chat, and a job that can no longer fire never can again. |
| Scheduler.StepKeepsRetired | main.py:68-155 | Any single event keeps every job with its chat, and a job that can no longer fire never can again. |
| Scheduler.RunKeepsRetired | main.py:68-155 | Any sequence of events keeps every job with its chat, and a job that can no longer fire never can again. |
| Scheduler.SupersededJobsNeverFire | main.py:86-124 | Once a chat has started a second session, no job of the first session sends anything when its timer elapses. This holds whatever events came between the two starts and whatever events follow. |

## Left out

- Telegram I/O is abstracted. Replies and messages are datatypes that carry the numbers they quote, and the Hebrew texts are not modelled.
- `start_command` (`/start`) is not modelled. It only sends a fixed welcome text.
- `main()`, the bot token, logging and polling are not modelled.
- Real time is not modelled. A job fires when a `Timer` event names it, and events may arrive in any order. Delays are recorded in seconds but never compared against a clock.
- Handlers are not concurrent here: each handler runs atomically.
- The job `name` strings are not modelled. Nothing in the bot reads them.
- `chat_data` is already per chat, and `chat_data["sessions"]` only ever holds the current chat's key. It is modelled as one map from chat to job ids.
- Cancellation (`schedule_removal`) is modelled as turning a job that may still fire into a cancelled one and leaving jobs that already ran alone. The job-queue library itself is not part of this model.
- Cancelling a job that already ran is modelled as doing nothing. The source does not show what `schedule_removal()` does then, and the job-queue library is not part of this model. A new session calls it on such jobs (main.py:90-92), after a finished session and also after only the 10-minute reminder has run. If the library raises for a run-once job that already ran, the loop stops at that job: the later listed jobs stay scheduled and still fire, and nothing new is scheduled. `Scheduler.StartSessionRetiresOldJobs`, `Scheduler.StartSessionPendingIsNewEntry` and `Scheduler.SupersededJobsNeverFire` rest on the no-op assumption and do not hold in that case.
- Fired jobs stay in the chat's entry, as in the source, which never removes them.
- `int()` is modelled on ASCII only. Unicode digits and non-ASCII white space, which Python also accepts, are not modelled.
- Validation.ParseInt has no contract of its own. It is characterised through `ParseFormatRoundTrip`, `ParseGroupedDigits`, `ValidateMinutesRejects` and `ValidateMinutesRejectsLong`.
- Python integers are unbounded, as Dafny's are, so no wrap-around is modelled. The model schedules any accepted total. The real job queue computes each due time as the current time plus the delay. From 2026 on, a total above about 4.2·10^9 minutes puts that time after the year 9999, and `run_once` raises `OverflowError`. By then the old jobs are already cancelled (main.py:90-92); the chat's entry is not replaced and no confirmation is sent. Date overflow is not modelled.
- The digit limit of `int()` is fixed at its default of 4300. Changing it with `sys.set_int_max_str_digits` or `PYTHONINTMAXSTRDIGITS` is not modelled. The releases that predate the limit are not modelled. These are every release before 3.7.14, 3.8.14, 3.9.14 and 3.10.7 in its line; those patch releases, every later one and 3.11 onwards enforce the limit.
