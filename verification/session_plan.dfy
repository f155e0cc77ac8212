/**
  The jobs one `/start_session <total>` schedules, as a pure function of the
  session length in minutes.

  A reminder is due `minutesLeft` minutes before the end, for each offset of
  `ReminderOffsets` that is strictly below the total; the end-of-session job is
  always due at the total. Delays are in seconds from the moment of the call.
*/
module SessionPlan {
  import opened Wrappers

  const SecondsPerMinute: int := 60

  /** The "minutes left" offsets reminders are scheduled for, in the order the
      handler schedules them. */
  const ReminderOffsets: seq<int> := [10, 5]

  /** One job handed to the job queue. `Reminder` runs the reminder callback
      with payload `{minutes_left, total}`; `End` runs the end-of-session
      callback with payload `{total}`. */
  datatype JobSpec =
    | Reminder(minutesLeft: int, delaySeconds: int, total: int)
    | End(delaySeconds: int, total: int)

  /** The inner `schedule_reminder(minutes_left)`: a reminder job when the
      session is longer than the offset, nothing otherwise. */
  function ScheduleReminder(total: int, minutesLeft: int): (r: Option<JobSpec>)
    ensures r.Some? <==> total > minutesLeft
    ensures r.Some? ==> r.value.Reminder? && r.value.minutesLeft == minutesLeft && r.value.total == total
    ensures r.Some? ==> r.value.delaySeconds + minutesLeft * SecondsPerMinute == total * SecondsPerMinute
    ensures r.Some? ==> r.value.delaySeconds > 0
  {
    if total > minutesLeft then
      Some(Reminder(minutesLeft, (total - minutesLeft) * SecondsPerMinute, total))
    else None
  }

  /** The end-of-session job: always the expected end job for the total. */
  function EndJob(total: int): (r: JobSpec)
    ensures r.End? && Expected(total, r)
  {
    End(total * SecondsPerMinute, total)
  }

  /** `[job for job in jobs if job]`: the present entries, in order. */
  function Present<T>(xs: seq<Option<T>>): (r: seq<T>)
    ensures |r| <= |xs|
    ensures forall i :: 0 <= i < |r| ==> Some(r[i]) in xs
    ensures forall i :: 0 <= i < |xs| && xs[i].Some? ==> xs[i].value in r
  {
    if |xs| == 0 then []
    else (if xs[0].Some? then [xs[0].value] else []) + Present(xs[1..])
  }

  /** The job list `start_session` stores for a session of `total` minutes:
      the 10-minute reminder, the 5-minute reminder and the end job, each
      only if scheduled, in that order. */
  function Plan(total: int): (r: seq<JobSpec>)
    ensures |r| > 0 && r[|r| - 1] == EndJob(total)
    ensures forall i :: 0 <= i < |r| ==> Expected(total, r[i])
  {
    var r10 := ScheduleReminder(total, ReminderOffsets[0]);
    var r5 := ScheduleReminder(total, ReminderOffsets[1]);
    var end := Some(EndJob(total));
    PresentOfThree(r10, r5, end);
    Present([r10, r5, end])
  }

  /** An independent description of the jobs a session of `total` minutes
      must schedule: the end job, and one reminder per offset below the total,
      due that many minutes before the end. */
  predicate Expected(total: int, j: JobSpec) {
    match j
    case End(delay, t) => delay == total * SecondsPerMinute && t == total
    case Reminder(k, delay, t) =>
      && k in ReminderOffsets
      && total > k
      && delay == (total - k) * SecondsPerMinute
      && t == total
  }

  /** The entry an optional value contributes to `Present`. */
  function Entry<T>(o: Option<T>): seq<T> {
    if o.Some? then [o.value] else []
  }

  lemma {:induction false} PresentOfThree<T>(a: Option<T>, b: Option<T>, c: Option<T>)
    ensures Present([a, b, c]) == Entry(a) + Entry(b) + Entry(c)
  {
    var xs := [a, b, c];
    assert xs[1..] == [b, c];
    assert [b, c][1..] == [c];
    assert [c][1..] == [];
    assert Present([c]) == Entry(c) + Present([]);
  }

  /** The plan spelled out by cases on the total. */
  lemma {:induction false} PlanCases(total: int)
    ensures total <= 5 ==> Plan(total) == [EndJob(total)]
    ensures 5 < total <= 10 ==> Plan(total) == [Reminder(5, (total - 5) * SecondsPerMinute, total), EndJob(total)]
    ensures 10 < total ==>
              Plan(total) == [Reminder(10, (total - 10) * SecondsPerMinute, total),
                              Reminder(5, (total - 5) * SecondsPerMinute, total), EndJob(total)]
  {
    PresentOfThree(ScheduleReminder(total, 10), ScheduleReminder(total, 5), Some(EndJob(total)));
  }

  /** One job when the session is at most 5 minutes, two up to 10 minutes,
      three beyond. */
  lemma {:induction false} PlanLength(total: int)
    ensures |Plan(total)| == (if total <= 5 then 1 else if total <= 10 then 2 else 3)
  {
    PlanCases(total);
  }

  /** The plan holds exactly the expected jobs: every planned job is expected,
      and every expected job is planned. */
  lemma {:induction false} PlanMatchesExpected(total: int, j: JobSpec)
    ensures j in Plan(total) <==> Expected(total, j)
  {
    PlanCases(total);
  }

  /** A reminder for offset `k` is planned iff the session is longer than `k`,
      and the end job is always planned. */
  lemma {:induction false} ReminderPlannedIff(total: int, k: int)
    requires k in ReminderOffsets
    ensures Reminder(k, (total - k) * SecondsPerMinute, total) in Plan(total) <==> total > k
    ensures EndJob(total) in Plan(total)
  {
    PlanMatchesExpected(total, Reminder(k, (total - k) * SecondsPerMinute, total));
    PlanMatchesExpected(total, EndJob(total));
  }

  /** Exactly one end job, and it is the last one. */
  lemma {:induction false} PlanEndsOnce(total: int)
    ensures |Plan(total)| > 0
    ensures Plan(total)[|Plan(total)| - 1] == End(total * SecondsPerMinute, total)
    ensures forall i :: 0 <= i < |Plan(total)| ==> (Plan(total)[i].End? <==> i == |Plan(total)| - 1)
  {
    PlanCases(total);
  }

  /** For a valid (positive) total, delays are positive and strictly
      increasing, so the jobs fire in the order they are listed. */
  lemma {:induction false} PlanDelaysIncrease(total: int)
    requires total > 0
    ensures forall i :: 0 <= i < |Plan(total)| ==> Plan(total)[i].delaySeconds > 0
    ensures forall i, j :: 0 <= i < j < |Plan(total)| ==>
      Plan(total)[i].delaySeconds < Plan(total)[j].delaySeconds
  {
    PlanCases(total);
  }

  /** The boundary totals: 5 minutes gives only the end job at 300 seconds;
      10 minutes adds the 5-minute reminder at 300 seconds; 30 minutes gives
      reminders at 1200 and 1500 seconds and the end at 1800 seconds. */
  lemma {:induction false} PlanBoundaries()
    ensures Plan(5) == [End(300, 5)]
    ensures Plan(10) == [Reminder(5, 300, 10), End(600, 10)]
    ensures Plan(30) == [Reminder(10, 1200, 30), Reminder(5, 1500, 30), End(1800, 30)]
  {
    PlanCases(5);
    PlanCases(10);
    PlanCases(30);
  }
}
