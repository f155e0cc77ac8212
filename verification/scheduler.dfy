/**
  The session registry and the `/start_session` handler.

  The state holds, per chat, the list of job ids the last accepted
  `/start_session` stored, and the status of every job ever scheduled.
  Scheduling a job (`run_once`) allocates the next unused id in state
  `Scheduled`; cancelling one (`schedule_removal`) turns `Scheduled` into
  `Cancelled` and leaves the other states alone; the timer firing a job turns
  `Scheduled` into `Fired` and runs its callback.
*/
module Scheduler {
  import opened Wrappers
  import opened Validation
  import opened SessionPlan
  import opened Notifier

  type JobId = nat

  datatype Status = Scheduled | Fired | Cancelled

  /** A job known to the job queue: its chat, what it runs, and where it is
      in its life. */
  datatype Job = Job(chat: ChatId, spec: JobSpec, status: Status)

  /** `sessions` is the registry `chat_data["sessions"]`; `jobs` and `nextId`
      stand for the job queue. */
  datatype State = State(sessions: map<ChatId, seq<JobId>>, jobs: map<JobId, Job>, nextId: JobId)

  /** The handler's reply: the usage error for a missing argument, the
      invalid-number error, or the confirmation quoting the total. */
  datatype Reply = MissingArgument | InvalidMinutes | Started(total: int)

  function Init(): State {
    State(map[], map[], 0)
  }

  /** `sessions.get(chat_id)`, with a missing entry read as no jobs. */
  function Listed(s: State, chat: ChatId): seq<JobId> {
    if chat in s.sessions then s.sessions[chat] else []
  }

  /** The jobs of `chat` that may still fire. */
  function Pending(s: State, chat: ChatId): set<JobId> {
    set id | id in s.jobs && s.jobs[id].chat == chat && s.jobs[id].status == Scheduled
  }

  /** The invariant every reachable state keeps: ids are allocated below
      `nextId`; every registered id names a job of that chat; and every job
      that may still fire is registered under its chat. */
  ghost predicate Valid(s: State) {
    && (forall id :: id in s.jobs ==> id < s.nextId)
    && (forall c, i :: c in s.sessions && 0 <= i < |s.sessions[c]| ==>
          s.sessions[c][i] in s.jobs && s.jobs[s.sessions[c][i]].chat == c)
    && (forall id :: id in s.jobs && s.jobs[id].status == Scheduled ==> id in Listed(s, s.jobs[id].chat))
  }

  lemma {:induction false} InitValid()
    ensures Valid(Init())
  {
  }

  // ---------------------------------------------------------------------
  // Cancellation

  /** `job.schedule_removal()`: a job that may still fire never will; a job
      that already fired or was cancelled is left as it is. */
  function Cancel(j: Job): (r: Job)
    ensures r.chat == j.chat && r.spec == j.spec
    ensures r.status != Scheduled
    ensures j.status != Scheduled ==> r == j
  {
    if j.status == Scheduled then j.(status := Cancelled) else j
  }

  /** The loop `for job in session_jobs: job.schedule_removal()`. Every listed
      job is cancelled and every other job keeps its state. */
  function CancelAll(jobs: map<JobId, Job>, ids: seq<JobId>): (r: map<JobId, Job>)
    ensures r.Keys == jobs.Keys
    ensures forall id :: id in jobs && id in ids ==> r[id] == Cancel(jobs[id])
    ensures forall id :: id in jobs && id !in ids ==> r[id] == jobs[id]
    decreases |ids|
  {
    if |ids| == 0 then jobs
    else
      var first := if ids[0] in jobs then jobs[ids[0] := Cancel(jobs[ids[0]])] else jobs;
      CancelAll(first, ids[1..])
  }

  /** Cancelling is idempotent: a second cancellation of the same jobs changes
      nothing. */
  lemma {:induction false} CancelAllIdempotent(jobs: map<JobId, Job>, ids: seq<JobId>)
    ensures CancelAll(CancelAll(jobs, ids), ids) == CancelAll(jobs, ids)
  {
  }

  // ---------------------------------------------------------------------
  // Scheduling

  /** `job_queue.run_once(...)`: the job gets the next unused id and may now
      fire. */
  function RunOnce(s: State, chat: ChatId, spec: JobSpec): (r: (State, JobId))
    ensures (forall id :: id in s.jobs ==> id < s.nextId) ==> r.1 !in s.jobs
    ensures r.0.jobs == s.jobs[r.1 := Job(chat, spec, Scheduled)]
    ensures r.0.sessions == s.sessions && r.0.nextId > r.1
  {
    (s.(jobs := s.jobs[s.nextId := Job(chat, spec, Scheduled)], nextId := s.nextId + 1), s.nextId)
  }

  /** Schedules `specs` in order. The ids returned are fresh and consecutive,
      each names a `Scheduled` job of `chat` with the matching spec, and every
      job allocated before is untouched. */
  function ScheduleAll(s: State, chat: ChatId, specs: seq<JobSpec>): (r: (State, seq<JobId>))
    ensures r.0.sessions == s.sessions
    ensures r.0.nextId == s.nextId + |specs|
    ensures |r.1| == |specs|
    ensures forall i :: 0 <= i < |specs| ==> r.1[i] == s.nextId + i
    ensures forall i :: 0 <= i < |specs| ==> r.1[i] in r.0.jobs && r.0.jobs[r.1[i]] == Job(chat, specs[i], Scheduled)
    ensures forall id :: id in r.0.jobs <==> id in s.jobs || s.nextId <= id < r.0.nextId
    ensures forall id :: id in s.jobs && id < s.nextId ==> r.0.jobs[id] == s.jobs[id]
    decreases |specs|
  {
    if |specs| == 0 then (s, [])
    else
      var (s1, id) := RunOnce(s, chat, specs[0]);
      var (s2, ids) := ScheduleAll(s1, chat, specs[1..]);
      (s2, [id] + ids)
  }

  // ---------------------------------------------------------------------
  // The handler

  /** The argument lists `start_session` accepts: a first argument that
      validates. */
  predicate Accepted(args: seq<string>) {
    |args| > 0 && ValidateMinutes(args[0]).Some?
  }

  /** `start_session`: rejects a missing or invalid argument without touching
      the state; otherwise cancels the chat's listed jobs, schedules the plan
      for the given total and makes the new ids the chat's entry. */
  function StartSession(s: State, chat: ChatId, args: seq<string>): (r: (State, Reply))
    ensures |args| == 0 ==> r == (s, MissingArgument)
    ensures |args| > 0 && ValidateMinutes(args[0]).None? ==> r == (s, InvalidMinutes)
    ensures r.1.Started? <==> Accepted(args)
    ensures r.1.Started? ==> r.1.total > 0 && ParseInt(args[0]) == Some(r.1.total)
    ensures r.1.Started? ==> chat in r.0.sessions && |r.0.sessions[chat]| == |Plan(r.1.total)|
    ensures r.0.sessions.Keys == s.sessions.Keys || r.0.sessions.Keys == s.sessions.Keys + {chat}
    ensures forall c :: c in s.sessions && c != chat ==> r.0.sessions[c] == s.sessions[c]
  {
    if |args| == 0 then (s, MissingArgument)
    else
      match ValidateMinutes(args[0])
      case None => (s, InvalidMinutes)
      case Some(total) =>
        var cancelled := s.(jobs := CancelAll(s.jobs, Listed(s, chat)));
        var (scheduled, ids) := ScheduleAll(cancelled, chat, Plan(total));
        (scheduled.(sessions := scheduled.sessions[chat := ids]), Started(total))
  }

  /** Every job the chat had listed is cancelled before the new ones are
      scheduled: one that could still fire is now `Cancelled`, one that had
      fired stays `Fired`, and none of them is in the chat's new entry. */
  lemma {:induction false} StartSessionCancelsListed(s: State, chat: ChatId, args: seq<string>)
    requires Valid(s) && Accepted(args)
    ensures var s' := StartSession(s, chat, args).0;
      forall id :: id in Listed(s, chat) ==>
        && id in s'.jobs
        && s'.jobs[id] == Cancel(s.jobs[id])
        && id !in s'.sessions[chat]
  {
    var s' := StartSession(s, chat, args).0;
    forall id | id in Listed(s, chat)
      ensures id in s'.jobs && s'.jobs[id] == Cancel(s.jobs[id]) && id !in s'.sessions[chat]
    {
      var i :| 0 <= i < |Listed(s, chat)| && Listed(s, chat)[i] == id;
      assert id in s.jobs;
    }
  }

  /** The chat's new entry lists one fresh `Scheduled` job per planned job,
      in plan order, and those are the only jobs the call adds. */
  lemma {:induction false} StartSessionInstallsPlan(s: State, chat: ChatId, args: seq<string>)
    requires Valid(s) && Accepted(args)
    ensures var (s', reply) := StartSession(s, chat, args);
      && reply == Started(ValidateMinutes(args[0]).value)
      && |s'.sessions[chat]| == |Plan(reply.total)|
      && (forall i :: 0 <= i < |s'.sessions[chat]| ==>
            && s'.sessions[chat][i] == s.nextId + i
            && s'.sessions[chat][i] !in s.jobs
            && s'.sessions[chat][i] in s'.jobs
            && s'.jobs[s'.sessions[chat][i]] == Job(chat, Plan(reply.total)[i], Scheduled))
      && (forall id :: id in s'.jobs <==> id in s.jobs || id in s'.sessions[chat])
  {
    var s' := StartSession(s, chat, args).0;
    var ids := s'.sessions[chat];
    forall id | id in s'.jobs && id !in s.jobs
      ensures id in ids
    {
      assert ids[id - s.nextId] == id;
    }
  }

  /** Starting a session for one chat leaves every other chat's entry and
      every other chat's jobs exactly as they were. */
  lemma {:induction false} StartSessionFramesOtherChats(s: State, chat: ChatId, args: seq<string>, other: ChatId)
    requires Valid(s) && other != chat
    ensures var s' := StartSession(s, chat, args).0;
      && Listed(s', other) == Listed(s, other)
      && forall id :: id in s.jobs && s.jobs[id].chat == other ==> id in s'.jobs && s'.jobs[id] == s.jobs[id]
  {
    if Accepted(args) {
      var s' := StartSession(s, chat, args).0;
      forall id | id in s.jobs && s.jobs[id].chat == other
        ensures id in s'.jobs && s'.jobs[id] == s.jobs[id]
      {
        assert id < s.nextId;
      }
    }
  }

  /** None of the jobs the chat had before an accepted `/start_session` may
      still fire afterwards. */
  lemma {:induction false} StartSessionRetiresOldJobs(s: State, chat: ChatId, args: seq<string>, id: JobId)
    requires Valid(s) && Accepted(args)
    requires id in s.jobs && s.jobs[id].chat == chat
    ensures var s' := StartSession(s, chat, args).0;
      id in s'.jobs && s'.jobs[id].chat == chat && s'.jobs[id].status != Scheduled
  {
    var cancelled := CancelAll(s.jobs, Listed(s, chat));
    assert id < s.nextId;
    assert StartSession(s, chat, args).0.jobs[id] == cancelled[id];
    if id !in Listed(s, chat) {
      assert s.jobs[id].status != Scheduled;
    }
  }

  /** After an accepted `/start_session`, the jobs of the chat that may still
      fire are exactly the ones in its new entry. */
  lemma {:induction false} StartSessionPendingIsNewEntry(s: State, chat: ChatId, args: seq<string>)
    requires Valid(s) && Accepted(args)
    ensures var s' := StartSession(s, chat, args).0;
      Pending(s', chat) == set id | id in s'.sessions[chat]
  {
    var s' := StartSession(s, chat, args).0;
    var ids := s'.sessions[chat];
    StartSessionInstallsPlan(s, chat, args);
    forall id | id in Pending(s', chat)
      ensures id in ids
    {
      if id in s.jobs && s.jobs[id].chat == chat {
        StartSessionRetiresOldJobs(s, chat, args, id);
      }
    }
    forall id | id in ids
      ensures id in Pending(s', chat)
    {
      var i :| 0 <= i < |ids| && ids[i] == id;
    }
  }

  /** `start_session` keeps the registry invariant. */
  lemma {:induction false} StartSessionPreservesValid(s: State, chat: ChatId, args: seq<string>)
    requires Valid(s)
    ensures Valid(StartSession(s, chat, args).0)
  {
    if Accepted(args) {
      var s' := StartSession(s, chat, args).0;
      StartSessionInstallsPlan(s, chat, args);
      StartSessionPendingIsNewEntry(s, chat, args);
      forall c, i | c in s'.sessions && 0 <= i < |s'.sessions[c]|
        ensures s'.sessions[c][i] in s'.jobs && s'.jobs[s'.sessions[c][i]].chat == c
      {
        if c != chat {
          StartSessionFramesOtherChats(s, chat, args, c);
          assert s'.sessions[c] == s.sessions[c];
          assert s.jobs[s.sessions[c][i]].chat == c;
        }
      }
      forall id | id in s'.jobs && s'.jobs[id].status == Scheduled
        ensures id in Listed(s', s'.jobs[id].chat)
      {
        var c := s'.jobs[id].chat;
        if c == chat {
          assert id in Pending(s', chat);
        } else {
          StartSessionFramesOtherChats(s, chat, args, c);
          if id !in s.jobs {
            assert false;
          }
          assert id < s.nextId;
          var cancelled := CancelAll(s.jobs, Listed(s, chat));
          assert s'.jobs[id] == cancelled[id];
          if id in Listed(s, chat) {
            assert false;
          }
          assert s.jobs[id] == cancelled[id];
          assert id in Listed(s, c);
        }
      }
    }
  }

  // ---------------------------------------------------------------------
  // Timer firing

  /** The job queue running job `id` when its delay elapses. Only a job that
      may still fire does anything: it becomes `Fired` and its callback runs.
      Firing never touches the registry. */
  function Fire(s: State, id: JobId): (r: (State, Option<Message>))
    ensures r.0.sessions == s.sessions && r.0.nextId == s.nextId && r.0.jobs.Keys == s.jobs.Keys
    ensures id !in s.jobs || s.jobs[id].status != Scheduled ==> r == (s, None)
    ensures id in s.jobs && s.jobs[id].status == Scheduled ==>
              && r.0.jobs == s.jobs[id := s.jobs[id].(status := Fired)]
              && r.1 == RunCallback(s.jobs[id].chat, s.jobs[id].spec)
  {
    if id in s.jobs && s.jobs[id].status == Scheduled then
      var job := s.jobs[id];
      (s.(jobs := s.jobs[id := job.(status := Fired)]), RunCallback(job.chat, job.spec))
    else (s, None)
  }

  lemma {:induction false} FirePreservesValid(s: State, id: JobId)
    requires Valid(s)
    ensures Valid(Fire(s, id).0)
  {
  }

  // ---------------------------------------------------------------------
  // Runs of the bot

  /** What can happen to the bot: a `/start_session` command in a chat, or
      the timer of a job elapsing. */
  datatype Event = Command(chat: ChatId, args: seq<string>) | Timer(id: JobId)

  function Step(s: State, e: Event): State {
    match e
    case Command(chat, args) => StartSession(s, chat, args).0
    case Timer(id) => Fire(s, id).0
  }

  /** The state after a sequence of events, each processed atomically. */
  function Run(s: State, events: seq<Event>): State
    decreases |events|
  {
    if |events| == 0 then s else Run(Step(s, events[0]), events[1..])
  }

  /** `start_session` never revives a cancelled job. */
  lemma {:induction false} StartSessionKeepsCancelled(s: State, chat: ChatId, args: seq<string>, id: JobId)
    requires Valid(s)
    requires id in s.jobs && s.jobs[id].status == Cancelled
    ensures var s' := StartSession(s, chat, args).0;
      id in s'.jobs && s'.jobs[id].status == Cancelled
  {
    if Accepted(args) {
      var cancelled := CancelAll(s.jobs, Listed(s, chat));
      assert id < s.nextId;
      assert StartSession(s, chat, args).0.jobs[id] == cancelled[id];
    }
  }

  /** One step keeps the invariant and never revives a cancelled job. */
  lemma {:induction false} StepKeepsCancelled(s: State, e: Event)
    requires Valid(s)
    ensures Valid(Step(s, e))
    ensures forall id :: id in s.jobs && s.jobs[id].status == Cancelled ==>
              id in Step(s, e).jobs && Step(s, e).jobs[id].status == Cancelled
  {
    match e {
      case Command(chat, args) =>
        StartSessionPreservesValid(s, chat, args);
        forall id | id in s.jobs && s.jobs[id].status == Cancelled
          ensures id in Step(s, e).jobs && Step(s, e).jobs[id].status == Cancelled
        {
          StartSessionKeepsCancelled(s, chat, args, id);
        }
      case Timer(id) =>
        FirePreservesValid(s, id);
    }
  }

  /** Every run keeps the invariant, and a cancelled job stays cancelled, so
      it never fires. */
  lemma {:induction false} RunKeepsCancelled(s: State, events: seq<Event>)
    requires Valid(s)
    ensures Valid(Run(s, events))
    ensures forall id :: id in s.jobs && s.jobs[id].status == Cancelled ==>
              id in Run(s, events).jobs && Run(s, events).jobs[id].status == Cancelled
    decreases |events|
  {
    if |events| > 0 {
      StepKeepsCancelled(s, events[0]);
      RunKeepsCancelled(Step(s, events[0]), events[1..]);
    }
  }

  /** `start_session` keeps every job with its chat, and a job that can no
      longer fire never can again. */
  lemma {:induction false} StartSessionKeepsRetired(s: State, chat: ChatId, args: seq<string>, id: JobId)
    requires Valid(s) && id in s.jobs
    ensures var s' := StartSession(s, chat, args).0;
      && id in s'.jobs && s'.jobs[id].chat == s.jobs[id].chat
      && (s.jobs[id].status != Scheduled ==> s'.jobs[id].status != Scheduled)
  {
    if Accepted(args) {
      var cancelled := CancelAll(s.jobs, Listed(s, chat));
      assert id < s.nextId;
      assert StartSession(s, chat, args).0.jobs[id] == cancelled[id];
    }
  }

  /** One event keeps every job with its chat, and a job that can no longer
      fire never can again. */
  lemma {:induction false} StepKeepsRetired(s: State, e: Event, id: JobId)
    requires Valid(s) && id in s.jobs
    ensures id in Step(s, e).jobs && Step(s, e).jobs[id].chat == s.jobs[id].chat
    ensures s.jobs[id].status != Scheduled ==> Step(s, e).jobs[id].status != Scheduled
  {
    match e {
      case Command(chat, args) =>
        StartSessionKeepsRetired(s, chat, args, id);
      case Timer(_) =>
    }
  }

  /** Any sequence of events keeps every job with its chat, and a job that
      can no longer fire never can again. */
  lemma {:induction false} RunKeepsRetired(s: State, events: seq<Event>, id: JobId)
    requires Valid(s) && id in s.jobs
    ensures id in Run(s, events).jobs && Run(s, events).jobs[id].chat == s.jobs[id].chat
    ensures s.jobs[id].status != Scheduled ==> Run(s, events).jobs[id].status != Scheduled
    decreases |events|
  {
    if |events| > 0 {
      StepKeepsRetired(s, events[0], id);
      StepKeepsCancelled(s, events[0]);
      RunKeepsRetired(Step(s, events[0]), events[1..], id);
    }
  }

  /** A superseded session never notifies: once the chat has started a
      second session, none of the first session's jobs sends anything when
      its timer elapses, whatever events came between the two starts and
      whatever events follow the second. */
  lemma {:induction false} SupersededJobsNeverFire(s: State, chat: ChatId, first: seq<string>, mid: seq<Event>,
                                second: seq<string>, events: seq<Event>, id: JobId)
    requires Valid(s) && Accepted(first) && Accepted(second)
    requires id in StartSession(s, chat, first).0.sessions[chat]
    ensures var s1 := Run(StartSession(s, chat, first).0, mid);
      var s2 := StartSession(s1, chat, second).0;
      Fire(Run(s2, events), id) == (Run(s2, events), None)
  {
    var s0 := StartSession(s, chat, first).0;
    var s1 := Run(s0, mid);
    var s2 := StartSession(s1, chat, second).0;
    StartSessionInstallsPlan(s, chat, first);
    StartSessionPreservesValid(s, chat, first);
    assert id in s0.jobs && s0.jobs[id].chat == chat;
    RunKeepsRetired(s0, mid, id);
    RunKeepsCancelled(s0, mid);
    StartSessionRetiresOldJobs(s1, chat, second, id);
    StartSessionPreservesValid(s1, chat, second);
    RunKeepsRetired(s2, events, id);
  }
}
