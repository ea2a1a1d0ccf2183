/** One claimed job's step: the handlers, the failure policy and `process_one`
    (backend/app/orchestration/handlers.py, retry.py, engine.py). */
module JobEngine {
  import opened Wrappers
  import opened DailyCap
  import opened Backoff
  import opened JobQueue

  // An exception out of a handler; only a FatalError is not worth retrying.
  datatype HandlerError = HandlerError(fatal: bool, message: string)

  datatype StepOutcome = Park(tid: TranscriptId) | Complete | Deferred(reason: string)

  type HandlerResult = Result<StepOutcome, HandlerError>

  // What the outside world answers during one step.  `fetch` says whether the provider marked the
  // transcript redacted; `rawOnly` is a call whose option needs no judging; `judge` is how that pass failed.
  datatype World = World(
    recordingExists: bool, submit: Result<TranscriptId, HandlerError>, transcriptStored: bool,
    fetch: Result<bool, HandlerError>, wantsRedacted: bool, rawOnly: bool, judge: Option<HandlerError>, rand: real)

  datatype Config = Config(ladder: Ladder, cap: int, lease: real, overdue: real)

  // ---- Handlers ----------------------------------------------------------------------------------

  // What a step returns or raises, and the usage table as its transaction would leave it.
  function Handle(c: ClaimedJob, usage: Usage, cap: int, today: int, w: World): (HandlerResult, Usage)
  {
    if c.state.PendingTranscription? then
      if c.transcriptId.Some? then (Ok(Park(c.transcriptId.value)), usage)
      else if !w.recordingExists then (Err(HandlerError(true, "recording not found")), usage)
      else
        var (d, reserved) := Upsert(usage, (c.portfolio, today), cap);
        if !d.allowed then (Ok(Deferred("daily limit reached")), reserved)
        else if w.submit.Ok? then (Ok(Park(w.submit.value)), reserved)
        else (Err(w.submit.error), reserved)
    else if c.state.PendingJudge? then
      if !w.transcriptStored && c.transcriptId.None? then (Err(HandlerError(true, "no transcript_id")), usage)
      else if !w.transcriptStored && w.fetch.Err? then (Err(w.fetch.error), usage)
      else if !w.transcriptStored && w.wantsRedacted && !w.fetch.value then
        (Err(HandlerError(true, "unredacted transcript")), usage)
      else if !w.rawOnly && w.judge.Some? then (Err(w.judge.value), usage)
      else (Ok(Complete), usage)
    else (Err(HandlerError(true, "unhandled state")), usage)
  }

  // With redaction on, a job completes only on a transcript stored before or one the provider redacted,
  // and one that is not is the end of the job.
  lemma OnlyRedactedIsJudged(c: ClaimedJob, usage: Usage, cap: int, today: int, w: World)
    requires c.state.PendingJudge? && w.wantsRedacted && !w.transcriptStored
    ensures var r := Handle(c, usage, cap, today, w).0;
      && (r.Ok? ==> r.value.Complete? && w.fetch == Ok(true))
      && (c.transcriptId.Some? && w.fetch == Ok(false) ==> r.Err? && r.error.fatal)
  {}

  // ---- Failure policy ----------------------------------------------------------------------------

  datatype Decision = Retry(delay: real, attempts: int) | GiveUp(reason: string, attempts: int)

  function DecideFailure(attemptsBefore: int, maxAttempts: int, e: HandlerError, l: Ladder, rand: real): Decision
  {
    var attempts := attemptsBefore + 1;
    if e.fatal then GiveUp("fatal: " + e.message, attempts)
    else if attempts >= maxAttempts then GiveUp("max attempts exhausted: " + e.message, attempts)
    else Retry(ComputeBackoff(attempts, l, rand), attempts)
  }

  // A step is retried exactly if it may succeed later and an attempt is left, within the longest backoff.
  lemma RetriedExactlyWhen(attemptsBefore: int, maxAttempts: int, e: HandlerError, l: Ladder, rand: real)
    requires l.NonNegative() && 0.0 <= rand <= 1.0
    ensures var d := DecideFailure(attemptsBefore, maxAttempts, e, l, rand);
            && d.attempts == attemptsBefore + 1
            && (d.Retry? <==> !e.fatal && attemptsBefore + 1 < maxAttempts)
            && (d.Retry? ==> 0.0 <= d.delay <= MaxBackoff(l))
  {
    BackoffBounds(attemptsBefore + 1, l, rand);
  }

  // The engine judges legality by the claimed snapshot.
  predicate Allowed(c: ClaimedJob, outcome: StepOutcome)
  {
    match outcome
    case Park(_) => CanTransition(c.state, AwaitingTranscript)
    case Complete => CanTransition(c.state, Done)
    case Deferred(_) => true
  }

  // The row after the step, or None when the engine rejects the transition and nothing is committed.
  // Legality is judged by the claimed snapshot `c`, the write goes to the row `j` whatever it holds.
  function Applied(j: Job, c: ClaimedJob, r: HandlerResult, l: Ladder, rand: real, now: real): Option<Job>
  {
    match r
    case Ok(Park(tid)) =>
      if CanTransition(c.state, AwaitingTranscript) then Some(Parked(j, tid, now)) else None
    case Ok(Complete) =>
      if CanTransition(c.state, Done) then Some(Completed(j, now)) else None
    case Ok(Deferred(reason)) => Some(Postponed(j, NextUtcMidnight(now), reason, now))
    case Err(e) =>
      match DecideFailure(c.attempts, c.maxAttempts, e, l, rand)
      case Retry(delay, attempts) => Some(Rescheduled(j, attempts, now + delay, e.message, now))
      case GiveUp(reason, attempts) => Some(DeadLettered(j, attempts, reason, now))
  }

  // The table after the step; a step that is rejected, or whose row is gone, changes nothing.
  function WrittenTo(jobs: Jobs, c: ClaimedJob, r: HandlerResult, l: Ladder, rand: real, now: real): Jobs
  {
    if c.id in jobs && Applied(jobs[c.id], c, r, l, rand, now).Some?
    then jobs[c.id := Applied(jobs[c.id], c, r, l, rand, now).value] else jobs
  }

  // ---- The engine --------------------------------------------------------------------------------

  datatype JobError = JobError(job: JobId, stage: JobState, attempt: int, fatal: bool)

  function ErrorRow(c: ClaimedJob, e: HandlerError, l: Ladder, rand: real): JobError
  {
    JobError(c.id, c.state, c.attempts + 1, DecideFailure(c.attempts, c.maxAttempts, e, l, rand).GiveUp?)
  }

  // ---- What one step does, said of the claim and the answers alone ---------------------------------

  // The transcript is at hand: stored before, or fetched now, and redacted where that is wanted.
  predicate TranscriptReady(c: ClaimedJob, w: World)
  {
    w.transcriptStored || (c.transcriptId.Some? && w.fetch.Ok? && (w.wantsRedacted ==> w.fetch.value))
  }

  predicate JudgeSucceeds(c: ClaimedJob, w: World)
  {
    TranscriptReady(c, w) && (w.rawOnly || w.judge.None?)
  }

  // No retry helps: there is no transcript to fetch, it is not redacted, or the service said so.
  predicate JudgeIsFatal(c: ClaimedJob, w: World)
  {
    if TranscriptReady(c, w) then w.judge.Some? && w.judge.value.fatal
    else c.transcriptId.None? || (if w.fetch.Ok? then true else w.fetch.error.fatal)
  }

  // What the service's own error says; the handler's checks word theirs themselves.
  function JudgeSays(c: ClaimedJob, w: World): Option<string>
  {
    if TranscriptReady(c, w) then (if w.judge.Some? then Some(w.judge.value.message) else None)
    else if c.transcriptId.Some? && w.fetch.Err? then Some(w.fetch.error.message)
    else None
  }

  // The row keeps what a step does not decide, and is free.
  predicate Settled(j: Job, j': Job, now: real)
  {
    && j'.lockedBy.None? && j'.lockedUntil.None? && j'.updatedAt == now
    && j'.portfolio == j.portfolio && j'.maxAttempts == j.maxAttempts
  }

  // One more error row and attempt; the end of the job if nothing helps or the attempts are spent, else
  // the same state, due again after the ladder's delay.
  predicate FailsAs(c: ClaimedJob, fatal: bool, message: Option<string>, j: Job, j': Job, errors: seq<JobError>,
          errors': seq<JobError>, l: Ladder, rand: real, now: real)
  {
    var over := fatal || c.attempts + 1 >= c.maxAttempts;
    && errors' == errors + [JobError(c.id, c.state, c.attempts + 1, over)]
    && Settled(j, j', now) && j'.attempts == c.attempts + 1 && j'.transcriptId == j.transcriptId && j'.lastError.Some?
    && (message.Some? ==> j'.lastError.value == (if fatal then "fatal: " else if over then "max attempts exhausted: "
                                                 else "") + message.value)
    && if over then j'.state.Failed?
       else j'.state == j.state && Jitters(c.attempts + 1, l, rand, j'.nextAttemptAt - now)
  }

  ghost predicate Tomorrow(now: real, t: real)
  {
    DayOf(t) == DayOf(now) + 1 && forall u: real | now <= u < t :: DayOf(u) == DayOf(now)
  }

  // A claim whose row is there and is what the snapshot says, and whose step touches no other row.
  predicate OneRow(c: ClaimedJob, jobs: Jobs, jobs': Jobs)
  {
    && c.id in jobs && c.id in jobs' && jobs' == jobs[c.id := jobs'[c.id]]
  }

  // Judging: DONE exactly if the transcript is at hand and the option needs no judging or the pass worked;
  // a failure otherwise.  Nothing is paid for.
  predicate JudgeStep(c: ClaimedJob, w: World, jobs: Jobs, jobs': Jobs, usage: Usage, usage': Usage,
          errors: seq<JobError>, errors': seq<JobError>, l: Ladder, now: real)
  {
    c.state.PendingJudge? && c.id in jobs && c == Snapshot(c.id, jobs[c.id]) ==>
      && OneRow(c, jobs, jobs') && usage' == usage
      && var j, j' := jobs[c.id], jobs'[c.id];
         && (j'.state.Done? <==> JudgeSucceeds(c, w))
         && (if JudgeSucceeds(c, w) then
               errors' == errors && j' == j.(state := Done, lastError := None, lockedBy := None, lockedUntil := None,
                                             updatedAt := now)
             else FailsAs(c, JudgeIsFatal(c, w), JudgeSays(c, w), j, j', errors, errors', l, w.rand, now))
  }

  // Submitting: parked if it was submitted before or is now, put off to the next UTC day if the day's cap
  // is reached, and a failure otherwise; the counter grows by one exactly if a submission was paid for.
  ghost predicate SubmitStep(c: ClaimedJob, w: World, jobs: Jobs, jobs': Jobs, usage: Usage, usage': Usage,
          errors: seq<JobError>, errors': seq<JobError>, cap: int, l: Ladder, now: real)
  {
    c.state.PendingTranscription? && c.id in jobs && c == Snapshot(c.id, jobs[c.id]) ==>
      var key := (c.portfolio, DayOf(now));
      var room, again := Count(usage, key) < cap, c.transcriptId.Some?;
      var submitted := !again && w.recordingExists && room && w.submit.Ok?;
      && OneRow(c, jobs, jobs')
      && (forall k :: Count(usage', k) == Count(usage, k) + if k == key && submitted then 1 else 0)
      && var j, j' := jobs[c.id], jobs'[c.id];
         && (j'.state.AwaitingTranscript? <==> again || submitted)
         && (if again || submitted then
               && errors' == errors && Settled(j, j', now) && j'.attempts == j.attempts && j'.lastError.None?
               && j'.transcriptId == (if again then c.transcriptId else Some(w.submit.value))
             else if w.recordingExists && !room then
               && errors' == errors && Settled(j, j', now) && j'.attempts == j.attempts && j'.state == j.state
               && j'.transcriptId == j.transcriptId && Tomorrow(now, j'.nextAttemptAt)
             else FailsAs(c, !w.recordingExists || w.submit.error.fatal,
                          if w.recordingExists then Some(w.submit.error.message) else None, j, j', errors, errors', l,
                          w.rand, now))
  }

  lemma FailureFails(c: ClaimedJob, e: HandlerError, j: Job, l: Ladder, rand: real, now: real, errors: seq<JobError>)
    requires c == Snapshot(c.id, j)
    ensures Applied(j, c, Err(e), l, rand, now).Some?
    ensures FailsAs(c, e.fatal, Some(e.message), j, Applied(j, c, Err(e), l, rand, now).value, errors,
                    errors + [ErrorRow(c, e, l, rand)], l, rand, now)
  {
    BackoffJitters(c.attempts + 1, l, rand);
    var j' := Applied(j, c, Err(e), l, rand, now).value;
    assert !e.fatal && c.attempts + 1 < c.maxAttempts ==>
        j'.nextAttemptAt - now == ComputeBackoff(c.attempts + 1, l, rand);
  }

  lemma JudgeStepIs(c: ClaimedJob, w: World, jobs: Jobs, usage: Usage, errors: seq<JobError>, cap: int, l: Ladder,
          now: real)
    requires c.state.PendingJudge? && c.id in jobs && c == Snapshot(c.id, jobs[c.id])
    ensures var r := Handle(c, usage, cap, DayOf(now), w).0;
            && (r.Ok? ==> Allowed(c, r.value))
            && JudgeStep(c, w, jobs, WrittenTo(jobs, c, r, l, w.rand, now), usage, usage, errors,
                         if r.Err? then errors + [ErrorRow(c, r.error, l, w.rand)] else errors, l, now)
  {
    var r := Handle(c, usage, cap, DayOf(now), w).0;
    if r.Err? { FailureFails(c, r.error, jobs[c.id], l, w.rand, now, errors); }
  }

  lemma SubmitStepIs(c: ClaimedJob, w: World, jobs: Jobs, usage: Usage, errors: seq<JobError>, cap: int, l: Ladder,
          now: real)
    requires c.state.PendingTranscription? && c.id in jobs && c == Snapshot(c.id, jobs[c.id])
    ensures var (r, after) := Handle(c, usage, cap, DayOf(now), w);
            && (r.Ok? ==> Allowed(c, r.value))
            && SubmitStep(c, w, jobs, WrittenTo(jobs, c, r, l, w.rand, now), usage, if r.Ok? then after else usage,
                          errors, if r.Err? then errors + [ErrorRow(c, r.error, l, w.rand)] else errors, cap, l, now)
  {
    var r := Handle(c, usage, cap, DayOf(now), w).0;
    if r.Err? { FailureFails(c, r.error, jobs[c.id], l, w.rand, now, errors); }
    assert Tomorrow(now, NextUtcMidnight(now));
  }

  // What `ProcessOne` leaves: the rows, the counters and the error rows.
  function Processed(c: ClaimedJob, w: World, jobs: Jobs, usage: Usage, errors: seq<JobError>, config: Config,
          now: real): (bool, Jobs, Usage, seq<JobError>)
  {
    var (r, after) := Handle(c, usage, config.cap, DayOf(now), w);
    if (if r.Ok? then Allowed(c, r.value) else c.id in jobs) then
      (true, WrittenTo(jobs, c, r, config.ladder, w.rand, now), if r.Ok? then after else usage,
       if r.Err? then errors + [ErrorRow(c, r.error, config.ladder, w.rand)] else errors)
    else (false, jobs, usage, errors)
  }

  lemma StepsAreTold(c: ClaimedJob, w: World, jobs: Jobs, usage: Usage, errors: seq<JobError>, config: Config,
          now: real)
    ensures var (_, jobs', usage', errors') := Processed(c, w, jobs, usage, errors, config, now);
            && JudgeStep(c, w, jobs, jobs', usage, usage', errors, errors', config.ladder, now)
            && SubmitStep(c, w, jobs, jobs', usage, usage', errors, errors', config.cap, config.ladder, now)
  {
    if c.id in jobs && c == Snapshot(c.id, jobs[c.id]) {
      if c.state.PendingJudge? { JudgeStepIs(c, w, jobs, usage, errors, config.cap, config.ladder, now); }
      if c.state.PendingTranscription? { SubmitStepIs(c, w, jobs, usage, errors, config.cap, config.ladder, now); }
    }
  }

  class Engine {
    const table: JobTable
    const store: PostgresDailyUsageStore
    const config: Config
    var errors: seq<JobError>

    constructor (table: JobTable, store: PostgresDailyUsageStore, config: Config)
      ensures this.table == table && this.store == store && this.config == config && errors == []
    {
      this.table, this.store, this.config, errors := table, store, config, [];
    }

    method HandleTranscription(c: ClaimedJob, w: World, now: real) returns (r: HandlerResult)
      requires c.state.PendingTranscription?
      modifies store
      ensures (r, store.rows) == Handle(c, old(store.rows), config.cap, DayOf(now), w)
    {
      if c.transcriptId.Some? { return Ok(Park(c.transcriptId.value)); }
      if !w.recordingExists { return Err(HandlerError(true, "recording not found")); }
      var d := store.TryIncrement(c.portfolio, DayOf(now), config.cap);
      if !d.allowed { return Ok(Deferred("daily limit reached")); }
      match w.submit
      case Ok(tid) => return Ok(Park(tid));
      case Err(e) => return Err(e);
    }

    method HandleJudge(c: ClaimedJob, w: World) returns (r: HandlerResult)
      requires c.state.PendingJudge?
      ensures forall usage, cap, today :: Handle(c, usage, cap, today, w) == (r, usage)
    {
      if !w.transcriptStored {
        if c.transcriptId.None? { return Err(HandlerError(true, "no transcript_id")); }
        match w.fetch {
          case Err(e) => return Err(e);
          case Ok(redacted) =>
            if w.wantsRedacted && !redacted { return Err(HandlerError(true, "unredacted transcript")); }
        }
      }
      if w.rawOnly { return Ok(Complete); }
      if w.judge.Some? { return Err(w.judge.value); }
      return Ok(Complete);
    }

    // One transaction.  A handler's exception rolls back what it wrote (its reservation) before the
    // failure is recorded; a rejected transition rolls back everything.  If the row is gone, an outcome's
    // write matches nothing, and a failure cannot be recorded and rolls back everything.
    method ProcessOne(c: ClaimedJob, w: World, now: real) returns (committed: bool)
      modifies this`errors, table`rows, store
      ensures (committed, table.rows, store.rows, errors)
           == Processed(c, w, old(table.rows), old(store.rows), old(errors), config, now)
      ensures JudgeStep(c, w, old(table.rows), table.rows, old(store.rows), store.rows, old(errors), errors,
                        config.ladder, now)
      ensures SubmitStep(c, w, old(table.rows), table.rows, old(store.rows), store.rows, old(errors), errors,
                         config.cap, config.ladder, now)
    {
      StepsAreTold(c, w, table.rows, store.rows, errors, config, now);
      var r: HandlerResult;
      var savedUsage := store.rows;
      match c.state {
        case PendingTranscription => r := HandleTranscription(c, w, now);
        case PendingJudge => r := HandleJudge(c, w);
        case _ => r := Err(HandlerError(true, "unhandled state"));
      }
      if r.Err? {
        store.rows := savedUsage;
        committed := ApplyFailure(c, r.error, w.rand, now);
        return;
      }
      committed := ApplyOutcome(c, r.value, now);
      if !committed { store.rows := savedUsage; }
    }

    method ApplyOutcome(c: ClaimedJob, outcome: StepOutcome, now: real) returns (ok: bool)
      modifies table`rows
      ensures ok <==> Allowed(c, outcome)
      ensures ok <==>
        outcome.Deferred? || (outcome.Park? && c.state == PendingTranscription)
        || (outcome.Complete? && c.state == PendingJudge)
      ensures table.rows == if ok then WrittenTo(old(table.rows), c, Ok(outcome), config.ladder, 0.0, now)
                            else old(table.rows)
    {
      match outcome
      case Park(tid) =>
        if !CanTransition(c.state, AwaitingTranscript) { return false; }
        table.Park(c.id, tid, now);
        return true;
      case Complete =>
        if !CanTransition(c.state, Done) { return false; }
        table.Complete(c.id, now);
        return true;
      case Deferred(reason) =>
        table.Defer(c.id, NextUtcMidnight(now), reason, now);
        return true;
    }

    // The error row refers to the job's row, so it cannot be stored without it.
    method ApplyFailure(c: ClaimedJob, e: HandlerError, rand: real, now: real) returns (ok: bool)
      modifies this`errors, table`rows
      ensures ok <==> c.id in old(table.rows)
      ensures table.rows == WrittenTo(old(table.rows), c, Err(e), config.ladder, rand, now)
      ensures errors == if ok then old(errors) + [ErrorRow(c, e, config.ladder, rand)] else old(errors)
    {
      if c.id !in table.rows { return false; }
      var decision := DecideFailure(c.attempts, c.maxAttempts, e, config.ladder, rand);
      errors := errors + [JobError(c.id, c.state, c.attempts + 1, decision.GiveUp?)];
      match decision {
        case Retry(delay, attempts) => table.ScheduleRetry(c.id, attempts, now + delay, e.message, now);
        case GiveUp(reason, attempts) => table.DeadLetter(c.id, attempts, reason, now);
      }
      return true;
    }

    // The reconciler's sweep (`run_once`): poll every overdue parked transcript once.
    method RunOnce(poll: TranscriptId -> PollStatus, reason: TranscriptId -> string, now: real) returns (recovered: nat)
      requires table.Valid()
      modifies table`rows
      ensures var found := OverdueInOrder(table.order, old(table.rows), config.overdue, now);
              && table.rows == Swept(old(table.rows), found, poll, reason, now)
              && recovered == Recovered(old(table.rows), found, poll, reason, now)
    {
      var found := table.FindOverdueAwaiting(config.overdue, now);
      recovered := 0;
      ghost var before := table.rows;
      for i := 0 to |found|
        invariant Swept(before, found, poll, reason, now) == Swept(table.rows, found[i..], poll, reason, now)
        invariant Recovered(before, found, poll, reason, now) ==
            recovered + Recovered(table.rows, found[i..], poll, reason, now)
      {
        assert found[i..][0] == found[i] && found[i..][1..] == found[i + 1..];
        var advanced := SweepOne(found[i].0, found[i].1, poll, reason, now);
        if advanced { recovered := recovered + 1; }
      }
    }

    method SweepOne(id: JobId, tid: Option<TranscriptId>, poll: TranscriptId -> PollStatus,
            reason: TranscriptId -> string, now: real)
      returns (advanced: bool)
      modifies table`rows
      ensures table.rows == SweptRow(old(table.rows), id, tid, poll, reason, now)
      ensures table.rows.Keys == old(table.rows.Keys)
      ensures forall r <- table.rows ::
        var j, j' := old(table.rows)[r], table.rows[r];
        if tid.Some? && poll(tid.value) == Ready then
          if j.state == AwaitingTranscript && j.transcriptId == tid
          then j'.state == PendingJudge && j'.nextAttemptAt == now else j' == j
        else if r != id then j' == j
        else if tid.Some? && poll(tid.value) == Processing then j' == j.(updatedAt := now)
        else j'.state == Failed && j'.attempts == j.attempts && (tid.Some? ==> j'.lastError == Some(reason(tid.value)))
      ensures advanced <==>
        && tid.Some? && poll(tid.value).Ready?
        && exists r <- old(table.rows) :: AwaitsTranscript(old(table.rows)[r], tid.value)
    {
      advanced := false;
      if tid.None? {
        table.MarkFailed(id, "parked without transcript_id", now);
      } else {
        match poll(tid.value)
        case Ready => advanced := table.AdvanceToJudgeByTranscript(tid.value, now);
        case Error => table.MarkFailed(id, reason(tid.value), now);
        case Processing => table.Touch(id, now);
      }
    }
  }

  function SweptRow(jobs: Jobs, id: JobId, tid: Option<TranscriptId>, poll: TranscriptId -> PollStatus,
          reason: TranscriptId -> string, now: real): Jobs
  {
    if tid.None? then SweepRow(jobs, id, tid, Processing, "", now)
    else SweepRow(jobs, id, tid, poll(tid.value), reason(tid.value), now)
  }

  function Swept(jobs: Jobs, found: seq<(JobId, Option<TranscriptId>)>, poll: TranscriptId -> PollStatus,
          reason: TranscriptId -> string, now: real): Jobs
    decreases |found|
  {
    if found == [] then jobs
    else Swept(SweptRow(jobs, found[0].0, found[0].1, poll, reason, now), found[1..], poll, reason, now)
  }

  // How many polls moved a row on.
  function Recovered(jobs: Jobs, found: seq<(JobId, Option<TranscriptId>)>, poll: TranscriptId -> PollStatus,
          reason: TranscriptId -> string, now: real): nat
    decreases |found|
  {
    if found == [] then 0 else
    var (id, tid) := found[0];
    (if tid.Some? && poll(tid.value).Ready? && exists r <- jobs :: AwaitsTranscript(jobs[r], tid.value) then 1 else 0)
    + Recovered(SweptRow(jobs, id, tid, poll, reason, now), found[1..], poll, reason, now)
  }
}
