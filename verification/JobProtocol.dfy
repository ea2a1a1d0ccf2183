/** The queue as a protocol: workers holding claimed snapshots, crashes, webhooks that may be early,
    repeated or lost, and a reconciler, interleaved in any order on one set of job rows.  Every
    committed transaction is one step.

    Assumptions, each a guard in `Enabled`:
    - a worker commits an outcome before its lease runs out, or not at all;
    - the provider's final verdict on a transcript never changes, and its ids are fresh;
    - jobs are enqueued with max_attempts >= 1;
    - the clock does not go back. */
module JobProtocol {
  import opened Wrappers
  import opened DailyCap
  import opened Backoff
  import opened JobQueue
  import opened JobEngine

  type Ticket = nat

  // A worker at work: the snapshot it claimed and when its lease ends.
  datatype Claim = Claim(worker: WorkerId, job: ClaimedJob, until: real)

  // `reserved` (the day whose cap paid for a job's submission) and `errors` (job_errors rows per job)
  // record what the transactions did.
  datatype Sys = Sys(
    now: real, jobs: Jobs, claims: map<Ticket, Claim>, sweeps: set<(JobId, Option<TranscriptId>)>,
    usage: Usage, reserved: map<JobId, int>, errors: map<JobId, int>)

  // `maxDelay` bounds how far ahead of the clock a next attempt may be put: a day or the longest backoff.
  datatype Env = Env(config: Config, completes: TranscriptId -> bool, maxDelay: real) {
    predicate Ok()
    {
      && config.ladder.NonNegative() && config.cap >= 0 && config.lease >= 0.0 && config.overdue >= 0.0
      && maxDelay >= DAY && maxDelay >= MaxBackoff(config.ladder)
    }
  }

  datatype Action =
    | Wait(seconds: real)
    | Enqueue(id: JobId, portfolio: PortfolioId, maxAttempts: int)
    | ClaimRow(ticket: Ticket, worker: WorkerId, id: JobId)
    | Commit(ticket: Ticket, world: World, checkedAt: real)
    | Crash(ticket: Ticket)
    | WebhookCompleted(tid: TranscriptId)
    | WebhookError(tid: TranscriptId)
    | SelectOverdue(id: JobId)
    | SweepEntry(id: JobId, transcript: Option<TranscriptId>, status: PollStatus, reason: string)

  predicate Fresh(jobs: Jobs, tid: TranscriptId)
  {
    forall id <- jobs :: jobs[id].transcriptId != Some(tid)
  }

  // Everything but the lease: what lets a commit go through at all.
  predicate CanCommit(s: Sys, ticket: Ticket, w: World, checkedAt: real)
  {
    && ticket in s.claims && s.claims[ticket].job.id in s.jobs
    && checkedAt <= s.now && 0.0 <= w.rand <= 1.0
    && (w.submit.Ok? ==> Fresh(s.jobs, w.submit.value))
  }

  predicate Enabled(s: Sys, a: Action, env: Env)
  {
    match a
    case Wait(seconds) => seconds >= 0.0
    case Enqueue(id, _, maxAttempts) => id !in s.jobs && maxAttempts >= 1
    case ClaimRow(ticket, _, id) => ticket !in s.claims && id in s.jobs && Due(s.jobs[id], s.now)
    case Commit(ticket, w, checkedAt) => CanCommit(s, ticket, w, checkedAt) && s.now <= s.claims[ticket].until
    case Crash(ticket) => ticket in s.claims
    case WebhookCompleted(tid) => env.completes(tid)
    case WebhookError(tid) => !env.completes(tid)
    case SelectOverdue(id) => id in s.jobs && Overdue(s.jobs[id], s.now, env.config.overdue)
    case SweepEntry(id, tid, status, _) =>
      && (id, tid) in s.sweeps
      && (tid.Some? ==> (status.Ready? ==> env.completes(tid.value)) && (status.Error? ==> !env.completes(tid.value)))
  }

  function Committed(s: Sys, ticket: Ticket, w: World, checkedAt: real, env: Env): Sys
    requires CanCommit(s, ticket, w, checkedAt)
  {
    var c := s.claims[ticket].job;
    var (r, usage) := Handle(c, s.usage, env.config.cap, DayOf(checkedAt), w);
    var row := Applied(s.jobs[c.id], c, r, env.config.ladder, w.rand, s.now);
    var s' := s.(claims := s.claims - {ticket});
    if row.None? then s'
    else if r.Err? then
      s'.(jobs := s.jobs[c.id := row.value],
          errors := s.errors[c.id := 1 + if c.id in s.errors then s.errors[c.id] else 0])
    else
      s'.(jobs := s.jobs[c.id := row.value],
          usage := usage,
          reserved := if r.value.Park? && c.transcriptId.None? then s.reserved[c.id := DayOf(checkedAt)]
              else s.reserved)
  }

  function Next(s: Sys, a: Action, env: Env): Sys
    requires Enabled(s, a, env)
  {
    match a
    case Wait(seconds) => s.(now := s.now + seconds)
    case Enqueue(id, p, maxAttempts) =>
      s.(jobs := s.jobs[id := NewJob(p, maxAttempts, s.now)], errors := s.errors[id := 0])
    case ClaimRow(ticket, worker, id) =>
      s.(jobs := s.jobs[id := Leased(s.jobs[id], worker, env.config.lease, s.now)],
         claims := s.claims[ticket := Claim(worker, Snapshot(id, s.jobs[id]), s.now + env.config.lease)])
    case Commit(ticket, w, checkedAt) => Committed(s, ticket, w, checkedAt, env)
    case Crash(ticket) => s.(claims := s.claims - {ticket})
    case WebhookCompleted(tid) => s.(jobs := AdvanceAwaiting(s.jobs, tid, s.now))
    case WebhookError(tid) => s.(jobs := FailAwaiting(s.jobs, tid, "AssemblyAI returned error", s.now))
    case SelectOverdue(id) => s.(sweeps := s.sweeps + {(id, s.jobs[id].transcriptId)})
    case SweepEntry(id, tid, status, reason) =>
      s.(jobs := SweepRow(s.jobs, id, tid, status, reason, s.now), sweeps := s.sweeps - {(id, tid)})
  }

  const START := Sys(0.0, map[], map[], {}, map[], map[], map[])

  // ---- The invariant -----------------------------------------------------------------------------

  ghost predicate RowOk(j: Job, now: real, env: Env)
  {
    && 0 <= j.attempts <= j.maxAttempts && 1 <= j.maxAttempts
    && (!Terminal(j.state) ==> j.attempts < j.maxAttempts)
    && (j.lockedUntil.Some? <==> j.lockedBy.Some?)
    && (j.lockedUntil.Some? ==> Claimable(j.state) && j.lockedUntil.value <= now + env.config.lease)
    && (j.state.PendingTranscription? ==> j.transcriptId.None?)
    && (j.state.AwaitingTranscript? ==> j.transcriptId.Some?)
    && (j.state.PendingJudge? || j.state.Done? ==> j.transcriptId.Some? && env.completes(j.transcriptId.value))
    && j.nextAttemptAt <= now + env.maxDelay && j.updatedAt <= now
  }

  ghost predicate RowsOk(s: Sys, env: Env)
  {
    && (forall id <- s.jobs :: RowOk(s.jobs[id], s.now, env))
    && s.errors.Keys == s.jobs.Keys
    && forall id <- s.jobs :: s.errors[id] == s.jobs[id].attempts
  }

  ghost predicate TranscriptsDistinct(jobs: Jobs)
  {
    forall id, other | id in jobs && other in jobs && id != other ::
      jobs[id].transcriptId.None? || jobs[id].transcriptId != jobs[other].transcriptId
  }

  predicate Live(s: Sys, t: Ticket)
  {
    t in s.claims && s.now <= s.claims[t].until
  }

  // A live claim still owns its row, and its snapshot is what the row says.
  ghost predicate ClaimOk(s: Sys, t: Ticket)
    requires t in s.claims
  {
    var c := s.claims[t];
    && c.job.id in s.jobs
    && s.jobs[c.job.id].lockedBy == Some(c.worker) && s.jobs[c.job.id].lockedUntil == Some(c.until)
    && c.job == Snapshot(c.job.id, s.jobs[c.job.id])
  }

  ghost predicate ClaimsOk(s: Sys)
  {
    && (forall t | Live(s, t) :: ClaimOk(s, t))
    && forall t, u | Live(s, t) && Live(s, u) && t != u :: s.claims[t].job.id != s.claims[u].job.id
  }

  // A row a sweep has selected keeps its transcript; if that failed at the provider, the row can only
  // be parked or failed.
  ghost predicate SweepOk(s: Sys, entry: (JobId, Option<TranscriptId>), env: Env)
  {
    && entry.0 in s.jobs && entry.1.Some? && s.jobs[entry.0].transcriptId == entry.1
    && !s.jobs[entry.0].state.PendingTranscription?
    && (!env.completes(entry.1.value) ==> s.jobs[entry.0].state.AwaitingTranscript? || s.jobs[entry.0].state.Failed?)
  }

  ghost predicate SweepsOk(s: Sys, env: Env)
  {
    forall entry <- s.sweeps :: SweepOk(s, entry, env)
  }

  function PaidBy(jobs: Jobs, reserved: map<JobId, int>, key: (PortfolioId, int)): set<JobId>
  {
    set id | id in reserved && id in jobs && (jobs[id].portfolio, reserved[id]) == key
  }

  // The counter of a portfolio's day is the number of jobs whose submission it paid for, and stays
  // within the cap; exactly the submitted jobs were paid for.
  ghost predicate UsageOk(s: Sys, env: Env)
  {
    && (forall id :: id in s.reserved <==> id in s.jobs && s.jobs[id].transcriptId.Some?)
    && forall key: (PortfolioId, int) ::
         Count(s.usage, key) == |PaidBy(s.jobs, s.reserved, key)| && Count(s.usage, key) <= env.config.cap
  }

  ghost predicate Inv(s: Sys, env: Env)
  {
    && env.Ok() && RowsOk(s, env) && TranscriptsDistinct(s.jobs) && ClaimsOk(s) && SweepsOk(s, env) && UsageOk(s, env)
  }

  // ---- The invariant is kept by every step -------------------------------------------------------

  lemma StartInv(env: Env)
    requires env.Ok()
    ensures Inv(START, env)
  {
    forall key: (PortfolioId, int)
      ensures Count(START.usage, key) == |PaidBy(START.jobs, START.reserved, key)|
    {
      assert PaidBy(START.jobs, START.reserved, key) == {};
    }
  }

  // Steps that change rows but neither portfolios nor transcript ids keep the usage accounts.
  lemma SamePayments(s: Sys, s': Sys, env: Env)
    requires UsageOk(s, env)
    requires s'.usage == s.usage && s'.reserved == s.reserved && s'.jobs.Keys == s.jobs.Keys
    requires forall id <- s.jobs ::
               s'.jobs[id].portfolio == s.jobs[id].portfolio && s'.jobs[id].transcriptId == s.jobs[id].transcriptId
    ensures UsageOk(s', env)
  {
    forall key: (PortfolioId, int)
      ensures PaidBy(s'.jobs, s'.reserved, key) == PaidBy(s.jobs, s.reserved, key)
    {}
  }

  lemma WaitKeepsInv(s: Sys, seconds: real, env: Env)
    requires Inv(s, env) && Enabled(s, Wait(seconds), env)
    ensures Inv(Next(s, Wait(seconds), env), env)
  {
    var s' := Next(s, Wait(seconds), env);
    forall t | Live(s', t)
      ensures ClaimOk(s', t)
    {
      assert Live(s, t);
    }
    assert forall t | Live(s', t) :: Live(s, t);
    assert forall entry <- s'.sweeps :: SweepOk(s, entry, env);
    SamePayments(s, s', env);
  }

  // Writing one row.
  lemma RowWrite(s: Sys, s': Sys, id: JobId, j: Job, env: Env)
    requires RowsOk(s, env) && s'.jobs == s.jobs[id := j] && s'.errors == s.errors[id := j.attempts] && s'.now == s.now
    requires RowOk(j, s.now, env)
    ensures RowsOk(s', env)
  {
    forall other | other in s'.jobs
      ensures RowOk(s'.jobs[other], s'.now, env) && s'.errors[other] == s'.jobs[other].attempts
    {
      if other != id { assert RowOk(s.jobs[other], s.now, env); }
    }
  }

  lemma TranscriptWrite(jobs: Jobs, id: JobId, j: Job)
    requires TranscriptsDistinct(jobs)
    requires j.transcriptId.None? || Fresh(jobs, j.transcriptId.value)
        || (id in jobs && j.transcriptId == jobs[id].transcriptId)
    ensures TranscriptsDistinct(jobs[id := j])
  {}

  // A row outside every live claim may be written or added.
  lemma ClaimsUntouched(s: Sys, s': Sys, id: JobId, j: Job)
    requires ClaimsOk(s) && s'.jobs == s.jobs[id := j] && s'.now == s.now
    requires forall t | Live(s', t) :: t in s.claims && s'.claims[t] == s.claims[t] && s.claims[t].job.id != id
    ensures ClaimsOk(s')
  {
    forall t | Live(s', t)
      ensures ClaimOk(s', t)
    {
      assert Live(s, t) && ClaimOk(s, t);
    }
    assert forall t | Live(s', t) :: Live(s, t);
  }

  // A claimable row may be written: no sweep has one, or its transcript was completed.
  lemma SweepWrite(s: Sys, s': Sys, id: JobId, j: Job, env: Env)
    requires SweepsOk(s, env) && s'.jobs == s.jobs[id := j] && s'.sweeps == s.sweeps
    requires id in s.jobs ==> Claimable(s.jobs[id].state)
    requires id in s.jobs && s.jobs[id].state.PendingJudge? ==>
               && s.jobs[id].transcriptId.Some? && env.completes(s.jobs[id].transcriptId.value)
               && j.transcriptId == s.jobs[id].transcriptId && !j.state.PendingTranscription?
    ensures SweepsOk(s', env)
  {
    forall entry | entry in s'.sweeps
      ensures SweepOk(s', entry, env)
    {
      assert SweepOk(s, entry, env);
    }
  }

  lemma EnqueueKeepsUsage(s: Sys, s': Sys, id: JobId, j: Job, env: Env)
    requires UsageOk(s, env) && id !in s.jobs && j.transcriptId.None? && s'.jobs == s.jobs[id := j]
    requires s'.usage == s.usage && s'.reserved == s.reserved
    ensures UsageOk(s', env)
  {
    forall key: (PortfolioId, int)
      ensures PaidBy(s'.jobs, s'.reserved, key) == PaidBy(s.jobs, s.reserved, key)
    {}
  }

  lemma EnqueueKeepsInv(s: Sys, a: Action, env: Env)
    requires Inv(s, env) && a.Enqueue? && Enabled(s, a, env)
    ensures Inv(Next(s, a, env), env)
  {
    var j, s' := NewJob(a.portfolio, a.maxAttempts, s.now), Next(s, a, env);
    assert RowOk(j, s.now, env);
    RowWrite(s, s', a.id, j, env);
    TranscriptWrite(s.jobs, a.id, j);
    assert forall t | Live(s', t) :: ClaimOk(s, t);
    ClaimsUntouched(s, s', a.id, j);
    SweepWrite(s, s', a.id, j, env);
    EnqueueKeepsUsage(s, s', a.id, j, env);
  }

  // A due row is in no live claim, so leasing it makes one more and disturbs none.
  lemma LeaseKeepsClaims(s: Sys, s': Sys, a: Action, env: Env)
    requires ClaimsOk(s) && a.ClaimRow? && Enabled(s, a, env) && s' == Next(s, a, env)
    ensures ClaimsOk(s')
  {
    forall t | Live(s', t) && t != a.ticket
      ensures ClaimOk(s', t) && s'.claims[t].job.id != a.id
    {
      assert Live(s, t) && ClaimOk(s, t);
    }
    assert ClaimOk(s', a.ticket);
    assert forall t | Live(s', t) :: t == a.ticket || Live(s, t);
  }

  lemma ClaimKeepsInv(s: Sys, a: Action, env: Env)
    requires Inv(s, env) && a.ClaimRow? && Enabled(s, a, env)
    ensures Inv(Next(s, a, env), env)
  {
    var s' := Next(s, a, env);
    var j, j' := s.jobs[a.id], s'.jobs[a.id];
    assert RowOk(j, s.now, env) && RowOk(j', s.now, env);
    assert s.errors[a.id] == j.attempts && s.errors[a.id := j.attempts] == s.errors;
    RowWrite(s, s', a.id, j', env);
    TranscriptWrite(s.jobs, a.id, j');
    LeaseKeepsClaims(s, s', a, env);
    SweepWrite(s, s', a.id, j', env);
    SamePayments(s, s', env);
  }

  lemma CrashKeepsInv(s: Sys, ticket: Ticket, env: Env)
    requires Inv(s, env) && Enabled(s, Crash(ticket), env)
    ensures Inv(Next(s, Crash(ticket), env), env)
  {
    var s' := Next(s, Crash(ticket), env);
    forall t | Live(s', t)
      ensures ClaimOk(s', t)
    {
      assert Live(s, t);
    }
    assert forall t | Live(s', t) :: Live(s, t);
    assert forall entry <- s'.sweeps :: SweepOk(s, entry, env);
    SamePayments(s, s', env);
  }

  lemma SelectKeepsInv(s: Sys, id: JobId, env: Env)
    requires Inv(s, env) && Enabled(s, SelectOverdue(id), env)
    ensures Inv(Next(s, SelectOverdue(id), env), env)
  {
    var s' := Next(s, SelectOverdue(id), env);
    assert RowOk(s.jobs[id], s.now, env);
    forall entry | entry in s'.sweeps
      ensures SweepOk(s', entry, env)
    {
      if entry in s.sweeps { assert SweepOk(s, entry, env); }
    }
    forall t | Live(s', t)
      ensures ClaimOk(s', t)
    {
      assert Live(s, t);
    }
    assert forall t | Live(s', t) :: Live(s, t);
    SamePayments(s, s', env);
  }

  // After a webhook nothing waits for its transcript any more: every row that did is due for judging, or
  // failed; no other row changes, and a repeated webhook changes nothing.
  lemma WebhookSettles(s: Sys, tid: TranscriptId, env: Env)
    ensures var a := if env.completes(tid) then WebhookCompleted(tid) else WebhookError(tid);
            && Enabled(s, a, env)
            && var s' := Next(s, a, env);
               && s'.jobs.Keys == s.jobs.Keys
               && (forall id <- s.jobs ::
                     var j, j' := s.jobs[id], s'.jobs[id];
                     if j.state == AwaitingTranscript && j.transcriptId == Some(tid) then
                       && j'.attempts == j.attempts && j'.transcriptId == j.transcriptId
                       && (if env.completes(tid) then j'.state == PendingJudge && Due(j', s.now)
                           else j'.state == Failed)
                     else j' == j)
               && Next(s', a, env).jobs == s'.jobs
  {}

  // The writes of webhooks and sweeps: they leave claimable rows as they are (up to `updatedAt`) and
  // move parked rows the way their transcript's verdict says.
  ghost predicate ProviderWrite(j: Job, j': Job, now: real, env: Env)
  {
    && j'.portfolio == j.portfolio && j'.transcriptId == j.transcriptId
    && j'.attempts == j.attempts && j'.maxAttempts == j.maxAttempts
    && j.updatedAt <= j'.updatedAt <= now
    && (j'.lockedUntil.Some? <==> j'.lockedBy.Some?)
    && j'.nextAttemptAt <= (if j.nextAttemptAt <= now then now else j.nextAttemptAt)
    && (j'.state == j.state ||
        (j.state.AwaitingTranscript? && j.transcriptId.Some? &&
           if env.completes(j.transcriptId.value) then j'.state.PendingJudge? else j'.state.Failed?))
    && ((j'.lockedUntil == j.lockedUntil && j'.lockedBy == j.lockedBy) || j'.lockedUntil.None?)
    && (Claimable(j.state) ==> j'.lockedUntil == j.lockedUntil && j'.lockedBy == j.lockedBy)
  }

  lemma ProviderWriteKeepsRow(j: Job, j': Job, now: real, env: Env)
    requires env.Ok() && RowOk(j, now, env) && ProviderWrite(j, j', now, env)
    ensures RowOk(j', now, env)
  {}

  lemma ProviderWritesKeepRows(s: Sys, s': Sys, env: Env)
    requires env.Ok() && RowsOk(s, env) && TranscriptsDistinct(s.jobs)
    requires s'.now == s.now && s'.errors == s.errors && s'.jobs.Keys == s.jobs.Keys
    requires forall id <- s.jobs :: ProviderWrite(s.jobs[id], s'.jobs[id], s.now, env)
    ensures RowsOk(s', env) && TranscriptsDistinct(s'.jobs)
  {
    forall id | id in s'.jobs
      ensures RowOk(s'.jobs[id], s'.now, env) && s'.errors[id] == s'.jobs[id].attempts
      ensures s'.jobs[id].transcriptId == s.jobs[id].transcriptId
    {
      assert ProviderWrite(s.jobs[id], s'.jobs[id], s.now, env);
      ProviderWriteKeepsRow(s.jobs[id], s'.jobs[id], s.now, env);
    }
  }

  lemma ProviderWritesKeepHolders(s: Sys, s': Sys, env: Env)
    requires env.Ok() && RowsOk(s, env) && ClaimsOk(s) && SweepsOk(s, env)
    requires s'.now == s.now && s'.claims == s.claims && s'.sweeps <= s.sweeps && s'.jobs.Keys == s.jobs.Keys
    requires forall id <- s.jobs :: ProviderWrite(s.jobs[id], s'.jobs[id], s.now, env)
    ensures ClaimsOk(s') && SweepsOk(s', env)
  {
    forall t | Live(s', t)
      ensures ClaimOk(s', t)
    {
      assert Live(s, t) && ClaimOk(s, t);
      var id := s.claims[t].job.id;
      assert RowOk(s.jobs[id], s.now, env) && ProviderWrite(s.jobs[id], s'.jobs[id], s.now, env);
    }
    assert forall t | Live(s', t) :: Live(s, t);
    forall entry | entry in s'.sweeps
      ensures SweepOk(s', entry, env)
    {
      assert SweepOk(s, entry, env) && ProviderWrite(s.jobs[entry.0], s'.jobs[entry.0], s.now, env);
    }
  }

  lemma ProviderWritesKeepInv(s: Sys, s': Sys, env: Env)
    requires Inv(s, env)
    requires s' == s.(jobs := s'.jobs, sweeps := s'.sweeps) && s'.sweeps <= s.sweeps
    requires s'.jobs.Keys == s.jobs.Keys
    requires forall id <- s.jobs :: ProviderWrite(s.jobs[id], s'.jobs[id], s.now, env)
    ensures Inv(s', env)
  {
    ProviderWritesKeepRows(s, s', env);
    ProviderWritesKeepHolders(s, s', env);
    assert forall id <- s.jobs :: ProviderWrite(s.jobs[id], s'.jobs[id], s.now, env);
    SamePayments(s, s', env);
  }

  lemma RowWrites(j: Job, now: real, env: Env)
    requires RowOk(j, now, env)
    ensures ProviderWrite(j, j, now, env) && ProviderWrite(j, j.(updatedAt := now), now, env)
    ensures j.state.AwaitingTranscript? && env.completes(j.transcriptId.value) ==>
              ProviderWrite(j, Advanced(j, now), now, env)
    ensures forall reason ::
              (j.state.AwaitingTranscript? && !env.completes(j.transcriptId.value)) || j.state.Failed? ==>
                ProviderWrite(j, MarkedFailed(j, reason, now), now, env)
  {}

  lemma WebhookWrites(s: Sys, a: Action, env: Env)
    requires RowsOk(s, env) && (a.WebhookCompleted? || a.WebhookError?) && Enabled(s, a, env)
    ensures Next(s, a, env).jobs.Keys == s.jobs.Keys
    ensures forall id <- s.jobs :: ProviderWrite(s.jobs[id], Next(s, a, env).jobs[id], s.now, env)
  {
    forall id | id in s.jobs
      ensures ProviderWrite(s.jobs[id], Next(s, a, env).jobs[id], s.now, env)
    {
      RowWrites(s.jobs[id], s.now, env);
    }
  }

  // In particular the "parked without transcript_id" branch of the sweep is never taken, and marking
  // a row failed by id alone hits a parked row or one that has failed already.
  lemma SweepWrites(s: Sys, a: Action, env: Env)
    requires RowsOk(s, env) && SweepsOk(s, env) && a.SweepEntry? && Enabled(s, a, env)
    ensures a.transcript.Some?
    ensures Next(s, a, env).jobs.Keys == s.jobs.Keys
    ensures forall id <- s.jobs :: ProviderWrite(s.jobs[id], Next(s, a, env).jobs[id], s.now, env)
  {
    assert SweepOk(s, (a.id, a.transcript), env);
    forall id | id in s.jobs
      ensures ProviderWrite(s.jobs[id], Next(s, a, env).jobs[id], s.now, env)
    {
      RowWrites(s.jobs[id], s.now, env);
    }
  }

  // What the handlers can come back with for a row the engine claims.
  lemma HandlerOutcomes(c: ClaimedJob, usage: Usage, cap: int, today: int, w: World)
    requires Claimable(c.state) && (c.state.PendingTranscription? ==> c.transcriptId.None?)
    ensures var (r, usage') := Handle(c, usage, cap, today, w);
            && (r.Ok? && r.value.Park? ==>
                  && c.state.PendingTranscription? && w.submit.Ok? && r.value.tid == w.submit.value
                  && Upsert(usage, (c.portfolio, today), cap).0.allowed
                  && usage' == Upsert(usage, (c.portfolio, today), cap).1)
            && (r.Ok? && r.value.Complete? ==> c.state.PendingJudge?)
            && (r.Ok? && !r.value.Park? ==> usage' == usage)
  {}

  // What the engine writes, when the snapshot agrees with the row.
  lemma AppliedRow(j: Job, c: ClaimedJob, r: HandlerResult, env: Env, rand: real, now: real)
    requires env.Ok() && RowOk(j, now, env) && Claimable(j.state) && c == Snapshot(c.id, j) && 0.0 <= rand <= 1.0
    requires r.Ok? && r.value.Park? ==> j.state.PendingTranscription?
    requires r.Ok? && r.value.Complete? ==> j.state.PendingJudge?
    ensures var row := Applied(j, c, r, env.config.ladder, rand, now);
            && row.Some? && RowOk(row.value, now, env) && row.value.lockedUntil.None?
            && row.value.portfolio == j.portfolio && row.value.maxAttempts == j.maxAttempts
            && (row.value.state == j.state || CanTransition(j.state, row.value.state))
            && row.value.attempts == (if r.Err? then j.attempts + 1 else j.attempts)
            && row.value.transcriptId == if r.Ok? && r.value.Park? then Some(r.value.tid) else j.transcriptId
  {
    if r.Err? { BackoffBounds(c.attempts + 1, env.config.ladder, rand); }
  }

  // A commit with a live lease: legality checked against the snapshot is legality of the row.
  lemma CommitRow(s: Sys, a: Action, env: Env)
    requires Inv(s, env) && a.Commit? && Enabled(s, a, env)
    ensures var c := s.claims[a.ticket].job;
            var (r, usage) := Handle(c, s.usage, env.config.cap, DayOf(a.checkedAt), a.world);
            var row := Applied(s.jobs[c.id], c, r, env.config.ladder, a.world.rand, s.now);
            && ClaimOk(s, a.ticket) && Claimable(s.jobs[c.id].state) && row.Some? && RowOk(row.value, s.now, env)
            && (row.value.state == s.jobs[c.id].state || CanTransition(s.jobs[c.id].state, row.value.state))
            && row.value.portfolio == c.portfolio && row.value.maxAttempts == c.maxAttempts
                && row.value.lockedUntil.None?
            && row.value.attempts == (if r.Err? then c.attempts + 1 else c.attempts)
            && row.value.transcriptId == (if r.Ok? && r.value.Park? then Some(r.value.tid) else c.transcriptId)
            && (r.Ok? && r.value.Park? ==>
                  && c.transcriptId.None? && Fresh(s.jobs, r.value.tid)
                  && Upsert(s.usage, (c.portfolio, DayOf(a.checkedAt)), env.config.cap).0.allowed
                  && usage == Upsert(s.usage, (c.portfolio, DayOf(a.checkedAt)), env.config.cap).1)
            && (r.Ok? && !r.value.Park? ==> usage == s.usage)
            && Next(s, a, env) == s.(
                 claims := s.claims - {a.ticket}, jobs := s.jobs[c.id := row.value],
                 errors := s.errors[c.id := row.value.attempts],
                 usage := if r.Ok? then usage else s.usage,
                 reserved := if r.Ok? && r.value.Park? then s.reserved[c.id := DayOf(a.checkedAt)] else s.reserved)
  {
    assert Live(s, a.ticket) && ClaimOk(s, a.ticket);
    var c := s.claims[a.ticket].job;
    var j := s.jobs[c.id];
    assert RowOk(j, s.now, env);
    HandlerOutcomes(c, s.usage, env.config.cap, DayOf(a.checkedAt), a.world);
    var (r, usage) := Handle(c, s.usage, env.config.cap, DayOf(a.checkedAt), a.world);
    AppliedRow(j, c, r, env, a.world.rand, s.now);
    assert s.errors[c.id] == j.attempts;
    if r.Ok? { assert s.errors[c.id := j.attempts] == s.errors; }
  }

  lemma PaidGrows(jobs: Jobs, reserved: map<JobId, int>, id: JobId, j: Job, day: int, key: (PortfolioId, int))
    requires id in jobs && id !in reserved && j.portfolio == jobs[id].portfolio
    ensures PaidBy(jobs[id := j], reserved[id := day], key)
         == PaidBy(jobs, reserved, key) + if key == (j.portfolio, day) then {id} else {}
    ensures id !in PaidBy(jobs, reserved, key)
  {}

  // A reservation is committed together with the parking it paid for.
  lemma PaymentKeepsUsage(s: Sys, s': Sys, id: JobId, j: Job, day: int, env: Env)
    requires UsageOk(s, env) && id in s.jobs && s.jobs[id].transcriptId.None? && j.transcriptId.Some?
    requires j.portfolio == s.jobs[id].portfolio
    requires Upsert(s.usage, (j.portfolio, day), env.config.cap).0.allowed
    requires s'.usage == Upsert(s.usage, (j.portfolio, day), env.config.cap).1
    requires s'.jobs == s.jobs[id := j] && s'.reserved == s.reserved[id := day]
    ensures UsageOk(s', env)
  {
    forall key: (PortfolioId, int)
      ensures Count(s'.usage, key) == |PaidBy(s'.jobs, s'.reserved, key)| && Count(s'.usage, key) <= env.config.cap
    {
      PaidGrows(s.jobs, s.reserved, id, j, day, key);
      assert Count(s.usage, key) == |PaidBy(s.jobs, s.reserved, key)|;
    }
  }

  lemma CommitKeepsRows(s: Sys, a: Action, env: Env)
    requires Inv(s, env) && a.Commit? && Enabled(s, a, env)
    ensures RowsOk(Next(s, a, env), env) && TranscriptsDistinct(Next(s, a, env).jobs)
  {
    CommitRow(s, a, env);
    var s', c := Next(s, a, env), s.claims[a.ticket].job;
    RowWrite(s, s', c.id, s'.jobs[c.id], env);
    TranscriptWrite(s.jobs, c.id, s'.jobs[c.id]);
  }

  lemma CommitKeepsHolders(s: Sys, a: Action, env: Env)
    requires Inv(s, env) && a.Commit? && Enabled(s, a, env)
    ensures ClaimsOk(Next(s, a, env)) && SweepsOk(Next(s, a, env), env)
  {
    CommitRow(s, a, env);
    var s', c := Next(s, a, env), s.claims[a.ticket].job;
    assert RowOk(s.jobs[c.id], s.now, env) && Live(s, a.ticket);
    assert forall t | Live(s', t) :: Live(s, t) && t != a.ticket;
    ClaimsUntouched(s, s', c.id, s'.jobs[c.id]);
    SweepWrite(s, s', c.id, s'.jobs[c.id], env);
  }

  lemma CommitKeepsUsage(s: Sys, a: Action, env: Env)
    requires Inv(s, env) && a.Commit? && Enabled(s, a, env)
    ensures UsageOk(Next(s, a, env), env)
  {
    CommitRow(s, a, env);
    var s', c, day := Next(s, a, env), s.claims[a.ticket].job, DayOf(a.checkedAt);
    var (r, usage) := Handle(c, s.usage, env.config.cap, day, a.world);
    if r.Ok? && r.value.Park? {
      PaymentKeepsUsage(s, s', c.id, s'.jobs[c.id], day, env);
    } else {
      SamePayments(s, s', env);
    }
  }

  lemma NextKeepsInv(s: Sys, a: Action, env: Env)
    requires Inv(s, env) && Enabled(s, a, env)
    ensures Inv(Next(s, a, env), env)
  {
    match a
    case Wait(seconds) => WaitKeepsInv(s, seconds, env);
    case Enqueue(_, _, _) => EnqueueKeepsInv(s, a, env);
    case ClaimRow(_, _, _) => ClaimKeepsInv(s, a, env);
    case Commit(_, _, _) =>
      CommitKeepsRows(s, a, env);
      CommitKeepsHolders(s, a, env);
      CommitKeepsUsage(s, a, env);
    case Crash(ticket) => CrashKeepsInv(s, ticket, env);
    case WebhookCompleted(_) =>
      WebhookWrites(s, a, env);
      ProviderWritesKeepInv(s, Next(s, a, env), env);
    case WebhookError(_) =>
      WebhookWrites(s, a, env);
      ProviderWritesKeepInv(s, Next(s, a, env), env);
    case SelectOverdue(id) => SelectKeepsInv(s, id, env);
    case SweepEntry(_, _, _, _) =>
      SweepWrites(s, a, env);
      ProviderWritesKeepInv(s, Next(s, a, env), env);
  }
}
