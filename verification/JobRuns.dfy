/** What holds over whole runs of the protocol. */
module JobRuns {
  import opened Wrappers
  import opened DailyCap
  import opened JobQueue
  import opened JobEngine
  import opened JobProtocol

  predicate Runs(s: Sys, actions: seq<Action>, env: Env)
    decreases |actions|
  {
    actions == [] || (Enabled(s, actions[0], env) && Runs(Next(s, actions[0], env), actions[1..], env))
  }

  function End(s: Sys, actions: seq<Action>, env: Env): Sys
    requires Runs(s, actions, env)
    decreases |actions|
  {
    if actions == [] then s else End(Next(s, actions[0], env), actions[1..], env)
  }

  lemma {:induction false} RunKeepsInv(s: Sys, actions: seq<Action>, env: Env)
    requires Inv(s, env) && Runs(s, actions, env)
    ensures Inv(End(s, actions, env), env)
    decreases |actions|
  {
    if actions != [] {
      NextKeepsInv(s, actions[0], env);
      RunKeepsInv(Next(s, actions[0], env), actions[1..], env);
    }
  }

  lemma Reachable(actions: seq<Action>, env: Env)
    requires env.Ok() && Runs(START, actions, env)
    ensures Inv(End(START, actions, env), env)
  {
    StartInv(env);
    RunKeepsInv(START, actions, env);
  }

  // ---- Legal transitions and progress ------------------------------------------------------------

  function StagesLeft(s: JobState): nat
  {
    match s
    case PendingTranscription => 3
    case AwaitingTranscript => 2
    case PendingJudge => 1
    case _ => 0
  }

  // The graph's edges: to the very next stage, or to FAILED from any unfinished one.
  lemma EdgesAreOneStage(src: JobState, dst: JobState)
    ensures CanTransition(src, dst) <==>
            (src.PendingTranscription? || src.AwaitingTranscript? || src.PendingJudge?)
            && (dst.Failed? || StagesLeft(src) == StagesLeft(dst) + 1)
  {}

  // State changes and retries a job can still make.
  function StepsLeft(j: Job): int
  {
    if Terminal(j.state) then 0 else StagesLeft(j.state) + j.maxAttempts - 1 - j.attempts
  }

  predicate Moved(j: Job, j': Job)
  {
    j'.state != j.state || j'.attempts != j.attempts
  }

  // What any one step may do to a row.
  ghost predicate LegalChange(j: Job, j': Job)
  {
    && (j'.state == j.state || CanTransition(j.state, j'.state))
    && (Terminal(j.state) ==> j'.attempts == j.attempts)
    && (j.transcriptId.Some? ==> j'.transcriptId == j.transcriptId)
    && j'.portfolio == j.portfolio && j'.maxAttempts == j.maxAttempts && j.attempts <= j'.attempts
    && StepsLeft(j') + (if Moved(j, j') then 1 else 0) <= StepsLeft(j)
  }

  lemma ProviderWriteIsLegal(j: Job, j': Job, now: real, env: Env)
    requires RowOk(j, now, env) && ProviderWrite(j, j', now, env)
    ensures LegalChange(j, j')
  {}

  lemma CommitIsLegal(s: Sys, a: Action, env: Env)
    requires Inv(s, env) && a.Commit? && Enabled(s, a, env)
    ensures var id := s.claims[a.ticket].job.id; LegalChange(s.jobs[id], Next(s, a, env).jobs[id])
  {
    CommitRow(s, a, env);
    assert RowOk(s.jobs[s.claims[a.ticket].job.id], s.now, env);
  }

  lemma ProviderStepIsLegal(s: Sys, a: Action, id: JobId, env: Env)
    requires Inv(s, env) && (a.WebhookCompleted? || a.WebhookError? || a.SweepEntry?) && Enabled(s, a, env)
        && id in s.jobs
    ensures id in Next(s, a, env).jobs && LegalChange(s.jobs[id], Next(s, a, env).jobs[id])
  {
    assert RowOk(s.jobs[id], s.now, env);
    if a.SweepEntry? { SweepWrites(s, a, env); } else { WebhookWrites(s, a, env); }
    ProviderWriteIsLegal(s.jobs[id], Next(s, a, env).jobs[id], s.now, env);
  }

  lemma CommitLeavesOthers(s: Sys, a: Action, id: JobId, env: Env)
    requires a.Commit? && Enabled(s, a, env) && id in s.jobs
    ensures id in Next(s, a, env).jobs
    ensures id != s.claims[a.ticket].job.id ==> LegalChange(s.jobs[id], Next(s, a, env).jobs[id])
  {}

  lemma OtherStepIsLegal(s: Sys, a: Action, id: JobId, env: Env)
    requires Enabled(s, a, env) && id in s.jobs
    requires a.Wait? || a.Enqueue? || a.ClaimRow? || a.Crash? || a.SelectOverdue?
    ensures id in Next(s, a, env).jobs && LegalChange(s.jobs[id], Next(s, a, env).jobs[id])
  {
    assert Next(s, a, env).jobs[id] == s.jobs[id]
        || Next(s, a, env).jobs[id] == Leased(s.jobs[id], a.worker, env.config.lease, s.now);
  }

  // Every committed change of a row is one the transition table allows, whichever worker, webhook or
  // sweep made it; terminal rows keep their state and attempts; and progress is never undone.
  lemma EveryStepIsLegal(s: Sys, a: Action, id: JobId, env: Env)
    requires Inv(s, env) && Enabled(s, a, env) && id in s.jobs
    ensures id in Next(s, a, env).jobs && LegalChange(s.jobs[id], Next(s, a, env).jobs[id])
  {
    if a.WebhookCompleted? || a.WebhookError? || a.SweepEntry? {
      ProviderStepIsLegal(s, a, id, env);
    } else if a.Commit? {
      CommitIsLegal(s, a, env);
      CommitLeavesOthers(s, a, id, env);
    } else {
      OtherStepIsLegal(s, a, id, env);
    }
  }

  lemma StagesNeverGrow(s: Sys, a: Action, id: JobId, env: Env)
    requires Inv(s, env) && Enabled(s, a, env) && id in s.jobs
    ensures id in Next(s, a, env).jobs
    ensures StagesLeft(Next(s, a, env).jobs[id].state) <= StagesLeft(s.jobs[id].state)
    ensures s.jobs[id].transcriptId.Some? ==> Next(s, a, env).jobs[id].transcriptId == s.jobs[id].transcriptId
  {
    EveryStepIsLegal(s, a, id, env);
  }

  // DONE and FAILED are absorbing.
  lemma {:induction false} TerminalIsForever(s: Sys, actions: seq<Action>, id: JobId, env: Env)
    requires Inv(s, env) && Runs(s, actions, env) && id in s.jobs && Terminal(s.jobs[id].state)
    ensures id in End(s, actions, env).jobs
    ensures End(s, actions, env).jobs[id].state == s.jobs[id].state
    ensures End(s, actions, env).jobs[id].attempts == s.jobs[id].attempts
    decreases |actions|
  {
    if actions != [] {
      NextKeepsInv(s, actions[0], env);
      EveryStepIsLegal(s, actions[0], id, env);
      TerminalIsForever(Next(s, actions[0], env), actions[1..], id, env);
    }
  }

  // The committed retries and state changes of one job in a run.
  function Moves(s: Sys, actions: seq<Action>, id: JobId, env: Env): nat
    requires Runs(s, actions, env)
    decreases |actions|
  {
    if actions == [] then 0 else
    var s' := Next(s, actions[0], env);
    (if id in s.jobs && id in s'.jobs && Moved(s.jobs[id], s'.jobs[id]) then 1 else 0)
    + Moves(s', actions[1..], id, env)
  }

  lemma {:induction false} MovesAreBounded(s: Sys, actions: seq<Action>, id: JobId, env: Env)
    requires Inv(s, env) && Runs(s, actions, env) && id in s.jobs
    ensures Moves(s, actions, id, env) <= StepsLeft(s.jobs[id])
    decreases |actions|
  {
    assert RowOk(s.jobs[id], s.now, env);
    if actions != [] {
      NextKeepsInv(s, actions[0], env);
      EveryStepIsLegal(s, actions[0], id, env);
      MovesAreBounded(Next(s, actions[0], env), actions[1..], id, env);
    }
  }

  // From the moment it is enqueued, however long the run, a job sees at most max_attempts + 2
  // committed retries and state changes.
  lemma MovesOfOneJob(s: Sys, a: Action, actions: seq<Action>, env: Env)
    requires Inv(s, env) && a.Enqueue? && Enabled(s, a, env) && Runs(Next(s, a, env), actions, env)
    ensures Moves(Next(s, a, env), actions, a.id, env) <= a.maxAttempts + 2
  {
    NextKeepsInv(s, a, env);
    MovesAreBounded(Next(s, a, env), actions, a.id, env);
  }

  // ---- Webhooks and sweeps -----------------------------------------------------------------------

  // How often a run moves a job from AWAITING_TRANSCRIPT to PENDING_JUDGE.
  function Advances(s: Sys, actions: seq<Action>, id: JobId, env: Env): nat
    requires Runs(s, actions, env)
    decreases |actions|
  {
    if actions == [] then 0 else
    var s' := Next(s, actions[0], env);
    (if id in s.jobs && id in s'.jobs && s.jobs[id].state.AwaitingTranscript? && s'.jobs[id].state.PendingJudge? then 1
        else 0)
    + Advances(s', actions[1..], id, env)
  }

  // Redelivered, early or lost webhooks and any number of sweeps advance a job at most once.
  lemma {:induction false} AdvancedAtMostOnce(s: Sys, actions: seq<Action>, id: JobId, env: Env)
    requires Inv(s, env) && Runs(s, actions, env)
    ensures Advances(s, actions, id, env) <= 1
    ensures id in s.jobs && StagesLeft(s.jobs[id].state) < 2 ==> Advances(s, actions, id, env) == 0
    decreases |actions|
  {
    if actions != [] {
      NextKeepsInv(s, actions[0], env);
      if id in s.jobs { StagesNeverGrow(s, actions[0], id, env); }
      AdvancedAtMostOnce(Next(s, actions[0], env), actions[1..], id, env);
    }
  }

  lemma {:induction false} ParkedOrFurther(s: Sys, actions: seq<Action>, id: JobId, env: Env)
    requires Inv(s, env) && Runs(s, actions, env) && id in s.jobs && s.jobs[id].transcriptId.Some?
    ensures var s' := End(s, actions, env);
            && id in s'.jobs && s'.jobs[id].transcriptId == s.jobs[id].transcriptId
            && StagesLeft(s'.jobs[id].state) <= StagesLeft(s.jobs[id].state)
    decreases |actions|
  {
    if actions != [] {
      NextKeepsInv(s, actions[0], env);
      StagesNeverGrow(s, actions[0], id, env);
      ParkedOrFurther(Next(s, actions[0], env), actions[1..], id, env);
    }
  }

  // A lost webhook is recovered by one sweep: once an overdue row has been selected, whatever happens
  // before its poll answers "ready", after that write the job is no longer waiting for its
  // transcript, and if it still was, it is due for judging at once.
  lemma SweepRecovers(s: Sys, id: JobId, between: seq<Action>, reason: string, env: Env)
    requires Inv(s, env) && Enabled(s, SelectOverdue(id), env)
    requires s.jobs[id].transcriptId.Some? && env.completes(s.jobs[id].transcriptId.value)
    requires Runs(Next(s, SelectOverdue(id), env), between, env)
    ensures var s' := End(Next(s, SelectOverdue(id), env), between, env);
            var poll := SweepEntry(id, s.jobs[id].transcriptId, Ready, reason);
            && id in s'.jobs
            && ((id, s.jobs[id].transcriptId) in s'.sweeps ==>
                  && Enabled(s', poll, env) && id in Next(s', poll, env).jobs
                  && StagesLeft(Next(s', poll, env).jobs[id].state) <= 1
                  && (s'.jobs[id].state.AwaitingTranscript? ==> Due(Next(s', poll, env).jobs[id], s'.now)))
  {
    NextKeepsInv(s, SelectOverdue(id), env);
    ParkedOrFurther(Next(s, SelectOverdue(id), env), between, id, env);
  }

  // The reconciler's own loop over a table that satisfies the invariant: each overdue row is moved
  // as its poll says, no other row is touched, and `recovered` counts the ready ones.
  ghost predicate AllParked(jobs: Jobs, found: seq<(JobId, Option<TranscriptId>)>)
  {
    && (forall f <- found :: f.0 in jobs && f.1.Some? && AwaitsTranscript(jobs[f.0], f.1.value))
    && forall i, j | 0 <= i < j < |found| :: found[i].0 != found[j].0
  }

  function CountReady(found: seq<(JobId, Option<TranscriptId>)>, poll: TranscriptId -> PollStatus): nat
  {
    if found == [] then 0
    else (if found[0].1.Some? && poll(found[0].1.value).Ready? then 1 else 0) + CountReady(found[1..], poll)
  }

  function PolledRow(j: Job, status: PollStatus, reason: string, now: real): Job
  {
    match status
    case Ready => Advanced(j, now)
    case Error => MarkedFailed(j, reason, now)
    case Processing => j.(updatedAt := now)
  }

  lemma SweepTouchesOneRow(jobs: Jobs, id: JobId, tid: TranscriptId, status: PollStatus, reason: string, now: real)
    requires TranscriptsDistinct(jobs) && id in jobs && AwaitsTranscript(jobs[id], tid)
    ensures SweepRow(jobs, id, Some(tid), status, reason, now) == jobs[id := PolledRow(jobs[id], status, reason, now)]
    ensures TranscriptsDistinct(SweepRow(jobs, id, Some(tid), status, reason, now))
  {
    assert forall other | other in jobs && other != id :: !AwaitsTranscript(jobs[other], tid);
  }

  lemma RestStaysParked(jobs: Jobs, found: seq<(JobId, Option<TranscriptId>)>, poll: TranscriptId -> PollStatus,
          reason: TranscriptId -> string, now: real)
    requires TranscriptsDistinct(jobs) && AllParked(jobs, found) && found != []
    ensures var (id, tid) := found[0];
            var jobs' := SweptRow(jobs, id, tid, poll, reason, now);
            && id in jobs && tid.Some? && AwaitsTranscript(jobs[id], tid.value)
            && jobs' == jobs[id := PolledRow(jobs[id], poll(tid.value), reason(tid.value), now)]
            && TranscriptsDistinct(jobs') && AllParked(jobs', found[1..])
            && forall f <- found[1..] :: f.0 != id && f.0 in jobs && jobs'[f.0] == jobs[f.0]
  {
    assert found[0] in found && forall f <- found[1..] :: f in found;
    SweepTouchesOneRow(jobs, found[0].0, found[0].1.value, poll(found[0].1.value), reason(found[0].1.value), now);
  }

  lemma {:induction false} SweptRows(jobs: Jobs, found: seq<(JobId, Option<TranscriptId>)>,
          poll: TranscriptId -> PollStatus, reason: TranscriptId -> string, now: real)
    requires TranscriptsDistinct(jobs) && AllParked(jobs, found)
    ensures var swept := Swept(jobs, found, poll, reason, now);
            && swept.Keys == jobs.Keys
            && (forall f <- found :: swept[f.0] == PolledRow(jobs[f.0], poll(f.1.value), reason(f.1.value), now))
            && (forall id <- jobs :: (forall f <- found :: f.0 != id) ==> swept[id] == jobs[id])
    decreases |found|
  {
    if found != [] {
      var head, rest := found[0], found[1..];
      RestStaysParked(jobs, found, poll, reason, now);
      var jobs' := SweptRow(jobs, head.0, head.1, poll, reason, now);
      SweptRows(jobs', rest, poll, reason, now);
      assert forall f <- found :: f == head || f in rest;
    }
  }

  lemma {:induction false} RecoveredIsReady(jobs: Jobs, found: seq<(JobId, Option<TranscriptId>)>,
          poll: TranscriptId -> PollStatus, reason: TranscriptId -> string, now: real)
    requires TranscriptsDistinct(jobs) && AllParked(jobs, found)
    ensures Recovered(jobs, found, poll, reason, now) == CountReady(found, poll)
    decreases |found|
  {
    if found != [] {
      RestStaysParked(jobs, found, poll, reason, now);
      RecoveredIsReady(SweptRow(jobs, found[0].0, found[0].1, poll, reason, now), found[1..], poll, reason, now);
    }
  }

  lemma SweepEffect(jobs: Jobs, found: seq<(JobId, Option<TranscriptId>)>, poll: TranscriptId -> PollStatus,
          reason: TranscriptId -> string, now: real)
    requires TranscriptsDistinct(jobs) && AllParked(jobs, found)
    ensures var swept := Swept(jobs, found, poll, reason, now);
            && swept.Keys == jobs.Keys
            && (forall f <- found :: swept[f.0] == PolledRow(jobs[f.0], poll(f.1.value), reason(f.1.value), now))
            && (forall id <- jobs :: (forall f <- found :: f.0 != id) ==> swept[id] == jobs[id])
    ensures Recovered(jobs, found, poll, reason, now) == CountReady(found, poll)
  {
    SweptRows(jobs, found, poll, reason, now);
    RecoveredIsReady(jobs, found, poll, reason, now);
  }

  // ---- No stranded job ---------------------------------------------------------------------------

  // The time after which a row that nobody touches is eligible: for a claim, or for a sweep.
  function EligibleAfter(j: Job, env: Env): real
  {
    if j.state.AwaitingTranscript? then j.updatedAt + env.config.overdue
    else if j.lockedUntil.Some? && j.lockedUntil.value > j.nextAttemptAt then j.lockedUntil.value
    else j.nextAttemptAt
  }

  // In every reachable state a lease is held only in a claimable state, every parked row has a
  // transcript, and every unfinished row becomes eligible within a bound that does not depend on the
  // run: the larger of a day or the longest backoff, the lease, and the overdue window.
  lemma NoStrandedJob(actions: seq<Action>, id: JobId, env: Env)
    requires env.Ok() && Runs(START, actions, env) && id in End(START, actions, env).jobs
    ensures var s := End(START, actions, env);
            var j := s.jobs[id];
            && (j.lockedUntil.Some? ==> Claimable(j.state))
            && (j.state.AwaitingTranscript? ==> j.transcriptId.Some?)
            && (!Terminal(j.state) ==>
                  && EligibleAfter(j, env) <= s.now + env.maxDelay + env.config.lease + env.config.overdue
                  && forall t | t > EligibleAfter(j, env) :: Due(j, t) || Overdue(j, t, env.config.overdue))
  {
    Reachable(actions, env);
    assert RowOk(End(START, actions, env).jobs[id], End(START, actions, env).now, env);
  }

  // ---- Exclusion, attempts and the cap, over every run --------------------------------------------

  // At most one worker acts on a job at a time, and what it claimed is what the row still says.
  lemma LiveClaimsAreExclusive(actions: seq<Action>, t: Ticket, u: Ticket, env: Env)
    requires env.Ok() && Runs(START, actions, env)
    requires Live(End(START, actions, env), t) && Live(End(START, actions, env), u)
    ensures var s := End(START, actions, env);
            var id := s.claims[t].job.id;
            && (s.claims[u].job.id == id ==> t == u)
            && id in s.jobs && s.claims[t].job == Snapshot(id, s.jobs[id]) && Claimable(s.jobs[id].state)
  {
    Reachable(actions, env);
    var s := End(START, actions, env);
    assert ClaimOk(s, t);
    assert RowOk(s.jobs[s.claims[t].job.id], s.now, env);
  }

  // One job_errors row per attempt spent; attempts never exceed max_attempts, and a job that has
  // spent them all is finished.
  lemma AttemptsAreAccounted(actions: seq<Action>, id: JobId, env: Env)
    requires env.Ok() && Runs(START, actions, env) && id in End(START, actions, env).jobs
    ensures var s := End(START, actions, env);
            && id in s.errors && s.errors[id] == s.jobs[id].attempts <= s.jobs[id].maxAttempts
            && (s.jobs[id].attempts == s.jobs[id].maxAttempts ==> Terminal(s.jobs[id].state))
  {
    Reachable(actions, env);
    assert RowOk(End(START, actions, env).jobs[id], End(START, actions, env).now, env);
  }

  // The counter of each portfolio and day is the number of submissions committed against it, whatever
  // failed, crashed or was deferred in between, and never exceeds the cap.
  lemma DailyCapIsConserved(actions: seq<Action>, key: (PortfolioId, int), env: Env)
    requires env.Ok() && Runs(START, actions, env)
    ensures var s := End(START, actions, env);
            && Count(s.usage, key) == |PaidBy(s.jobs, s.reserved, key)| <= env.config.cap
            && forall id <- s.jobs :: s.jobs[id].transcriptId.Some? <==> id in s.reserved
  {
    Reachable(actions, env);
  }

  // ---- Why the lease assumption is needed ---------------------------------------------------------

  const COMPLETES := World(true, Err(HandlerError(false, "")), true, Ok(true), false, false, None, 0.0)

  const FAILS := COMPLETES.(judge := Some(HandlerError(true, "late")))

  lemma RunOfOne(s: Sys, a: Action, env: Env)
    requires Enabled(s, a, env)
    ensures Runs(s, [a], env) && End(s, [a], env) == Next(s, a, env)
  {
    var s1, none := Next(s, a, env), [a][1..];
    assert none == [] && Runs(s1, none, env) && End(s1, none, env) == s1;
  }

  lemma RunOfTwo(s: Sys, a: Action, b: Action, env: Env)
    requires Enabled(s, a, env) && Enabled(Next(s, a, env), b, env)
    ensures Runs(s, [a, b], env) && End(s, [a, b], env) == Next(Next(s, a, env), b, env)
  {
    assert [a, b][1..] == [b];
    RunOfOne(Next(s, a, env), b, env);
  }

  lemma ClaimLapses(s: Sys, id: JobId, t: Ticket, env: Env)
    requires Inv(s, env) && id in s.jobs && s.jobs[id].state.PendingJudge? && Due(s.jobs[id], s.now) && t !in s.claims
    ensures var run := [ClaimRow(t, 0, id), Wait(env.config.lease + 1.0)];
            && Runs(s, run, env)
            && var s' := End(s, run, env);
               && id in s'.jobs && s'.jobs[id].state.PendingJudge? && Due(s'.jobs[id], s'.now)
               && s'.claims.Keys == s.claims.Keys + {t} && s'.claims[t].job == Snapshot(id, s.jobs[id])
               && s'.claims[t].until < s'.now
  {
    var a, b := ClaimRow(t, 0, id), Wait(env.config.lease + 1.0);
    RunOfTwo(s, a, b, env);
    assert Next(Next(s, a, env), b, env).jobs[id] == Leased(s.jobs[id], 0, env.config.lease, s.now);
  }

  lemma CommitCompletes(s: Sys, id: JobId, u: Ticket, env: Env)
    requires env.Ok() && u in s.claims && s.claims[u].job.id == id && s.claims[u].job.state.PendingJudge?
    requires id in s.jobs && s.now <= s.claims[u].until
    ensures var b := Commit(u, COMPLETES, s.now);
            && Enabled(s, b, env)
            && var s' := Next(s, b, env);
               && id in s'.jobs && s'.jobs[id].state.Done? && s'.now == s.now && s'.claims == s.claims - {u}
  {
    assert CanCommit(s, u, COMPLETES, s.now);
  }

  lemma ClaimCompletes(s: Sys, id: JobId, u: Ticket, env: Env)
    requires Inv(s, env) && id in s.jobs && s.jobs[id].state.PendingJudge? && Due(s.jobs[id], s.now) && u !in s.claims
    ensures var run := [ClaimRow(u, 1, id), Commit(u, COMPLETES, s.now)];
            && Runs(s, run, env)
            && var s' := End(s, run, env);
               && id in s'.jobs && s'.jobs[id].state.Done? && s'.now == s.now
               && s'.claims == s.claims
  {
    var a, b := ClaimRow(u, 1, id), Commit(u, COMPLETES, s.now);
    var s1 := Next(s, a, env);
    CommitCompletes(s1, id, u, env);
    RunOfTwo(s, a, b, env);
    assert s1.claims - {u} == s.claims;
  }

  lemma {:induction false} RunsInSequence(s: Sys, first: seq<Action>, second: seq<Action>, env: Env)
    requires Runs(s, first, env) && Runs(End(s, first, env), second, env)
    ensures Runs(s, first + second, env) && End(s, first + second, env) == End(End(s, first, env), second, env)
    decreases |first|
  {
    if first == [] {
      assert first + second == second;
    } else {
      assert (first + second)[1..] == first[1..] + second;
      RunsInSequence(Next(s, first[0], env), first[1..], second, env);
    }
  }

  lemma LateFailure(s: Sys, id: JobId, t: Ticket, env: Env)
    requires t in s.claims && id in s.jobs && s.claims[t].job.id == id && s.claims[t].job.state.PendingJudge?
    ensures CanCommit(s, t, FAILS, s.now)
    ensures id in Committed(s, t, FAILS, s.now, env).jobs && Committed(s, t, FAILS, s.now, env).jobs[id].state.Failed?
  {
    assert CanCommit(s, t, FAILS, s.now);
  }

  // A worker that outlives its lease undoes a finished job: from any state with a due PENDING_JUDGE
  // row, the run claim, lease runs out, claim again, complete leaves the row DONE, and the first
  // worker's late fatal failure, which only the lease guard forbids, turns it into FAILED.
  lemma LateCommitUndoesDone(s: Sys, id: JobId, t: Ticket, u: Ticket, env: Env) returns (run: seq<Action>)
    requires Inv(s, env) && id in s.jobs && s.jobs[id].state.PendingJudge? && Due(s.jobs[id], s.now)
    requires t !in s.claims && u !in s.claims && t != u
    ensures Runs(s, run, env)
    ensures var s' := End(s, run, env);
            && id in s'.jobs && s'.jobs[id].state.Done?
            && CanCommit(s', t, FAILS, s'.now) && s'.now > s'.claims[t].until
            && id in Committed(s', t, FAILS, s'.now, env).jobs
                && Committed(s', t, FAILS, s'.now, env).jobs[id].state.Failed?
  {
    ClaimLapses(s, id, t, env);
    var first := [ClaimRow(t, 0, id), Wait(env.config.lease + 1.0)];
    RunKeepsInv(s, first, env);
    var mid := End(s, first, env);
    ClaimCompletes(mid, id, u, env);
    var second := [ClaimRow(u, 1, id), Commit(u, COMPLETES, mid.now)];
    RunsInSequence(s, first, second, env);
    LateFailure(End(mid, second, env), id, t, env);
    run := first + second;
  }
}
