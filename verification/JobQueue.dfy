/** The jobs table (backend/app/orchestration/queue.py, states.py) and its single-statement updates.
    Times are seconds; `now` is the database clock of the statement. */
module JobQueue {
  import opened Wrappers
  import opened DailyCap

  datatype JobState = PendingTranscription | AwaitingTranscript | PendingJudge | Done | Failed

  predicate Claimable(s: JobState) { s.PendingTranscription? || s.PendingJudge? }

  predicate Terminal(s: JobState) { s.Done? || s.Failed? }

  predicate CanTransition(src: JobState, dst: JobState)
  {
    match src
    case PendingTranscription => dst.AwaitingTranscript? || dst.Failed?
    case AwaitingTranscript => dst.PendingJudge? || dst.Failed?
    case PendingJudge => dst.Done? || dst.Failed?
    case _ => false
  }

  type JobId = nat
  type WorkerId = nat
  type TranscriptId = nat

  datatype Job = Job(
    portfolio: PortfolioId, state: JobState, attempts: int, maxAttempts: int, nextAttemptAt: real,
    lockedBy: Option<WorkerId>, lockedUntil: Option<real>, transcriptId: Option<TranscriptId>,
    lastError: Option<string>, updatedAt: real)

  // The snapshot a worker takes of a row it claims.
  datatype ClaimedJob = ClaimedJob(
    id: JobId, portfolio: PortfolioId, state: JobState, attempts: int, maxAttempts: int,
    transcriptId: Option<TranscriptId>)

  type Jobs = map<JobId, Job>

  function Snapshot(id: JobId, j: Job): ClaimedJob
  {
    ClaimedJob(id, j.portfolio, j.state, j.attempts, j.maxAttempts, j.transcriptId)
  }

  // ---- What each statement does to a row ---------------------------------------------------------

  predicate Due(j: Job, now: real)
  {
    && Claimable(j.state) && j.nextAttemptAt <= now
    && (j.lockedUntil.None? || j.lockedUntil.value < now)
  }

  predicate Overdue(j: Job, now: real, overdueSeconds: real)
  {
    j.state.AwaitingTranscript? && j.updatedAt < now - overdueSeconds
  }

  function Leased(j: Job, worker: WorkerId, lease: real, now: real): Job
  {
    j.(lockedBy := Some(worker), lockedUntil := Some(now + lease), updatedAt := now)
  }

  // Every write of an outcome also frees the row (`_set`).
  function Freed(j: Job, now: real): Job
  {
    j.(lockedBy := None, lockedUntil := None, updatedAt := now)
  }

  function Parked(j: Job, tid: TranscriptId, now: real): Job
  {
    Freed(j.(state := AwaitingTranscript, transcriptId := Some(tid), lastError := None), now)
  }

  function Completed(j: Job, now: real): Job
  {
    Freed(j.(state := Done, lastError := None), now)
  }

  function Postponed(j: Job, next: real, reason: string, now: real): Job
  {
    Freed(j.(nextAttemptAt := next, lastError := Some(reason)), now)
  }

  function Rescheduled(j: Job, attempts: int, next: real, error: string, now: real): Job
  {
    Freed(j.(attempts := attempts, nextAttemptAt := next, lastError := Some(error)), now)
  }

  function DeadLettered(j: Job, attempts: int, error: string, now: real): Job
  {
    Freed(j.(state := Failed, attempts := attempts, lastError := Some(error)), now)
  }

  function MarkedFailed(j: Job, reason: string, now: real): Job
  {
    Freed(j.(state := Failed, lastError := Some(reason)), now)
  }

  function Advanced(j: Job, now: real): Job
  {
    Freed(j.(state := PendingJudge, nextAttemptAt := now, lastError := None), now)
  }

  predicate AwaitsTranscript(j: Job, tid: TranscriptId)
  {
    j.transcriptId == Some(tid) && j.state.AwaitingTranscript?
  }

  // ---- What each statement does to the table -----------------------------------------------------

  // UPDATE ... WHERE id = :id, which matches nothing if the row is gone.
  function SetRow(jobs: Jobs, id: JobId, j: Job): Jobs
  {
    if id in jobs then jobs[id := j] else jobs
  }

  function AdvanceAwaiting(jobs: Jobs, tid: TranscriptId, now: real): Jobs
  {
    map id | id in jobs :: if AwaitsTranscript(jobs[id], tid) then Advanced(jobs[id], now) else jobs[id]
  }

  function FailAwaiting(jobs: Jobs, tid: TranscriptId, reason: string, now: real): Jobs
  {
    map id | id in jobs :: if AwaitsTranscript(jobs[id], tid) then MarkedFailed(jobs[id], reason, now) else jobs[id]
  }

  function NewJob(portfolio: PortfolioId, maxAttempts: int, now: real): Job
  {
    Job(portfolio, PendingTranscription, 0, maxAttempts, now, None, None, None, None, now)
  }

  // What every outcome's statement promises, whichever of the six it is: the row is free, stamped, and
  // still the same job; its transcript changes only when it is parked, a claimed row's error
  // text is cleared exactly by a success, and an unfinished row fails only along the graph.
  predicate OutcomeOf(j: Job, j': Job, now: real)
  {
    && j'.lockedBy.None? && j'.lockedUntil.None? && j'.updatedAt == now
    && j'.portfolio == j.portfolio && j'.maxAttempts == j.maxAttempts
    && (j'.transcriptId == j.transcriptId || j'.state.AwaitingTranscript?)
    && (Claimable(j.state) ==> (j'.lastError.None? <==> j'.state.AwaitingTranscript? || j'.state.Done?))
    && (j'.state.Failed? && !Terminal(j.state) ==> CanTransition(j.state, j'.state))
  }

  lemma OutcomesFreeTheRow(jobs: Jobs, id: JobId, tid: TranscriptId, next: real, attempts: int, text: string, now: real,
          later: real)
    requires id in jobs
    ensures var j := jobs[id];
            forall j' <- {Parked(j, tid, now), Completed(j, now), Postponed(j, next, text, now),
                          Rescheduled(j, attempts, next, text, now), DeadLettered(j, attempts, text, now),
                          MarkedFailed(j, text, now)} ::
              && OutcomeOf(j, j', now)
              && (Due(j', later) <==> Claimable(j'.state) && j'.nextAttemptAt <= later)
              && forall other <- jobs :: SetRow(jobs, id, j')[other] == if other == id then j' else jobs[other]
    ensures var j, free := jobs[id], jobs[id].(lockedBy := None, lockedUntil := None, updatedAt := now);
            && Parked(j, tid, now) == free.(state := AwaitingTranscript, transcriptId := Some(tid), lastError := None)
            && Completed(j, now) == free.(state := Done, lastError := None)
            && Postponed(j, next, text, now) == free.(nextAttemptAt := next, lastError := Some(text))
            && Rescheduled(j, attempts, next, text, now)
               == free.(attempts := attempts, nextAttemptAt := next, lastError := Some(text))
            && DeadLettered(j, attempts, text, now)
               == free.(state := Failed, attempts := attempts, lastError := Some(text))
            && MarkedFailed(j, text, now) == free.(state := Failed, lastError := Some(text))
  {}

  // The first `batch` due rows in creation order, passing over the rows other claims hold locked.
  function DueInOrder(order: seq<JobId>, jobs: Jobs, busy: set<JobId>, batch: nat, now: real): (ids: seq<JobId>)
    ensures |ids| <= batch
    ensures forall id <- ids :: id in order && id in jobs && id !in busy && Due(jobs[id], now)
  {
    if order == [] || batch == 0 then []
    else if order[0] in jobs && order[0] !in busy && Due(jobs[order[0]], now) then
      [order[0]] + DueInOrder(order[1..], jobs, busy, batch - 1, now)
    else DueInOrder(order[1..], jobs, busy, batch, now)
  }

  // Nothing due is passed over for a younger row: a due row left out is younger than a full batch.
  lemma {:induction false} OldestFirst(order: seq<JobId>, jobs: Jobs, busy: set<JobId>, batch: nat, now: real, k: nat)
    requires k < |order| && order[k] in jobs && order[k] !in busy && Due(jobs[order[k]], now)
    requires order[k] !in DueInOrder(order, jobs, busy, batch, now)
    ensures |DueInOrder(order, jobs, busy, batch, now)| == batch
    ensures DueInOrder(order[..k], jobs, busy, batch, now) == DueInOrder(order, jobs, busy, batch, now)
    decreases |order|
  {
    if batch > 0 {
      var head, rest := order[0], order[1..];
      assert order[..k] != [] ==> order[..k][0] == head && order[..k][1..] == rest[..k - 1];
      if head in jobs && head !in busy && Due(jobs[head], now) {
        assert k > 0 && rest[k - 1] == order[k];
        OldestFirst(rest, jobs, busy, batch - 1, now, k - 1);
      } else {
        assert k > 0 && rest[k - 1] == order[k];
        OldestFirst(rest, jobs, busy, batch, now, k - 1);
      }
    }
  }

  function OverdueInOrder(order: seq<JobId>, jobs: Jobs, overdueSeconds: real, now: real):
          (found: seq<(JobId, Option<TranscriptId>)>)
    ensures forall f <- found ::
      f.0 in order && f.0 in jobs && f.1 == jobs[f.0].transcriptId && Overdue(jobs[f.0], now, overdueSeconds)
    ensures forall id <- order :: id in jobs && Overdue(jobs[id], now, overdueSeconds) ==>
        (id, jobs[id].transcriptId) in found
    ensures (forall i, j | 0 <= i < j < |order| :: order[i] != order[j]) ==>
              forall i, j | 0 <= i < j < |found| :: found[i].0 != found[j].0
  {
    if order == [] then [] else
    var rest := OverdueInOrder(order[1..], jobs, overdueSeconds, now);
    if order[0] in jobs && Overdue(jobs[order[0]], now, overdueSeconds)
    then [(order[0], jobs[order[0]].transcriptId)] + rest
    else rest
  }

  function LeaseAll(jobs: Jobs, ids: seq<JobId>, worker: WorkerId, lease: real, now: real): Jobs
  {
    map id | id in jobs :: if id in ids then Leased(jobs[id], worker, lease, now) else jobs[id]
  }

  // ---- The table ---------------------------------------------------------------------------------

  // What the provider says of a transcript when polled.
  datatype PollStatus = Ready | Error | Processing

  // One row of a sweep: what the poll's answer does to the table.
  function SweepRow(jobs: Jobs, id: JobId, tid: Option<TranscriptId>, status: PollStatus, reason: string,
          now: real): Jobs
  {
    if tid.None? then
      if id in jobs then SetRow(jobs, id, MarkedFailed(jobs[id], "parked without transcript_id", now)) else jobs
    else match status
      case Ready => AdvanceAwaiting(jobs, tid.value, now)
      case Error => if id in jobs then SetRow(jobs, id, MarkedFailed(jobs[id], reason, now)) else jobs
      case Processing => if id in jobs then SetRow(jobs, id, jobs[id].(updatedAt := now)) else jobs
  }

  // Waiting to be submitted or judged, its time has come, and nobody holds a lease that has not run out.
  predicate FreeForWork(j: Job, now: real)
  {
    && (j.state == PendingTranscription || j.state == PendingJudge) && j.nextAttemptAt <= now
    && (j.lockedUntil == None || j.lockedUntil.value < now)
  }

  class JobTable {
    var rows: Jobs
    var order: seq<JobId>  // creation order

    ghost predicate Valid()
      reads this
    {
      && (forall id :: id in order <==> id in rows)
      && forall i, j | 0 <= i < j < |order| :: order[i] != order[j]
    }

    constructor ()
      ensures Valid() && rows == map[]
    {
      rows, order := map[], [];
    }

    // `id` is the generated key.
    method Enqueue(id: JobId, portfolio: PortfolioId, maxAttempts: int, now: real)
      requires Valid() && id !in rows
      modifies this
      ensures Valid() && rows == old(rows)[id := NewJob(portfolio, maxAttempts, now)]
      ensures rows[id] == Job(portfolio, PendingTranscription, 0, maxAttempts, now, None, None, None, None, now)
    {
      rows := rows[id := NewJob(portfolio, maxAttempts, now)];
      order := order + [id];
    }

    method Claim(worker: WorkerId, batch: nat, lease: real, busy: set<JobId>, now: real)
            returns (claimed: seq<ClaimedJob>)
      requires Valid()
      modifies this
      ensures Valid() && order == old(order)
      ensures var ids := DueInOrder(order, old(rows), busy, batch, now);
              && rows == LeaseAll(old(rows), ids, worker, lease, now)
              && |claimed| == |ids|
              && forall k | 0 <= k < |ids| :: claimed[k] == Snapshot(ids[k], old(rows)[ids[k]])
      ensures |claimed| <= batch && rows.Keys == old(rows.Keys)
      ensures forall c <- claimed :: c.id in old(rows) && c.id !in busy && FreeForWork(old(rows)[c.id], now)
      ensures forall id <- rows ::
        rows[id] == (
          if exists c <- claimed :: c.id == id
          then old(rows)[id].(lockedBy := Some(worker), lockedUntil := Some(now + lease), updatedAt := now)
          else old(rows)[id])
    {
      var ids := DueInOrder(order, rows, busy, batch, now);
      var table := rows;
      claimed := seq(|ids|, k requires 0 <= k < |ids| && ids[k] in table => Snapshot(ids[k], table[ids[k]]));
      rows := LeaseAll(rows, ids, worker, lease, now);
      assert forall k | 0 <= k < |ids| :: claimed[k].id == ids[k] && ids[k] in ids;
    }

    method Park(id: JobId, tid: TranscriptId, now: real)
      modifies this`rows
      ensures rows == if id in old(rows) then SetRow(old(rows), id, Parked(old(rows)[id], tid, now)) else old(rows)
    {
      if id in rows { rows := rows[id := Parked(rows[id], tid, now)]; }
    }

    method Complete(id: JobId, now: real)
      modifies this`rows
      ensures rows == if id in old(rows) then SetRow(old(rows), id, Completed(old(rows)[id], now)) else old(rows)
    {
      if id in rows { rows := rows[id := Completed(rows[id], now)]; }
    }

    method Defer(id: JobId, next: real, reason: string, now: real)
      modifies this`rows
      ensures rows == if id in old(rows) then SetRow(old(rows), id, Postponed(old(rows)[id], next, reason, now))
          else old(rows)
    {
      if id in rows { rows := rows[id := Postponed(rows[id], next, reason, now)]; }
    }

    method ScheduleRetry(id: JobId, attempts: int, next: real, error: string, now: real)
      modifies this`rows
      ensures rows == if id in old(rows)
          then SetRow(old(rows), id, Rescheduled(old(rows)[id], attempts, next, error, now)) else old(rows)
    {
      if id in rows { rows := rows[id := Rescheduled(rows[id], attempts, next, error, now)]; }
    }

    method DeadLetter(id: JobId, attempts: int, error: string, now: real)
      modifies this`rows
      ensures rows == if id in old(rows) then SetRow(old(rows), id, DeadLettered(old(rows)[id], attempts, error, now))
          else old(rows)
    {
      if id in rows { rows := rows[id := DeadLettered(rows[id], attempts, error, now)]; }
    }

    method MarkFailed(id: JobId, reason: string, now: real)
      modifies this`rows
      ensures rows == if id in old(rows) then SetRow(old(rows), id, MarkedFailed(old(rows)[id], reason, now))
          else old(rows)
    {
      if id in rows { rows := rows[id := MarkedFailed(rows[id], reason, now)]; }
    }

    method Touch(id: JobId, now: real)
      modifies this`rows
      ensures rows == if id in old(rows) then SetRow(old(rows), id, old(rows)[id].(updatedAt := now)) else old(rows)
    {
      if id in rows { rows := rows[id := rows[id].(updatedAt := now)]; }
    }

    method AdvanceToJudgeByTranscript(tid: TranscriptId, now: real) returns (advanced: bool)
      modifies this`rows
      ensures rows == AdvanceAwaiting(old(rows), tid, now) && rows.Keys == old(rows.Keys)
      ensures forall id <- rows ::
        rows[id] == (
          var j := old(rows)[id];
          if j.state == AwaitingTranscript && j.transcriptId == Some(tid)
          then j.(state := PendingJudge, nextAttemptAt := now, lastError := None, lockedBy := None, lockedUntil := None,
                  updatedAt := now)
          else j)
      ensures advanced <==> exists id <- old(rows) :: AwaitsTranscript(old(rows)[id], tid)
    {
      advanced := exists id <- rows.Keys :: AwaitsTranscript(rows[id], tid);
      rows := AdvanceAwaiting(rows, tid, now);
    }

    method FailByTranscript(tid: TranscriptId, reason: string, now: real) returns (failed: bool)
      modifies this`rows
      ensures rows == FailAwaiting(old(rows), tid, reason, now) && rows.Keys == old(rows.Keys)
      ensures forall id <- rows ::
        rows[id] == (
          var j := old(rows)[id];
          if j.state == AwaitingTranscript && j.transcriptId == Some(tid)
          then j.(state := Failed, lastError := Some(reason), lockedBy := None, lockedUntil := None, updatedAt := now)
          else j)
      ensures failed <==> exists id <- old(rows) :: AwaitsTranscript(old(rows)[id], tid)
    {
      failed := exists id <- rows.Keys :: AwaitsTranscript(rows[id], tid);
      rows := FailAwaiting(rows, tid, reason, now);
    }

    method FindOverdueAwaiting(overdueSeconds: real, now: real) returns (found: seq<(JobId, Option<TranscriptId>)>)
      requires Valid()
      ensures found == OverdueInOrder(order, rows, overdueSeconds, now)
      ensures forall id <- rows ::
        rows[id].state == AwaitingTranscript && rows[id].updatedAt < now - overdueSeconds
        <==> (id, rows[id].transcriptId) in found
      ensures forall f <- found :: f.0 in rows && f.1 == rows[f.0].transcriptId
      ensures forall i, j | 0 <= i < j < |found| :: found[i].0 != found[j].0
    {
      found := OverdueInOrder(order, rows, overdueSeconds, now);
    }
  }
}
