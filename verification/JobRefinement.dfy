/** The classes that do the work take the protocol's steps: a batch claim is a run of single claims,
    processing a claimed job is a commit, and a sweep is a run of selections and polls. */
module JobRefinement {
  import opened Wrappers
  import opened DailyCap
  import opened JobQueue
  import opened JobEngine
  import opened JobProtocol
  import opened JobRuns

  // One claim step per row, with consecutive tickets.
  function ClaimSteps(ids: seq<JobId>, worker: WorkerId, ticket: Ticket): seq<Action>
  {
    if ids == [] then [] else [ClaimRow(ticket, worker, ids[0])] + ClaimSteps(ids[1..], worker, ticket + 1)
  }

  predicate Distinct(ids: seq<JobId>)
  {
    forall i, j | 0 <= i < j < |ids| :: ids[i] != ids[j]
  }

  predicate AllDue(s: Sys, ids: seq<JobId>)
  {
    && (forall i | 0 <= i < |ids| :: ids[i] in s.jobs && Due(s.jobs[ids[i]], s.now))
    && Distinct(ids)
  }

  lemma LeaseOneMore(jobs: Jobs, ids: seq<JobId>, worker: WorkerId, lease: real, now: real)
    requires ids != [] && ids[0] in jobs && ids[0] !in ids[1..]
    ensures LeaseAll(jobs[ids[0] := Leased(jobs[ids[0]], worker, lease, now)], ids[1..], worker, lease, now)
         == LeaseAll(jobs, ids, worker, lease, now)
  {
    assert ids == [ids[0]] + ids[1..];
  }

  /** A batch is claimed as if its rows were claimed one after the other, at one instant. */
  lemma {:induction false} BatchIsARunOfClaims(s: Sys, ids: seq<JobId>, worker: WorkerId, ticket: Ticket, env: Env)
    requires AllDue(s, ids) && forall t <- s.claims :: t < ticket
    ensures var run := ClaimSteps(ids, worker, ticket);
            && Runs(s, run, env)
            && End(s, run, env).jobs == LeaseAll(s.jobs, ids, worker, env.config.lease, s.now)
    decreases |ids|
  {
    if ids == [] {
      assert LeaseAll(s.jobs, ids, worker, env.config.lease, s.now) == s.jobs;
    } else {
      var a, rest := ClaimRow(ticket, worker, ids[0]), ids[1..];
      var run := ClaimSteps(ids, worker, ticket);
      assert run[0] == a && run[1..] == ClaimSteps(rest, worker, ticket + 1);
      BatchIsARunOfClaims(Next(s, a, env), rest, worker, ticket + 1, env);
      LeaseOneMore(s.jobs, ids, worker, env.config.lease, s.now);
    }
  }

  /** The worker's claim of a batch, on a table and a protocol state that agree. */
  method ClaimBatch(table: JobTable, worker: WorkerId, batch: nat, busy: set<JobId>, now: real,
                    config: Config, ghost s: Sys, ghost ticket: Ticket, ghost env: Env)
    returns (claimed: seq<ClaimedJob>, ghost ids: seq<JobId>)
    requires table.Valid() && table.rows == s.jobs && now == s.now && config == env.config
    requires forall t <- s.claims :: t < ticket
    modifies table
    ensures Runs(s, ClaimSteps(ids, worker, ticket), env)
    ensures table.rows == End(s, ClaimSteps(ids, worker, ticket), env).jobs
    ensures |ids| == |claimed| <= batch
    ensures forall k | 0 <= k < |ids| :: ids[k] in s.jobs && claimed[k] == Snapshot(ids[k], s.jobs[ids[k]])
  {
    ids := DueInOrder(table.order, table.rows, busy, batch, now);
    DueAreDistinct(table.order, table.rows, busy, batch, now);
    assert forall k | 0 <= k < |ids| :: ids[k] in ids;
    BatchIsARunOfClaims(s, ids, worker, ticket, env);
    claimed := table.Claim(worker, batch, config.lease, busy, now);
  }

  lemma {:induction false} DueAreDistinct(order: seq<JobId>, jobs: Jobs, busy: set<JobId>, batch: nat, now: real)
    requires Distinct(order)
    ensures Distinct(DueInOrder(order, jobs, busy, batch, now))
    decreases |order|
  {
    if order != [] && batch > 0 {
      var rest := DueInOrder(order[1..], jobs, busy, batch - 1, now);
      DueAreDistinct(order[1..], jobs, busy, batch - 1, now);
      DueAreDistinct(order[1..], jobs, busy, batch, now);
      assert forall k | 0 <= k < |rest| :: rest[k] in order[1..];
      assert Distinct([order[0]] + rest);
    }
  }

  // How many of the error rows are the job's.
  function ErrorsOf(errors: seq<JobError>, id: JobId): int
  {
    if errors == [] then 0 else
    var last := |errors| - 1;
    ErrorsOf(errors[..last], id) + (if errors[last].job == id then 1 else 0)
  }

  ghost predicate SameErrors(errors: seq<JobError>, counts: map<JobId, int>)
  {
    forall id: JobId :: ErrorsOf(errors, id) == if id in counts then counts[id] else 0
  }

  lemma ProcessedIsCommitted(s: Sys, ticket: Ticket, w: World, errors: seq<JobError>, env: Env)
    requires CanCommit(s, ticket, w, s.now) && SameErrors(errors, s.errors)
    ensures var (_, jobs', usage', errors') :=
              Processed(s.claims[ticket].job, w, s.jobs, s.usage, errors, env.config, s.now);
            var s' := Committed(s, ticket, w, s.now, env);
            jobs' == s'.jobs && usage' == s'.usage && SameErrors(errors', s'.errors)
  {
    var c := s.claims[ticket].job;
    var (r, _) := Handle(c, s.usage, env.config.cap, DayOf(s.now), w);
    if r.Err? { OneMoreError(errors, ErrorRow(c, r.error, env.config.ladder, w.rand), s.errors); }
  }

  lemma OneMoreError(errors: seq<JobError>, e: JobError, counts: map<JobId, int>)
    requires SameErrors(errors, counts)
    ensures SameErrors(errors + [e], counts[e.job := 1 + if e.job in counts then counts[e.job] else 0])
  {
    assert (errors + [e])[..|errors|] == errors;
  }

  /** Processing a claimed job is the commit step of its ticket: same rows, same usage counters, and the
      error rows of every job are as many as the protocol counts. */
  method Process(e: Engine, c: ClaimedJob, w: World, now: real, ghost s: Sys, ghost ticket: Ticket, ghost env: Env)
    requires e.table.rows == s.jobs && e.store.rows == s.usage && e.config == env.config && now == s.now
    requires SameErrors(e.errors, s.errors)
    requires CanCommit(s, ticket, w, now) && s.claims[ticket].job == c
    modifies e`errors, e.table`rows, e.store
    ensures e.table.rows == Committed(s, ticket, w, now, env).jobs
    ensures e.store.rows == Committed(s, ticket, w, now, env).usage
    ensures SameErrors(e.errors, Committed(s, ticket, w, now, env).errors)
  {
    ProcessedIsCommitted(s, ticket, w, e.errors, env);
    var committed := e.ProcessOne(c, w, now);
  }

  // ---- The reconciler ----------------------------------------------------------------------------

  type Entry = (JobId, Option<TranscriptId>)

  function SelectSteps(found: seq<Entry>): seq<Action>
  {
    if found == [] then [] else [SelectOverdue(found[0].0)] + SelectSteps(found[1..])
  }

  function PollSteps(found: seq<Entry>, poll: TranscriptId -> PollStatus, reason: TranscriptId -> string): seq<Action>
  {
    if found == [] then [] else
    var (id, tid) := found[0];
    var step := if tid.Some? then SweepEntry(id, tid, poll(tid.value), reason(tid.value))
                else SweepEntry(id, tid, Processing, "");
    [step] + PollSteps(found[1..], poll, reason)
  }

  predicate AllOverdue(s: Sys, found: seq<Entry>, env: Env)
  {
    forall f <- found :: f.0 in s.jobs && f.1 == s.jobs[f.0].transcriptId
        && Overdue(s.jobs[f.0], s.now, env.config.overdue)
  }

  // What the provider answers is its verdict.
  predicate Truthful(found: seq<Entry>, poll: TranscriptId -> PollStatus, env: Env)
  {
    forall f <- found :: f.1.Some? ==>
      (poll(f.1.value).Ready? ==> env.completes(f.1.value)) && (poll(f.1.value).Error? ==> !env.completes(f.1.value))
  }

  predicate DistinctEntries(found: seq<Entry>)
  {
    forall i, j | 0 <= i < j < |found| :: found[i] != found[j]
  }

  lemma {:induction false} SelectsAreARun(s: Sys, found: seq<Entry>, env: Env)
    requires AllOverdue(s, found, env)
    ensures Runs(s, SelectSteps(found), env)
    ensures End(s, SelectSteps(found), env) == s.(sweeps := s.sweeps + set f | f in found)
    decreases |found|
  {
    if found == [] {
      assert s.sweeps + (set f | f in found) == s.sweeps;
    } else {
      var a, rest := SelectOverdue(found[0].0), found[1..];
      var s' := Next(s, a, env);
      assert found[0] in found && forall f <- rest :: f in found;
      assert SelectSteps(found)[0] == a && SelectSteps(found)[1..] == SelectSteps(rest);
      SelectsAreARun(s', rest, env);
      assert s.sweeps + {found[0]} + (set f | f in rest) == s.sweeps + set f | f in found;
    }
  }

  lemma {:induction false} PollsAreARun(s: Sys, found: seq<Entry>, poll: TranscriptId -> PollStatus,
          reason: TranscriptId -> string, env: Env)
    requires (forall f <- found :: f in s.sweeps) && DistinctEntries(found) && Truthful(found, poll, env)
    ensures Runs(s, PollSteps(found, poll, reason), env)
    ensures End(s, PollSteps(found, poll, reason), env).jobs == Swept(s.jobs, found, poll, reason, s.now)
    decreases |found|
  {
    if found != [] {
      var rest := found[1..];
      var a := PollSteps(found, poll, reason)[0];
      assert found[0] in found && PollSteps(found, poll, reason)[1..] == PollSteps(rest, poll, reason);
      assert Enabled(s, a, env);
      var s' := Next(s, a, env);
      assert forall k | 0 <= k < |rest| :: rest[k] == found[k + 1];
      assert forall f <- rest :: f in s'.sweeps;
      PollsAreARun(s', rest, poll, reason, env);
      assert s'.jobs == SweptRow(s.jobs, found[0].0, found[0].1, poll, reason, s.now);
    }
  }

  lemma OverdueRowsAreParked(s: Sys, found: seq<Entry>, env: Env)
    requires Inv(s, env) && AllOverdue(s, found, env)
    requires forall i, j | 0 <= i < j < |found| :: found[i].0 != found[j].0
    ensures AllParked(s.jobs, found)
  {
    forall f | f in found
      ensures f.1.Some? && AwaitsTranscript(s.jobs[f.0], f.1.value)
    {
      assert RowOk(s.jobs[f.0], s.now, env);
    }
  }

  lemma SweepIsARun(s: Sys, found: seq<Entry>, poll: TranscriptId -> PollStatus, reason: TranscriptId -> string,
          env: Env)
    requires AllOverdue(s, found, env) && Truthful(found, poll, env)
    requires forall i, j | 0 <= i < j < |found| :: found[i].0 != found[j].0
    ensures var run := SelectSteps(found) + PollSteps(found, poll, reason);
      Runs(s, run, env) && End(s, run, env).jobs == Swept(s.jobs, found, poll, reason, s.now)
    ensures Inv(s, env) ==> Recovered(s.jobs, found, poll, reason, s.now) == CountReady(found, poll)
  {
    SelectsAreARun(s, found, env);
    var selected := End(s, SelectSteps(found), env);
    PollsAreARun(selected, found, poll, reason, env);
    RunsInSequence(s, SelectSteps(found), PollSteps(found, poll, reason), env);
    if Inv(s, env) {
      OverdueRowsAreParked(s, found, env);
      RecoveredIsReady(s.jobs, found, poll, reason, s.now);
    }
  }

  /** One sweep, on a table and a protocol state that agree, is a run of selections and polls; where the
      protocol's invariant holds, its result is the number of transcripts found ready. */
  method Reconcile(e: Engine, poll: TranscriptId -> PollStatus, reason: TranscriptId -> string, now: real,
                   ghost s: Sys, ghost env: Env)
    returns (recovered: nat, ghost found: seq<Entry>, ghost run: seq<Action>)
    requires e.table.Valid() && e.table.rows == s.jobs && e.config == env.config && now == s.now
    requires forall id <- s.jobs :: var tid := s.jobs[id].transcriptId; tid.Some? ==>
      (poll(tid.value).Ready? ==> env.completes(tid.value)) && (poll(tid.value).Error? ==> !env.completes(tid.value))
    modifies e.table`rows
    ensures found == OverdueInOrder(old(e.table.order), s.jobs, env.config.overdue, now)
    ensures run == SelectSteps(found) + PollSteps(found, poll, reason)
    ensures Runs(s, run, env) && e.table.rows == End(s, run, env).jobs
    ensures Inv(s, env) ==> recovered == CountReady(found, poll)
  {
    found := OverdueInOrder(e.table.order, s.jobs, env.config.overdue, now);
    assert AllOverdue(s, found, env) && Truthful(found, poll, env);
    SweepIsARun(s, found, poll, reason, env);
    run := SelectSteps(found) + PollSteps(found, poll, reason);
    recovered := e.RunOnce(poll, reason, now);
  }
}
