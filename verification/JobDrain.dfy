/** A backlog over the daily cap, drained by a run of the protocol: what one day's cap turns away is due
    again at the next UTC midnight, and no run can do it in fewer days. */
module JobDrain {
  import opened Wrappers
  import opened DailyCap
  import opened JobQueue
  import opened JobEngine
  import opened JobProtocol
  import opened JobRuns

  function Submits(tid: TranscriptId): World
  {
    World(true, Ok(tid), false, Ok(true), false, false, None, 0.0)
  }

  const LIMIT := "daily limit reached"

  predicate Waiting(s: Sys, id: JobId, p: PortfolioId)
  {
    id in s.jobs && s.jobs[id].state.PendingTranscription? && s.jobs[id].portfolio == p && Due(s.jobs[id], s.now)
  }

  // What one worker's try leaves: a reservation and a parked row, or a row put off to the next midnight.
  predicate Once(s: Sys, s': Sys, id: JobId, p: PortfolioId, tid: TranscriptId, cap: int)
  {
    var (d, usage) := Upsert(s.usage, (p, DayOf(s.now)), cap);
    && id in s.jobs && s'.now == s.now && s'.claims == s.claims && s'.usage == usage
    && s'.jobs == s.jobs[id := Outcome(s.jobs[id], d.allowed, tid, s.now)]
  }

  function Outcome(j: Job, allowed: bool, tid: TranscriptId, now: real): Job
  {
    if allowed then Parked(j, tid, now) else Postponed(j, NextUtcMidnight(now), LIMIT, now)
  }

  lemma SubmissionCommits(s: Sys, id: JobId, tid: TranscriptId, t: Ticket, env: Env)
    requires t in s.claims && id in s.jobs && s.claims[t].job == Snapshot(id, s.jobs[id]) && Fresh(s.jobs, tid)
    requires s.jobs[id].state.PendingTranscription? && s.jobs[id].transcriptId.None?
    ensures CanCommit(s, t, Submits(tid), s.now)
    ensures Once(s.(claims := s.claims - {t}), Committed(s, t, Submits(tid), s.now, env), id, s.jobs[id].portfolio, tid,
              env.config.cap)
  {}

  lemma StillFresh(jobs: Jobs, id: JobId, j: Job, tid: TranscriptId)
    requires Fresh(jobs, tid) && j.transcriptId != Some(tid)
    ensures Fresh(jobs[id := j], tid)
  {}

  // One worker claims the job and submits it, if the day's cap still allows.
  lemma TryOnce(s: Sys, id: JobId, p: PortfolioId, tid: TranscriptId, t: Ticket, env: Env)
    requires Waiting(s, id, p) && s.jobs[id].transcriptId.None? && env.config.lease >= 0.0
    requires t !in s.claims && Fresh(s.jobs, tid)
    ensures var run := [ClaimRow(t, 0, id), Commit(t, Submits(tid), s.now)];
            Runs(s, run, env) && Once(s, End(s, run, env), id, p, tid, env.config.cap)
  {
    var a, b := ClaimRow(t, 0, id), Commit(t, Submits(tid), s.now);
    var s1 := Next(s, a, env);
    StillFresh(s.jobs, id, s1.jobs[id], tid);
    SubmissionCommits(s1, id, tid, t, env);
    RunOfTwo(s, a, b, env);
    assert s1.claims - {t} == s.claims;
  }

  predicate Backlog(s: Sys, ids: seq<JobId>, tids: JobId -> TranscriptId, p: PortfolioId)
  {
    && (forall i | 0 <= i < |ids| :: Waiting(s, ids[i], p) && Fresh(s.jobs, tids(ids[i])))
    && forall i, j | 0 <= i < j < |ids| :: ids[i] != ids[j] && tids(ids[i]) != tids(ids[j])
  }

  // How many of n reservations the day still allows.
  function Room(s: Sys, p: PortfolioId, cap: int, n: nat): int
  {
    Min(n, cap - Count(s.usage, (p, DayOf(s.now))))
  }

  // What trying every job once leaves: the first ones parked, the others put off.
  predicate RowsTried(s: Sys, s': Sys, ids: seq<JobId>, tids: JobId -> TranscriptId, m: int)
  {
    forall i | 0 <= i < |ids| :: && ids[i] in s.jobs && ids[i] in s'.jobs
                                 && s'.jobs[ids[i]] == Outcome(s.jobs[ids[i]], i < m, tids(ids[i]), s.now)
  }

  predicate OthersKept(s: Sys, s': Sys, ids: seq<JobId>)
  {
    s'.jobs.Keys == s.jobs.Keys && forall id | id in s.jobs && id !in ids :: s'.jobs[id] == s.jobs[id]
  }

  ghost predicate Paid(s: Sys, s': Sys, p: PortfolioId, m: int)
  {
    && s'.now == s.now && s'.claims == s.claims
    && forall key :: Count(s'.usage, key) == Count(s.usage, key) + (if key == (p, DayOf(s.now)) then m else 0)
  }

  lemma RestIsBacklog(s: Sys, s': Sys, ids: seq<JobId>, tids: JobId -> TranscriptId, p: PortfolioId, j: Job)
    requires ids != [] && Backlog(s, ids, tids, p) && s'.now == s.now && s'.jobs == s.jobs[ids[0] := j]
    requires j.transcriptId.None? || j.transcriptId == Some(tids(ids[0]))
    ensures Backlog(s', ids[1..], tids, p)
  {
    forall i | 0 <= i < |ids[1..]|
      ensures Waiting(s', ids[1..][i], p) && Fresh(s'.jobs, tids(ids[1..][i]))
    {
      assert ids[1..][i] == ids[i + 1];
      StillFresh(s.jobs, ids[0], j, tids(ids[i + 1]));
    }
  }

  lemma RoomInTurn(s: Sys, s1: Sys, s': Sys, id: JobId, p: PortfolioId, tid: TranscriptId, cap: int, n: nat)
    requires Once(s, s1, id, p, tid, cap) && Count(s.usage, (p, DayOf(s.now))) <= cap && n > 0
    ensures var m := Room(s, p, cap, n);
            && (Upsert(s.usage, (p, DayOf(s.now)), cap).0.allowed <==> m > 0)
            && Room(s1, p, cap, n - 1) == (if m > 0 then m - 1 else 0)
            && (Paid(s1, s', p, Room(s1, p, cap, n - 1)) ==> Paid(s, s', p, m))
  {
    var key := (p, DayOf(s.now));
    var granted := if Upsert(s.usage, key, cap).0.allowed then 1 else 0;
    assert forall other :: Count(s1.usage, other) == Count(s.usage, other) + (if other == key then granted else 0);
  }

  lemma RowsInTurn(s: Sys, s1: Sys, s': Sys, ids: seq<JobId>, tids: JobId -> TranscriptId, m: nat)
    requires ids != [] && ids[0] in s.jobs && s1.now == s.now && forall j | 0 < j < |ids| :: ids[0] != ids[j]
    requires s1.jobs == s.jobs[ids[0] := Outcome(s.jobs[ids[0]], m > 0, tids(ids[0]), s.now)]
    requires RowsTried(s1, s', ids[1..], tids, if m > 0 then m - 1 else 0) && OthersKept(s1, s', ids[1..])
    ensures RowsTried(s, s', ids, tids, m) && OthersKept(s, s', ids)
  {
    assert forall j | 0 <= j < |ids[1..]| :: ids[1..][j] == ids[j + 1];
    forall i | 0 <= i < |ids|
      ensures ids[i] in s.jobs && ids[i] in s'.jobs
      ensures s'.jobs[ids[i]] == Outcome(s.jobs[ids[i]], i < m, tids(ids[i]), s.now)
    {
      if i > 0 { assert ids[i] == ids[1..][i - 1] && ids[i] in ids[1..]; }
    }
    assert forall id | id !in ids :: id !in ids[1..] && id != ids[0];
  }

  ghost predicate Tried(s: Sys, s': Sys, ids: seq<JobId>, tids: JobId -> TranscriptId, p: PortfolioId, cap: int)
  {
    var m := Room(s, p, cap, |ids|);
    0 <= m && RowsTried(s, s', ids, tids, m) && OthersKept(s, s', ids) && Paid(s, s', p, m)
  }

  lemma TriedInTurn(s: Sys, s1: Sys, s': Sys, ids: seq<JobId>, tids: JobId -> TranscriptId, p: PortfolioId, cap: int)
    requires ids != [] && Once(s, s1, ids[0], p, tids(ids[0]), cap) && forall j | 0 < j < |ids| :: ids[0] != ids[j]
    requires Count(s.usage, (p, DayOf(s.now))) <= cap && Tried(s1, s', ids[1..], tids, p, cap)
    ensures Tried(s, s', ids, tids, p, cap)
  {
    RoomInTurn(s, s1, s', ids[0], p, tids(ids[0]), cap, |ids|);
    RowsInTurn(s, s1, s', ids, tids, Room(s, p, cap, |ids|));
  }

  lemma NoneTried(s: Sys, tids: JobId -> TranscriptId, p: PortfolioId, cap: int)
    requires Count(s.usage, (p, DayOf(s.now))) <= cap
    ensures Tried(s, s, [], tids, p, cap)
  {}

  lemma CapHolds(s: Sys, p: PortfolioId, env: Env)
    requires Inv(s, env)
    ensures Count(s.usage, (p, DayOf(s.now))) <= env.config.cap
  {}

  lemma {:induction false} TryAll(s: Sys, ids: seq<JobId>, tids: JobId -> TranscriptId, p: PortfolioId, t: Ticket,
          env: Env)
    returns (run: seq<Action>)
    requires Inv(s, env) && Backlog(s, ids, tids, p) && t !in s.claims
    ensures Runs(s, run, env) && Tried(s, End(s, run, env), ids, tids, p, env.config.cap)
    decreases |ids|
  {
    CapHolds(s, p, env);
    if ids == [] {
      run := [];
      NoneTried(s, tids, p, env.config.cap);
    } else {
      var first, s1 := TryFirst(s, ids, tids, p, t, env);
      var more := TryAll(s1, ids[1..], tids, p, t, env);
      RunsInSequence(s, first, more, env);
      TriedInTurn(s, s1, End(s1, more, env), ids, tids, p, env.config.cap);
      run := first + more;
    }
  }

  lemma TryFirst(s: Sys, ids: seq<JobId>, tids: JobId -> TranscriptId, p: PortfolioId, t: Ticket, env: Env)
    returns (run: seq<Action>, s1: Sys)
    requires Inv(s, env) && ids != [] && Backlog(s, ids, tids, p) && t !in s.claims
    ensures Runs(s, run, env) && s1 == End(s, run, env) && Inv(s1, env)
    ensures Once(s, s1, ids[0], p, tids(ids[0]), env.config.cap) && Backlog(s1, ids[1..], tids, p)
  {
    var id, tid := ids[0], tids(ids[0]);
    assert Waiting(s, id, p) && Fresh(s.jobs, tid) && RowOk(s.jobs[id], s.now, env);
    run := [ClaimRow(t, 0, id), Commit(t, Submits(tid), s.now)];
    TryOnce(s, id, p, tid, t, env);
    RunKeepsInv(s, run, env);
    s1 := End(s, run, env);
    RestIsBacklog(s, s1, ids, tids, p, s1.jobs[id]);
  }

  ghost predicate FromTodayFree(s: Sys, p: PortfolioId)
  {
    forall d: int | d >= DayOf(s.now) :: Count(s.usage, (p, d)) == 0
  }

  // At midnight the jobs that were put off are due again, with transcript ids still unused.
  lemma LateAreDue(s: Sys, s1: Sys, ids: seq<JobId>, tids: JobId -> TranscriptId, p: PortfolioId, m: nat)
    requires Backlog(s, ids, tids, p) && m <= |ids| && RowsTried(s, s1, ids, tids, m) && OthersKept(s, s1, ids)
    requires forall i | 0 <= i < |ids| :: s.jobs[ids[i]].transcriptId.None?
    ensures Backlog(s1.(now := NextUtcMidnight(s.now)), ids[m..], tids, p)
  {
    var s2, rest := s1.(now := NextUtcMidnight(s.now)), ids[m..];
    forall i | 0 <= i < |rest|
      ensures Waiting(s2, rest[i], p) && Fresh(s2.jobs, tids(rest[i]))
    {
      assert rest[i] == ids[m + i] && Waiting(s, ids[m + i], p);
      LateIsFresh(s, s1, ids, tids, p, m, m + i);
    }
    assert forall i, j | 0 <= i < j < |rest| :: rest[i] == ids[m + i] && rest[j] == ids[m + j];
  }

  lemma LateIsFresh(s: Sys, s1: Sys, ids: seq<JobId>, tids: JobId -> TranscriptId, p: PortfolioId, m: nat, k: nat)
    requires Backlog(s, ids, tids, p) && m <= k < |ids| && RowsTried(s, s1, ids, tids, m) && OthersKept(s, s1, ids)
    requires forall i | 0 <= i < |ids| :: s.jobs[ids[i]].transcriptId.None?
    ensures Fresh(s1.jobs, tids(ids[k]))
  {
    assert Fresh(s.jobs, tids(ids[k]));
    forall id | id in s1.jobs
      ensures s1.jobs[id].transcriptId != Some(tids(ids[k]))
    {
      if id in ids {
        var i :| 0 <= i < |ids| && ids[i] == id;
        assert s1.jobs[id] == Outcome(s.jobs[id], i < m, tids(id), s.now);
      }
    }
  }

  lemma NoneSubmitted(s: Sys, ids: seq<JobId>, tids: JobId -> TranscriptId, p: PortfolioId, env: Env)
    requires Inv(s, env) && Backlog(s, ids, tids, p)
    ensures forall i | 0 <= i < |ids| :: s.jobs[ids[i]].transcriptId.None?
  {
    forall i | 0 <= i < |ids|
      ensures s.jobs[ids[i]].transcriptId.None?
    {
      assert RowOk(s.jobs[ids[i]], s.now, env);
    }
  }

  // The next day: the rest of the backlog is due, and the new day's counter is at zero.
  lemma NextDay(s: Sys, s1: Sys, ids: seq<JobId>, tids: JobId -> TranscriptId, p: PortfolioId, m: nat)
    requires Backlog(s, ids, tids, p) && m <= |ids| && FromTodayFree(s, p)
    requires forall i | 0 <= i < |ids| :: s.jobs[ids[i]].transcriptId.None?
    requires RowsTried(s, s1, ids, tids, m) && OthersKept(s, s1, ids) && Paid(s, s1, p, m)
    ensures var s2 := s1.(now := NextUtcMidnight(s1.now));
            Backlog(s2, ids[m..], tids, p) && FromTodayFree(s2, p) && DayOf(s2.now) == DayOf(s.now) + 1
  {
    LateAreDue(s, s1, ids, tids, p, m);
  }

  predicate Submitted(s: Sys, s': Sys, ids: seq<JobId>, tids: JobId -> TranscriptId)
  {
    && (forall i | 0 <= i < |ids| ::
          && ids[i] in s'.jobs && s'.jobs[ids[i]].state.AwaitingTranscript?
          && s'.jobs[ids[i]].transcriptId == Some(tids(ids[i])))
    && forall id | id in s.jobs && id !in ids :: id in s'.jobs && s'.jobs[id] == s.jobs[id]
  }

  // One day's run: as many jobs as the cap allows are submitted, and the others are due at midnight.
  lemma Today(s: Sys, ids: seq<JobId>, tids: JobId -> TranscriptId, p: PortfolioId, t: Ticket, env: Env)
    returns (run: seq<Action>, s1: Sys, s2: Sys)
    requires Inv(s, env) && Backlog(s, ids, tids, p) && t !in s.claims && env.config.cap > 0 && FromTodayFree(s, p)
    ensures Runs(s, run, env) && End(s, run, env) == s1 && s1.now == s.now
    ensures s2 == s1.(now := NextUtcMidnight(s1.now)) && Inv(s2, env) && t !in s2.claims
    ensures var m := Min(|ids|, env.config.cap);
            && RowsTried(s, s1, ids, tids, m) && OthersKept(s, s1, ids)
            && Backlog(s2, ids[m..], tids, p) && FromTodayFree(s2, p) && DayOf(s2.now) == DayOf(s.now) + 1
  {
    run := TryAll(s, ids, tids, p, t, env);
    s1 := End(s, run, env);
    assert Count(s.usage, (p, DayOf(s.now))) == 0;
    RunKeepsInv(s, run, env);
    WaitKeepsInv(s1, NextUtcMidnight(s1.now) - s1.now, env);
    s2 := s1.(now := NextUtcMidnight(s1.now));
    NoneSubmitted(s, ids, tids, p, env);
    NextDay(s, s1, ids, tids, p, Min(|ids|, env.config.cap));
  }

  // A backlog of n due jobs and a free cap: some run submits them all and nothing else, the last one
  // on day ceil(n / cap).
  lemma {:induction false} BacklogDrains(s: Sys, ids: seq<JobId>, tids: JobId -> TranscriptId, p: PortfolioId,
          t: Ticket, env: Env)
    returns (run: seq<Action>)
    requires Inv(s, env) && Backlog(s, ids, tids, p) && t !in s.claims && env.config.cap > 0 && FromTodayFree(s, p)
    ensures Runs(s, run, env) && Submitted(s, End(s, run, env), ids, tids)
    ensures ids != [] ==> DayOf(End(s, run, env).now) == DayOf(s.now) + DaysFor(|ids|, env.config.cap) - 1
    decreases |ids|
  {
    if ids == [] {
      run := [];
    } else {
      var m := Min(|ids|, env.config.cap);
      var today, s1, s2 := Today(s, ids, tids, p, t, env);
      if m == |ids| {
        run := today;
        assert DaysFor(|ids|, env.config.cap) == 1;
        AllSubmitted(s, s1, ids, tids);
      } else {
        var later := BacklogDrains(s2, ids[m..], tids, p, t, env);
        run := ThenLater(s, s1, s2, today, later, env);
        DistinctIds(s, ids, tids, p);
        DrainedInTurn(s, s1, s2, End(s2, later, env), ids, tids, m);
      }
    }
  }

  lemma AllSubmitted(s: Sys, s1: Sys, ids: seq<JobId>, tids: JobId -> TranscriptId)
    requires RowsTried(s, s1, ids, tids, |ids|) && OthersKept(s, s1, ids)
    ensures Submitted(s, s1, ids, tids)
  {}

  lemma DistinctIds(s: Sys, ids: seq<JobId>, tids: JobId -> TranscriptId, p: PortfolioId)
    requires Backlog(s, ids, tids, p)
    ensures forall i, j | 0 <= i < j < |ids| :: ids[i] != ids[j]
  {}

  lemma ThenLater(s: Sys, s1: Sys, s2: Sys, today: seq<Action>, later: seq<Action>, env: Env)
    returns (run: seq<Action>)
    requires Runs(s, today, env) && End(s, today, env) == s1 && s2 == s1.(now := NextUtcMidnight(s1.now))
    requires Runs(s2, later, env)
    ensures Runs(s, run, env) && End(s, run, env) == End(s2, later, env)
  {
    var wait := [Wait(NextUtcMidnight(s1.now) - s1.now)];
    RunOfOne(s1, wait[0], env);
    RunsInSequence(s1, wait, later, env);
    RunsInSequence(s, today, wait + later, env);
    run := today + (wait + later);
  }

  lemma DrainedInTurn(s: Sys, s1: Sys, s2: Sys, s': Sys, ids: seq<JobId>, tids: JobId -> TranscriptId, m: nat)
    requires RowsTried(s, s1, ids, tids, m) && OthersKept(s, s1, ids) && m <= |ids| && s2.jobs == s1.jobs
    requires forall i, j | 0 <= i < j < |ids| :: ids[i] != ids[j]
    requires Submitted(s2, s', ids[m..], tids)
    ensures Submitted(s, s', ids, tids)
  {
    forall i | 0 <= i < |ids|
      ensures ids[i] in s'.jobs && s'.jobs[ids[i]].state.AwaitingTranscript?
      ensures s'.jobs[ids[i]].transcriptId == Some(tids(ids[i]))
    {
      if i < m {
        assert ids[i] !in ids[m..];
      } else {
        assert ids[i] == ids[m..][i - m];
      }
    }
    assert forall id | id !in ids :: id !in ids[m..];
  }

  // What day d paid for, among jobs of one portfolio, is within the cap.
  lemma PaidInADay(actions: seq<Action>, p: PortfolioId, ids: set<JobId>, d: int, env: Env)
    requires env.Ok() && Runs(START, actions, env)
    requires var s := End(START, actions, env);
             forall id <- ids :: id in s.jobs && s.jobs[id].portfolio == p && id in s.reserved && s.reserved[id] == d
    ensures |ids| <= env.config.cap
  {
    var s := End(START, actions, env);
    DailyCapIsConserved(actions, (p, d), env);
    Smaller(ids, PaidBy(s.jobs, s.reserved, (p, d)));
  }

  predicate PaidWithin(s: Sys, p: PortfolioId, ids: set<JobId>, day: int, w: nat)
  {
    forall id <- ids :: id in s.jobs && s.jobs[id].portfolio == p && id in s.reserved && day <= s.reserved[id] < day + w
  }

  // And no run at all can do better: jobs paid for within w days are at most w caps.
  lemma {:induction false} DaysAreNeeded(actions: seq<Action>, p: PortfolioId, ids: set<JobId>, day: int, w: nat,
          env: Env)
    requires env.Ok() && Runs(START, actions, env) && PaidWithin(End(START, actions, env), p, ids, day, w)
    ensures |ids| <= w * env.config.cap
    decreases w
  {
    var s := End(START, actions, env);
    if w == 0 {
      assert ids == {};
    } else {
      var last := set id | id in ids && s.reserved[id] == day + w - 1;
      DaysAreNeeded(actions, p, ids - last, day, w - 1, env);
      PaidInADay(actions, p, last, day + w - 1, env);
      assert ids == (ids - last) + last;
      assert w * env.config.cap == (w - 1) * env.config.cap + env.config.cap;
    }
  }

  lemma Smaller<T>(a: set<T>, b: set<T>)
    requires a <= b
    ensures |a| <= |b|
  {
    assert b == a + (b - a);
  }
}
