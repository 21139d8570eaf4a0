/** The job table under any number of workers. Each SQL statement is one atomic step; the clock value
    in it was read earlier and may be older than the step before. */
module JobLease {
  import opened Wrappers
  import opened Timestamps
  import opened JobTable

  datatype Step =
    | Insert(id: JobId, runId: string, jobType: JobType, now: nat)
    | Claim(id: JobId, worker: WorkerId, now: nat)
    | Heartbeat(id: JobId, worker: WorkerId, now: nat)
    | Complete(id: JobId, now: nat)
    | Fail(id: JobId, error: string, now: nat)

  /** Whether the statement changes the table. A worker issues Complete and Fail after an earlier read
      of the row, which promises nothing about it any more. */
  predicate Accepted(jobs: Table, step: Step) {
    match step
    case Insert(id, runId, jobType, _) => !InsertRefused(jobs, id, runId, jobType)
    case Claim(id, _, now) => id in jobs && Claimable(jobs[id], now)
    case Heartbeat(id, worker, _) => id in jobs && Beatable(jobs[id], worker)
    case Complete(id, _) => id in jobs
    case Fail(id, _, _) => id in jobs
  }

  function Apply(jobs: Table, step: Step, lease: nat): Table {
    if !Accepted(jobs, step) then jobs
    else match step
      case Insert(id, runId, jobType, now) => jobs[id := NewJob(runId, jobType, now)]
      case Claim(id, worker, now) => jobs[id := Claimed(jobs[id], worker, now, lease)]
      case Heartbeat(id, _, now) => jobs[id := Beaten(jobs[id], now, lease)]
      case Complete(id, now) => jobs[id := Finished(jobs[id], Completed, None, now)]
      case Fail(id, error, now) => jobs[id := Finished(jobs[id], Failed, Some(error), now)]
  }

  /** The table after the first `k` steps, from the empty table, with the configured lease in seconds. */
  function After(steps: seq<Step>, lease: nat, k: nat): Table
    requires k <= |steps|
  {
    if k == 0 then map[] else Apply(After(steps, lease, k - 1), steps[k - 1], lease)
  }

  /** Every clock reading, and every expiry computed from one, is an instant `datetime` can hold. */
  ghost predicate ClockInRange(steps: seq<Step>, lease: nat) {
    forall k :: 0 <= k < |steps| ==> InRange(Expiry(steps[k].now, lease))
  }

  // ---------------------------------------------------------------- history of one job

  predicate ClaimsAt(steps: seq<Step>, lease: nat, k: nat, id: JobId)
    requires k < |steps|
  {
    steps[k].Claim? && steps[k].id == id && Accepted(After(steps, lease, k), steps[k])
  }

  predicate RenewsAt(steps: seq<Step>, lease: nat, k: nat, id: JobId)
    requires k < |steps|
  {
    (steps[k].Claim? || steps[k].Heartbeat?) && steps[k].id == id && Accepted(After(steps, lease, k), steps[k])
  }

  function ClaimCount(steps: seq<Step>, lease: nat, k: nat, id: JobId): nat
    requires k <= |steps|
  {
    if k == 0 then 0
    else ClaimCount(steps, lease, k - 1, id) + if ClaimsAt(steps, lease, k - 1, id) then 1 else 0
  }

  /** Clock reading of the first accepted claim. */
  function FirstClaim(steps: seq<Step>, lease: nat, k: nat, id: JobId): Option<nat>
    requires k <= |steps|
  {
    if k == 0 then None
    else if FirstClaim(steps, lease, k - 1, id).Some? then FirstClaim(steps, lease, k - 1, id)
    else if ClaimsAt(steps, lease, k - 1, id) then Some(steps[k - 1].now)
    else None
  }

  /** Clock reading of the last accepted claim or heartbeat. */
  function LastRenewal(steps: seq<Step>, lease: nat, k: nat, id: JobId): Option<nat>
    requires k <= |steps|
  {
    if k == 0 then None
    else if RenewsAt(steps, lease, k - 1, id) then Some(steps[k - 1].now)
    else LastRenewal(steps, lease, k - 1, id)
  }

  // ---------------------------------------------------------------- invariant over all runs

  lemma ApplyKeepsTable(jobs: Table, step: Step, lease: nat)
    requires TableOk(jobs)
    ensures TableOk(Apply(jobs, step, lease))
  {
    var jobs' := Apply(jobs, step, lease);
    forall i, j | i in jobs' && j in jobs' && Clash(jobs'[i], jobs'[j])
      ensures i == j
    {
      if step.Insert? && Accepted(jobs, step) {
        assert i in jobs && j in jobs ==> Clash(jobs[i], jobs[j]);
        assert i in jobs && j == step.id ==> !ActiveFor(jobs[i], step.runId, step.jobType);
        assert j in jobs && i == step.id ==> !ActiveFor(jobs[j], step.runId, step.jobType);
      } else {
        assert i in jobs && j in jobs && Clash(jobs[i], jobs[j]);
      }
    }
  }

  ghost predicate HistoryOk(steps: seq<Step>, lease: nat, k: nat, id: JobId)
    requires k <= |steps|
  {
    var jobs := After(steps, lease, k);
    if id !in jobs then
      ClaimCount(steps, lease, k, id) == 0 && FirstClaim(steps, lease, k, id).None?
    else
      && jobs[id].attemptCount == ClaimCount(steps, lease, k, id)
      && jobs[id].startedAt == FirstClaim(steps, lease, k, id)
      && (jobs[id].status == Running ==>
            && LastRenewal(steps, lease, k, id).Some?
            && jobs[id].lastHeartbeatAt == LastRenewal(steps, lease, k, id)
            && jobs[id].leaseExpiresAt == Some(Expiry(LastRenewal(steps, lease, k, id).value, lease)))
  }

  lemma HistoryStep(steps: seq<Step>, lease: nat, k: nat, id: JobId)
    requires k < |steps| && TableOk(After(steps, lease, k)) && HistoryOk(steps, lease, k, id)
    ensures HistoryOk(steps, lease, k + 1, id)
  {
  }

  /** Over every run: at most one active job per run and type, the row invariant, `attempt_count` is the
      number of successful claims, `started_at` is the time of the first, and a running job's expiry is
      the last renewal plus the lease. */
  lemma {:induction false} JobTableInvariant(steps: seq<Step>, lease: nat, k: nat, id: JobId)
    requires k <= |steps|
    ensures TableOk(After(steps, lease, k))
    ensures HistoryOk(steps, lease, k, id)
  {
    if k > 0 {
      JobTableInvariant(steps, lease, k - 1, id);
      ApplyKeepsTable(After(steps, lease, k - 1), steps[k - 1], lease);
      HistoryStep(steps, lease, k - 1, id);
    }
  }

  /** A finished job stays finished, however its row is updated afterwards. */
  lemma {:induction false} FinishedForGood(steps: seq<Step>, lease: nat, i: nat, j: nat, id: JobId)
    requires i <= j <= |steps| && id in After(steps, lease, i) && !Active(After(steps, lease, i)[id])
    ensures id in After(steps, lease, j) && !Active(After(steps, lease, j)[id])
  {
    if i < j {
      FinishedForGood(steps, lease, i, j - 1, id);
      JobTableInvariant(steps, lease, j - 1, id);
    }
  }

  /** A job once inserted is never lost, and stays the job of its run and type. */
  lemma {:induction false} JobKept(steps: seq<Step>, lease: nat, i: nat, j: nat, id: JobId)
    requires i <= j <= |steps| && id in After(steps, lease, i)
    ensures id in After(steps, lease, j)
    ensures var a, b := After(steps, lease, i)[id], After(steps, lease, j)[id];
            a.runId == b.runId && a.jobType == b.jobType && a.queuedAt == b.queuedAt
  {
    if i < j {
      JobKept(steps, lease, i, j - 1, id);
    }
  }

  // ---------------------------------------------------------------- a refused insert and the lookup after it

  ghost predicate NoneActive(jobs: Table, runId: string, jobType: JobType) {
    forall j :: j in jobs ==> !ActiveFor(jobs[j], runId, jobType)
  }

  predicate Finishes(step: Step, id: JobId) {
    (step.Complete? || step.Fail?) && step.id == id
  }

  lemma {:induction false} ActiveUntilFinished(steps: seq<Step>, lease: nat, k: nat, m: nat, id: JobId,
                                               runId: string, jobType: JobType)
    requires k <= m <= |steps|
    requires id in After(steps, lease, k) && ActiveFor(After(steps, lease, k)[id], runId, jobType)
    requires forall p :: k <= p < m ==> !Finishes(steps[p], id)
    ensures id in After(steps, lease, m) && ActiveFor(After(steps, lease, m)[id], runId, jobType)
  {
    if k < m {
      ActiveUntilFinished(steps, lease, k, m - 1, id, runId, jobType);
    }
  }

  /** A caller of ensure_queued_job whose insert at step `k` is refused looks the active job up later, when
      `m` steps are done. It raises if there is none, and that happens only if its id was taken or a worker
      finished the job that refused it in between. */
  lemma RefusedWithoutActive(steps: seq<Step>, lease: nat, k: nat, m: nat)
    requires k < m <= |steps| && steps[k].Insert? && !Accepted(After(steps, lease, k), steps[k])
    requires NoneActive(After(steps, lease, m), steps[k].runId, steps[k].jobType)
    ensures || steps[k].id in After(steps, lease, k)
            || exists p, j :: k < p < m && j in After(steps, lease, k) && Finishes(steps[p], j)
                              && ActiveFor(After(steps, lease, k)[j], steps[k].runId, steps[k].jobType)
  {
    var jobs := After(steps, lease, k);
    if steps[k].id !in jobs {
      var j :| j in jobs && ActiveFor(jobs[j], steps[k].runId, steps[k].jobType);
      if forall p :: k <= p < m ==> !Finishes(steps[p], j) {
        ActiveUntilFinished(steps, lease, k, m, j, steps[k].runId, steps[k].jobType);
        assert false;
      }
      var p :| k <= p < m && Finishes(steps[p], j);
    }
  }

  /** The second does happen: then the caller raises although its id is free. */
  lemma RefusedWithoutClash(lease: nat, runId: string, jobType: JobType)
    ensures exists steps: seq<Step>, k: nat, m: nat ::
              && k < m <= |steps| && steps[k].Insert? && !Accepted(After(steps, lease, k), steps[k])
              && steps[k].id !in After(steps, lease, k)
              && NoneActive(After(steps, lease, m), steps[k].runId, steps[k].jobType)
  {
    var steps := [Insert("a", runId, jobType, 0), Insert("b", runId, jobType, 1), Complete("a", 2)];
    assert After(steps, lease, 0) == map[];
    assert After(steps, lease, 1) == map["a" := NewJob(runId, jobType, 0)];
    assert InsertRefused(After(steps, lease, 1), "b", runId, jobType);
    assert After(steps, lease, 2) == After(steps, lease, 1);
    assert After(steps, lease, 3) == map["a" := Finished(NewJob(runId, jobType, 0), Completed, None, 2)];
    assert steps[1].id !in After(steps, lease, 1);
    assert NoneActive(After(steps, lease, 3), steps[1].runId, steps[1].jobType);
  }

  // ---------------------------------------------------------------- lease exclusion

  /** A running job is claimable exactly when more than the lease has passed since its last renewal. */
  lemma ReclaimIffExpired(steps: seq<Step>, lease: nat, k: nat, id: JobId, now: nat)
    requires k <= |steps| && ClockInRange(steps, lease) && InRange(now)
    requires id in After(steps, lease, k) && After(steps, lease, k)[id].status == Running
    ensures LastRenewal(steps, lease, k, id).Some?
    ensures Claimable(After(steps, lease, k)[id], now) <==>
              now > LastRenewal(steps, lease, k, id).value + lease * 1_000_000
  {
    JobTableInvariant(steps, lease, k, id);
    RenewalInRange(steps, lease, k, id);
    IsoOrderIsTimeOrder(Expiry(LastRenewal(steps, lease, k, id).value, lease), now);
  }

  /** Over every run: a claim of an existing job is accepted if and only if the job is queued, or it runs and
      was last renewed more than the lease ago. */
  lemma ClaimAcceptedIff(steps: seq<Step>, lease: nat, k: nat)
    requires k < |steps| && ClockInRange(steps, lease)
    requires steps[k].Claim? && steps[k].id in After(steps, lease, k)
    ensures var job, renewal := After(steps, lease, k)[steps[k].id], LastRenewal(steps, lease, k, steps[k].id);
            Accepted(After(steps, lease, k), steps[k]) <==>
              || job.status == Queued
              || (job.status == Running && renewal.Some? && steps[k].now > renewal.value + lease * 1_000_000)
  {
    assert InRange(Expiry(steps[k].now, lease));
    if After(steps, lease, k)[steps[k].id].status == Running {
      ReclaimIffExpired(steps, lease, k, steps[k].id, steps[k].now);
    }
  }

  /** A job just inserted can be claimed by whoever comes next. */
  lemma NewJobIsClaimed(steps: seq<Step>, lease: nat, k: nat)
    requires k + 1 < |steps| && steps[k].Insert? && Accepted(After(steps, lease, k), steps[k])
    requires steps[k + 1].Claim? && steps[k + 1].id == steps[k].id
    ensures ClaimsAt(steps, lease, k + 1, steps[k].id)
    ensures var job := After(steps, lease, k + 2)[steps[k].id];
            job.status == Running && job.leaseOwner == Some(steps[k + 1].worker) && job.attemptCount == 1
  {
    assert After(steps, lease, k + 1) == Apply(After(steps, lease, k), steps[k], lease);
    assert After(steps, lease, k + 2) == Apply(After(steps, lease, k + 1), steps[k + 1], lease);
  }

  lemma {:induction false} RenewalInRange(steps: seq<Step>, lease: nat, k: nat, id: JobId)
    requires k <= |steps| && ClockInRange(steps, lease) && LastRenewal(steps, lease, k, id).Some?
    ensures InRange(Expiry(LastRenewal(steps, lease, k, id).value, lease))
  {
    if !RenewsAt(steps, lease, k - 1, id) {
      RenewalInRange(steps, lease, k - 1, id);
    }
  }

  /** The holder renews at `k`: by the claim at `i`, or by issuing a heartbeat. */
  predicate Beat(steps: seq<Step>, i: nat, k: nat, id: JobId, holder: WorkerId)
    requires k < |steps|
  {
    k == i || (steps[k].Heartbeat? && steps[k].id == id && steps[k].worker == holder)
  }

  /** The holder's last beat before step `k`. */
  function LastBeat(steps: seq<Step>, i: nat, k: nat, id: JobId, holder: WorkerId): (p: nat)
    requires i < k <= |steps|
    ensures i <= p < k
    decreases k
  {
    if k - 1 == i || Beat(steps, i, k - 1, id, holder) then k - 1 else LastBeat(steps, i, k - 1, id, holder)
  }

  /** A beat at `q` comes within the lease of the one before. */
  ghost predicate InTime(steps: seq<Step>, lease: nat, i: nat, q: nat, id: JobId, holder: WorkerId)
    requires i < q < |steps|
  {
    Beat(steps, i, q, id, holder) ==> steps[q].now <= Expiry(steps[LastBeat(steps, i, q, id, holder)].now, lease)
  }

  /** The holder beats at `e`, and each of its beats since the claim at `i` is in time. */
  ghost predicate BeatsKeepUp(steps: seq<Step>, lease: nat, i: nat, e: nat, id: JobId, holder: WorkerId)
    requires i <= e < |steps|
  {
    && Beat(steps, i, e, id, holder)
    && forall q :: i < q <= e ==> InTime(steps, lease, i, q, id, holder)
  }

  /** Clock readings used on this job do not run backwards in the order the statements take effect. */
  ghost predicate MonotoneClock(steps: seq<Step>, i: nat, e: nat, id: JobId)
    requires i <= e < |steps|
  {
    forall p, q :: i <= p <= q <= e && steps[p].id == id == steps[q].id ==> steps[p].now <= steps[q].now
  }

  ghost predicate NotFinishedBetween(steps: seq<Step>, i: nat, e: nat, id: JobId)
    requires i <= e < |steps|
  {
    forall k :: i < k < e && (steps[k].Complete? || steps[k].Fail?) ==> steps[k].id != id
  }

  /** The holder's next beat from `k` on, and that no beat lies between it and the last one. */
  lemma {:induction false} NextBeat(steps: seq<Step>, i: nat, k: nat, e: nat, id: JobId, holder: WorkerId)
    returns (q: nat)
    requires i < k <= e < |steps| && Beat(steps, i, e, id, holder)
    ensures k <= q <= e && Beat(steps, i, q, id, holder)
    ensures LastBeat(steps, i, q, id, holder) == LastBeat(steps, i, k, id, holder)
    decreases e - k
  {
    if Beat(steps, i, k, id, holder) {
      q := k;
    } else {
      q := NextBeat(steps, i, k + 1, e, id, holder);
    }
  }

  ghost predicate HeldBy(steps: seq<Step>, lease: nat, i: nat, k: nat, id: JobId, holder: WorkerId)
    requires i < k <= |steps|
  {
    && id in After(steps, lease, k)
    && Beatable(After(steps, lease, k)[id], holder)
    && LastRenewal(steps, lease, k, id) == Some(steps[LastBeat(steps, i, k, id, holder)].now)
  }

  lemma ClaimRefusedWhileHeld(steps: seq<Step>, lease: nat, i: nat, k: nat, e: nat, id: JobId, holder: WorkerId)
    requires i < k < e < |steps| && ClockInRange(steps, lease)
    requires BeatsKeepUp(steps, lease, i, e, id, holder) && MonotoneClock(steps, i, e, id)
    requires HeldBy(steps, lease, i, k, id, holder) && steps[k].Claim? && steps[k].id == id
    ensures !Accepted(After(steps, lease, k), steps[k])
  {
    var q := NextBeat(steps, i, k, e, id, holder);
    assert InTime(steps, lease, i, q, id, holder);
    assert steps[k].now <= steps[q].now;
    assert InRange(Expiry(steps[k].now, lease));
    ReclaimIffExpired(steps, lease, k, id, steps[k].now);
  }

  lemma ClaimHolds(steps: seq<Step>, lease: nat, i: nat, id: JobId)
    requires i < |steps| && ClaimsAt(steps, lease, i, id)
    ensures HeldBy(steps, lease, i, i + 1, id, steps[i].worker)
  {
  }

  lemma HeldStep(steps: seq<Step>, lease: nat, i: nat, k: nat, id: JobId, holder: WorkerId)
    requires i < k < |steps| && HeldBy(steps, lease, i, k, id, holder)
    requires !ClaimsAt(steps, lease, k, id)
    requires steps[k].Complete? || steps[k].Fail? ==> steps[k].id != id
    ensures HeldBy(steps, lease, i, k + 1, id, holder)
  {
    assert After(steps, lease, k + 1) == Apply(After(steps, lease, k), steps[k], lease);
    if steps[k].id == id {
      assert RenewsAt(steps, lease, k, id) <==> Beat(steps, i, k, id, holder);
    } else {
      assert !RenewsAt(steps, lease, k, id) && !Beat(steps, i, k, id, holder);
    }
  }

  /** Whoever holds the job as step `k` comes still holds it against that step, and a beat renews. */
  lemma HeldAgainstStep(steps: seq<Step>, lease: nat, i: nat, k: nat, e: nat, id: JobId, holder: WorkerId)
    requires i < k <= e < |steps| && ClockInRange(steps, lease)
    requires BeatsKeepUp(steps, lease, i, e, id, holder) && MonotoneClock(steps, i, e, id)
    requires HeldBy(steps, lease, i, k, id, holder)
    ensures !ClaimsAt(steps, lease, k, id)
    ensures Beat(steps, i, k, id, holder) ==> RenewsAt(steps, lease, k, id)
  {
    if steps[k].Claim? && steps[k].id == id {
      assert k != e;
      ClaimRefusedWhileHeld(steps, lease, i, k, e, id, holder);
    }
  }

  lemma {:induction false} HolderStillHolds(steps: seq<Step>, lease: nat, i: nat, k: nat, e: nat, id: JobId)
    requires i < k <= e < |steps| && ClockInRange(steps, lease)
    requires ClaimsAt(steps, lease, i, id)
    requires BeatsKeepUp(steps, lease, i, e, id, steps[i].worker)
    requires MonotoneClock(steps, i, e, id) && NotFinishedBetween(steps, i, e, id)
    ensures HeldBy(steps, lease, i, k, id, steps[i].worker)
    decreases k
  {
    if k == i + 1 {
      ClaimHolds(steps, lease, i, id);
    } else {
      HolderStillHolds(steps, lease, i, k - 1, e, id);
      HeldAgainstStep(steps, lease, i, k - 1, e, id, steps[i].worker);
      HeldStep(steps, lease, i, k - 1, id, steps[i].worker);
    }
  }

  /** Lease exclusion: while the holder's heartbeats keep up, the clock does not run backwards and nobody
      finishes the job, the holder keeps it: every other claim in between is refused. */
  lemma HolderKeepsJob(steps: seq<Step>, lease: nat, i: nat, k: nat, e: nat, id: JobId)
    requires i < k <= e < |steps| && ClockInRange(steps, lease)
    requires ClaimsAt(steps, lease, i, id)
    requires BeatsKeepUp(steps, lease, i, e, id, steps[i].worker)
    requires MonotoneClock(steps, i, e, id) && NotFinishedBetween(steps, i, e, id)
    ensures HeldBy(steps, lease, i, k, id, steps[i].worker)
    ensures !ClaimsAt(steps, lease, k, id)
    ensures Beat(steps, i, k, id, steps[i].worker) ==> RenewsAt(steps, lease, k, id)
  {
    HolderStillHolds(steps, lease, i, k, e, id);
    HeldAgainstStep(steps, lease, i, k, e, id, steps[i].worker);
  }
}
