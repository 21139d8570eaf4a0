/** The durable job table: its SQL statements, the partial unique index on active jobs, and the
    repository object (src/mergemate/infrastructure/persistence/sqlite_repositories.py). */
module JobTable {
  import opened Wrappers
  import opened Timestamps

  type JobId = string
  type WorkerId = string

  datatype JobType = PlanRun | ExecuteRun
  datatype JobStatus = Queued | Running | Completed | Failed

  /** A time column. What it stores is the text `Iso(t)`; the row keeps the instant it stands for. */
  type Stamp = nat

  /** One row of `run_jobs`. */
  datatype Job = Job(
    runId: string,
    jobType: JobType,
    status: JobStatus,
    attemptCount: nat,
    leaseOwner: Option<WorkerId>,
    leaseExpiresAt: Option<Stamp>,
    lastHeartbeatAt: Option<Stamp>,
    errorText: Option<string>,
    queuedAt: Stamp,
    startedAt: Option<Stamp>,
    finishedAt: Option<Stamp>,
    updatedAt: Stamp)

  type Table = map<JobId, Job>

  predicate Active(job: Job) {
    job.status in {Queued, Running}
  }

  predicate ActiveFor(job: Job, runId: string, jobType: JobType) {
    Active(job) && job.runId == runId && job.jobType == jobType
  }

  /** The primary key, and the unique index on (run_id, job_type) over active rows. */
  predicate InsertRefused(jobs: Table, id: JobId, runId: string, jobType: JobType) {
    id in jobs || exists j :: j in jobs && ActiveFor(jobs[j], runId, jobType)
  }

  function NewJob(runId: string, jobType: JobType, now: nat): Job {
    Job(runId, jobType, Queued, 0, None, None, None, None, now, None, None, now)
  }

  const MICROS_PER_SECOND: nat := 1_000_000

  function Expiry(now: nat, leaseSeconds: nat): nat {
    now + leaseSeconds * MICROS_PER_SECOND
  }

  /** The claim's WHERE clause: queued, or running on a lease whose text sorts before the present. */
  predicate Claimable(job: Job, now: nat) {
    || job.status == Queued
    || (job.status == Running && job.leaseExpiresAt.Some? && StringLess(Iso(job.leaseExpiresAt.value), Iso(now)))
  }

  function Claimed(job: Job, worker: WorkerId, now: nat, leaseSeconds: nat): Job {
    job.(status := Running,
         attemptCount := job.attemptCount + 1,
         leaseOwner := Some(worker),
         leaseExpiresAt := Some(Expiry(now, leaseSeconds)),
         lastHeartbeatAt := Some(now),
         startedAt := if job.startedAt.Some? then job.startedAt else Some(now),
         updatedAt := now)
  }

  predicate Beatable(job: Job, worker: WorkerId) {
    job.status == Running && job.leaseOwner == Some(worker)
  }

  function Beaten(job: Job, now: nat, leaseSeconds: nat): Job {
    job.(leaseExpiresAt := Some(Expiry(now, leaseSeconds)),
         lastHeartbeatAt := Some(now),
         updatedAt := now)
  }

  /** `complete_job` and `fail_job` end in an UPDATE that tests nothing but the id. */
  function Finished(job: Job, status: JobStatus, error: Option<string>, now: nat): Job {
    job.(status := status, leaseOwner := None, leaseExpiresAt := None, lastHeartbeatAt := Some(now),
         errorText := error, finishedAt := Some(now), updatedAt := now)
  }

  // ---------------------------------------------------------------- invariant of the table

  ghost predicate JobOk(job: Job) {
    && (job.status == Running <==> job.leaseOwner.Some?)
    && (job.status == Running <==> job.leaseExpiresAt.Some?)
    && (Active(job) <==> job.finishedAt.None?)
    && (job.status == Failed <==> job.errorText.Some?)
    && (job.status == Queued ==> job.attemptCount == 0)
    && (job.status == Running ==> job.attemptCount > 0)
    && (job.startedAt.Some? <==> job.attemptCount > 0)
  }

  /** Two rows the partial unique index does not allow side by side. */
  predicate Clash(a: Job, b: Job) {
    Active(a) && Active(b) && a.runId == b.runId && a.jobType == b.jobType
  }

  ghost predicate UniqueActive(jobs: Table) {
    forall i, j :: i in jobs && j in jobs && Clash(jobs[i], jobs[j]) ==> i == j
  }

  ghost predicate TableOk(jobs: Table) {
    UniqueActive(jobs) && forall j :: j in jobs ==> JobOk(jobs[j])
  }

  predicate StampsInRange(job: Job) {
    job.leaseExpiresAt.Some? ==> InRange(job.leaseExpiresAt.value)
  }

  /** The text test is the time test: queued jobs can be claimed, and running ones whose expiry has passed. */
  lemma ClaimableIff(job: Job, now: nat)
    requires StampsInRange(job) && InRange(now)
    ensures Claimable(job, now) <==>
              || job.status == Queued
              || (job.status == Running && job.leaseExpiresAt.Some? && job.leaseExpiresAt.value < now)
  {
    if job.leaseExpiresAt.Some? {
      IsoOrderIsTimeOrder(job.leaseExpiresAt.value, now);
    }
  }

  /** What no statement on a job changes, but for its error text once it finishes. */
  predicate SameJob(a: Job, b: Job) {
    a.runId == b.runId && a.jobType == b.jobType && a.queuedAt == b.queuedAt && a.errorText == b.errorText
    && a.finishedAt == b.finishedAt
  }

  predicate FinishedAs(before: Job, after: Job, error: Option<string>, now: nat) {
    && after.errorText == error && after.finishedAt == Some(now) && after.updatedAt == now
    && after.lastHeartbeatAt == Some(now) && after.leaseOwner.None? && after.leaseExpiresAt.None?
    && after.runId == before.runId && after.jobType == before.jobType && after.queuedAt == before.queuedAt
    && after.attemptCount == before.attemptCount && after.startedAt == before.startedAt
  }

  datatype QueueDecision = Decision(id: JobId, job: Job, created: bool) | IntegrityError

  class JobRepository {
    var jobs: Table

    constructor ()
      ensures jobs == map[] && TableOk(jobs)
    {
      jobs := map[];
    }

    method Get(id: JobId) returns (job: Option<Job>)
      ensures job == if id in jobs then Some(jobs[id]) else None
    {
      job := if id in jobs then Some(jobs[id]) else None;
    }

    method GetActiveForRun(runId: string, jobType: JobType) returns (found: Option<JobId>)
      ensures found.Some? ==> found.value in jobs && ActiveFor(jobs[found.value], runId, jobType)
      ensures found.None? ==> forall j :: j in jobs ==> !ActiveFor(jobs[j], runId, jobType)
    {
      if exists j :: j in jobs && ActiveFor(jobs[j], runId, jobType) {
        var j :| j in jobs && ActiveFor(jobs[j], runId, jobType);
        return Some(j);
      }
      return None;
    }

    /** Insert a queued job, or hand back the active one the index protects. An integrity error that no
        active job explains is raised again. */
    method EnsureQueuedJob(id: JobId, runId: string, jobType: JobType, now: nat) returns (d: QueueDecision)
      requires TableOk(jobs)
      modifies this
      ensures TableOk(jobs)
      ensures d.Decision? && d.created <==> !InsertRefused(old(jobs), id, runId, jobType)
      ensures d.IntegrityError? <==> id in old(jobs)
                                     && forall j :: j in old(jobs) ==> !ActiveFor(old(jobs)[j], runId, jobType)
      ensures d.Decision? ==> d.id in jobs && d.job == jobs[d.id] && ActiveFor(d.job, runId, jobType)
                              && forall j :: j in jobs && ActiveFor(jobs[j], runId, jobType) ==> j == d.id
      ensures d.Decision? && d.created ==>
                d.id == id && d.job.status == Queued && d.job.queuedAt == now && d.job.updatedAt == now
                && d.job.lastHeartbeatAt.None?
      ensures jobs == if d.Decision? && d.created then old(jobs)[id := NewJob(runId, jobType, now)] else old(jobs)
    {
      if !InsertRefused(jobs, id, runId, jobType) {
        var job := NewJob(runId, jobType, now);
        jobs := jobs[id := job];
        return Decision(id, job, true);
      }
      var existing := GetActiveForRun(runId, jobType);
      if existing.None? {
        return IntegrityError;
      }
      return Decision(existing.value, jobs[existing.value], false);
    }

    method ClaimJob(id: JobId, worker: WorkerId, leaseSeconds: nat, now: nat) returns (job: Option<Job>)
      requires TableOk(jobs) && InRange(Expiry(now, leaseSeconds))
      modifies this
      ensures TableOk(jobs)
      ensures job.Some? <==> id in old(jobs) && Claimable(old(jobs)[id], now)
      ensures id in old(jobs) && StampsInRange(old(jobs)[id]) ==>
                (job.Some? <==> || old(jobs)[id].status == Queued
                                || (old(jobs)[id].status == Running && old(jobs)[id].leaseExpiresAt.Some?
                                    && old(jobs)[id].leaseExpiresAt.value < now))
      ensures job.Some? ==>
                var before := old(jobs)[id];
                && job.value.attemptCount == before.attemptCount + 1
                && job.value.leaseExpiresAt == Some(now + leaseSeconds * 1_000_000)
                && job.value.lastHeartbeatAt == Some(now) && job.value.updatedAt == now
                && job.value.startedAt == (if before.startedAt.Some? then before.startedAt else Some(now))
                && SameJob(before, job.value)
      ensures jobs == if job.Some? then old(jobs)[id := Claimed(old(jobs)[id], worker, now, leaseSeconds)]
                      else old(jobs)
      ensures job.Some? ==> id in jobs && job.value == jobs[id] && job.value.status == Running
                            && job.value.leaseOwner == Some(worker)
    {
      if id in jobs && StampsInRange(jobs[id]) {
        ClaimableIff(jobs[id], now);
      }
      if id !in jobs || !Claimable(jobs[id], now) {
        return None;
      }
      jobs := jobs[id := Claimed(jobs[id], worker, now, leaseSeconds)];
      job := Get(id);
    }

    method HeartbeatJob(id: JobId, worker: WorkerId, leaseSeconds: nat, now: nat) returns (job: Option<Job>)
      requires TableOk(jobs) && InRange(Expiry(now, leaseSeconds))
      modifies this
      ensures TableOk(jobs)
      ensures job.Some? <==> id in old(jobs) && old(jobs)[id].status == Running
                             && old(jobs)[id].leaseOwner == Some(worker)
      ensures job.Some? ==>
                var before := old(jobs)[id];
                && job.value.leaseExpiresAt == Some(now + leaseSeconds * 1_000_000)
                && job.value.lastHeartbeatAt == Some(now) && job.value.updatedAt == now
                && job.value.status == Running && job.value.leaseOwner == Some(worker)
                && job.value.attemptCount == before.attemptCount && job.value.startedAt == before.startedAt
                && SameJob(before, job.value)
      ensures jobs == if job.Some? then old(jobs)[id := Beaten(old(jobs)[id], now, leaseSeconds)] else old(jobs)
    {
      if id !in jobs || !Beatable(jobs[id], worker) {
        return None;
      }
      jobs := jobs[id := Beaten(jobs[id], now, leaseSeconds)];
      job := Get(id);
    }

    method CompleteJob(id: JobId, now: nat) returns (job: Option<Job>)
      requires TableOk(jobs)
      modifies this
      ensures TableOk(jobs)
      ensures job.Some? <==> id in old(jobs)
      ensures job.Some? ==> id in jobs && job.value == jobs[id] && jobs[id].status == Completed
      ensures job.Some? && old(jobs)[id].status != Completed ==>
                FinishedAs(old(jobs)[id], job.value, None, now)
      ensures jobs == if id in old(jobs) && old(jobs)[id].status != Completed
                      then old(jobs)[id := Finished(old(jobs)[id], Completed, None, now)] else old(jobs)
    {
      var existing := Get(id);
      if existing.None? || existing.value.status == Completed {
        return existing;
      }
      jobs := jobs[id := Finished(jobs[id], Completed, None, now)];
      job := Get(id);
    }

    method FailJob(id: JobId, error: string, now: nat) returns (job: Option<Job>)
      requires TableOk(jobs)
      modifies this
      ensures TableOk(jobs)
      ensures job.Some? <==> id in old(jobs)
      ensures job.Some? ==> id in jobs && job.value == jobs[id] && jobs[id].status == Failed
      ensures job.Some? && old(jobs)[id].status != Failed ==>
                FinishedAs(old(jobs)[id], job.value, Some(error), now)
      ensures jobs == if id in old(jobs) && old(jobs)[id].status != Failed
                      then old(jobs)[id := Finished(old(jobs)[id], Failed, Some(error), now)] else old(jobs)
    {
      var existing := Get(id);
      if existing.None? || existing.value.status == Failed {
        return existing;
      }
      jobs := jobs[id := Finished(jobs[id], Failed, Some(error), now)];
      job := Get(id);
    }
  }
}
