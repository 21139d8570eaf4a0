/** The in-memory queue and the worker that drains it: which job ids are pending, queued, in flight and
    active, and the queue's count of unfinished items (src/mergemate/infrastructure/queue/local_queue.py,
    src/mergemate/application/jobs/worker.py). */
module QueueWorker {
  import opened Wrappers
  import opened JobTable

  /** How far the asyncio task of one delivered job has come. */
  datatype Phase =
    | Created       // scheduled, the job is not claimed yet
    | AwaitingSlot  // claimed, waiting for the semaphore
    | Processing    // inside the semaphore, in _process_job
    | Ended         // done, its callbacks have not run
    | Released      // the callback that drops the id from the active set has run

  datatype Task = Task(job: JobId, phase: Phase)

  type TaskId = nat

  datatype Sys = Sys(
    queue: seq<JobId>,          // asyncio.Queue
    unfinished: nat,            // its unfinished counter
    pending: set<JobId>,        // _pending_job_ids
    active: set<JobId>,         // _active_job_ids
    tasks: map<TaskId, Task>,   // every task that is not acknowledged yet
    free: nat,                  // the semaphore's value
    accepted: seq<JobId>,       // history: ids enqueue took
    delivered: seq<JobId>,      // history: ids dequeue handed out
    owner: map<JobId, TaskId>,  // history: which task has each id in flight
    skipped: nat,               // history: deliveries the duplicate test of the worker dropped
    underflow: bool)            // history: task_done was called with nothing unfinished

  datatype Event =
    | Dispatch(id: JobId)
    | Deliver
    | ClaimRefused(t: TaskId)
    | ClaimWon(t: TaskId)
    | TakeSlot(t: TaskId)
    | Finish(t: TaskId)
    | DropActive(t: TaskId)
    | Acknowledge(t: TaskId)

  function Start(maxConcurrent: nat): Sys {
    Sys([], 0, {}, {}, map[], maxConcurrent, [], [], map[], 0, false)
  }

  predicate InPhase(s: Sys, t: TaskId, phase: Phase) {
    t in s.tasks && s.tasks[t].phase == phase
  }

  predicate Enabled(s: Sys, e: Event) {
    match e
    case Dispatch(_) => true
    case Deliver => s.queue != []
    case ClaimRefused(t) => InPhase(s, t, Created)
    case ClaimWon(t) => InPhase(s, t, Created)
    case TakeSlot(t) => InPhase(s, t, AwaitingSlot) && s.free > 0
    case Finish(t) => InPhase(s, t, Processing)
    case DropActive(t) => InPhase(s, t, Ended)
    case Acknowledge(t) => InPhase(s, t, Released)
  }

  function Moved(s: Sys, t: TaskId, phase: Phase): map<TaskId, Task>
    requires t in s.tasks
  {
    s.tasks[t := s.tasks[t].(phase := phase)]
  }

  function Apply(s: Sys, e: Event): Sys
    requires Enabled(s, e)
  {
    match e
    case Dispatch(id) =>
      if id in s.pending then s
      else s.(queue := s.queue + [id], unfinished := s.unfinished + 1, pending := s.pending + {id},
              accepted := s.accepted + [id])
    case Deliver =>
      var id := s.queue[0];
      var taken := s.(queue := s.queue[1..], delivered := s.delivered + [id]);
      if id in s.active then taken.(skipped := s.skipped + 1)
      else taken.(active := s.active + {id}, tasks := s.tasks[|s.delivered| := Task(id, Created)],
                  owner := s.owner[id := |s.delivered|])
    case ClaimRefused(t) => s.(tasks := Moved(s, t, Ended))
    case ClaimWon(t) => s.(tasks := Moved(s, t, AwaitingSlot))
    case TakeSlot(t) => s.(tasks := Moved(s, t, Processing), free := s.free - 1)
    case Finish(t) => s.(tasks := Moved(s, t, Ended), free := s.free + 1)
    case DropActive(t) => s.(tasks := Moved(s, t, Released), active := s.active - {s.tasks[t].job})
    case Acknowledge(t) =>
      s.(tasks := s.tasks - {t},
         owner := s.owner - {s.tasks[t].job},
         pending := s.pending - {s.tasks[t].job},
         unfinished := if s.unfinished == 0 then 0 else s.unfinished - 1,
         underflow := s.underflow || s.unfinished == 0)
  }

  // ---------------------------------------------------------------- invariant

  ghost function InFlight(s: Sys): set<JobId> {
    set t | t in s.tasks :: s.tasks[t].job
  }

  ghost function InProcess(s: Sys): set<TaskId> {
    set t | t in s.tasks && s.tasks[t].phase == Processing
  }

  ghost predicate Distinct(ids: seq<JobId>) {
    forall i, j :: 0 <= i < j < |ids| ==> ids[i] != ids[j]
  }

  ghost predicate QueueOk(s: Sys) {
    && Distinct(s.queue)
    && (forall id :: id in s.queue ==> id in s.pending && id !in s.owner)
    && (forall id :: id in s.pending ==> id in s.queue || id in s.owner)
    && (forall id :: id in s.owner ==> id in s.pending)
  }

  /** `owner` inverts the tasks, so no id is in flight twice; active are those not released yet. */
  ghost predicate TasksOk(s: Sys) {
    && (forall t :: t in s.tasks ==> s.tasks[t].job in s.owner && s.owner[s.tasks[t].job] == t && t < |s.delivered|)
    && (forall id :: id in s.owner ==> s.owner[id] in s.tasks && s.tasks[s.owner[id]].job == id)
    && (forall id :: id in s.active <==> id in s.owner && s.tasks[s.owner[id]].phase != Released)
  }

  ghost predicate CountsOk(s: Sys, maxConcurrent: nat) {
    && s.unfinished == |s.queue| + |s.tasks|
    && s.unfinished == |s.pending|
    && s.free + |InProcess(s)| == maxConcurrent
  }

  ghost predicate HistoryOk(s: Sys) {
    s.accepted == s.delivered + s.queue && s.skipped == 0 && !s.underflow
  }

  ghost predicate Inv(s: Sys, maxConcurrent: nat) {
    QueueOk(s) && TasksOk(s) && CountsOk(s, maxConcurrent) && HistoryOk(s)
  }

  lemma HeadFacts(ids: seq<JobId>)
    requires ids != [] && Distinct(ids)
    ensures Distinct(ids[1..]) && ids[0] !in ids[1..]
    ensures forall id :: id in ids <==> id == ids[0] || id in ids[1..]
  {
    assert ids == [ids[0]] + ids[1..];
  }

  lemma QueueNext(s: Sys, e: Event)
    requires QueueOk(s) && TasksOk(s) && Enabled(s, e)
    ensures QueueOk(Apply(s, e))
  {
    match e
    case Deliver =>
      HeadFacts(s.queue);
      assert s.queue[0] !in s.active;
    case Acknowledge(t) =>
      assert s.tasks[t].job in s.owner;
    case _ =>
  }

  lemma TasksNext(s: Sys, e: Event)
    requires QueueOk(s) && TasksOk(s) && Enabled(s, e)
    ensures TasksOk(Apply(s, e))
  {
    match e
    case Deliver =>
      assert s.queue[0] in s.queue;
      assert |s.delivered| !in s.tasks;
    case _ =>
  }

  lemma ProcessingMoves(s: Sys, t: TaskId, phase: Phase)
    requires t in s.tasks && (s.tasks[t].phase == Processing) != (phase == Processing)
    ensures var s' := s.(tasks := Moved(s, t, phase));
            |s'.tasks| == |s.tasks|
            && |InProcess(s')| == |InProcess(s)| + if phase == Processing then 1 else -1
  {
    var s' := s.(tasks := Moved(s, t, phase));
    assert s'.tasks.Keys == s.tasks.Keys;
    if phase == Processing {
      assert InProcess(s') == InProcess(s) + {t};
    } else {
      assert InProcess(s) == InProcess(s') + {t};
    }
  }

  lemma ProcessingStays(s: Sys, t: TaskId, phase: Phase)
    requires t in s.tasks && s.tasks[t].phase != Processing && phase != Processing
    ensures var s' := s.(tasks := Moved(s, t, phase));
            |s'.tasks| == |s.tasks| && InProcess(s') == InProcess(s)
  {
    var s' := s.(tasks := Moved(s, t, phase));
    assert s'.tasks.Keys == s.tasks.Keys;
  }

  lemma DeliverCounts(s: Sys, maxConcurrent: nat)
    requires Inv(s, maxConcurrent) && s.queue != []
    ensures CountsOk(Apply(s, Deliver), maxConcurrent)
  {
    var s' := Apply(s, Deliver);
    assert s.queue[0] in s.queue;
    assert |s.delivered| !in s.tasks;
    assert s'.tasks.Keys == s.tasks.Keys + {|s.delivered|};
    assert InProcess(s') == InProcess(s);
  }

  lemma AcknowledgeCounts(s: Sys, t: TaskId, maxConcurrent: nat)
    requires Inv(s, maxConcurrent) && InPhase(s, t, Released)
    ensures CountsOk(Apply(s, Acknowledge(t)), maxConcurrent) && s.unfinished > 0
  {
    var s' := Apply(s, Acknowledge(t));
    assert InProcess(s') == InProcess(s);
    assert s.tasks.Keys == s'.tasks.Keys + {t};
    assert s.tasks[t].job in s.pending;
  }

  lemma DispatchCounts(s: Sys, id: JobId, maxConcurrent: nat)
    requires Inv(s, maxConcurrent)
    ensures CountsOk(Apply(s, Dispatch(id)), maxConcurrent)
  {
    assert InProcess(Apply(s, Dispatch(id))) == InProcess(s);
  }

  lemma CountsNext(s: Sys, e: Event, maxConcurrent: nat)
    requires Inv(s, maxConcurrent) && Enabled(s, e)
    ensures CountsOk(Apply(s, e), maxConcurrent)
    ensures e.Acknowledge? ==> s.unfinished > 0
  {
    match e
    case Dispatch(id) => DispatchCounts(s, id, maxConcurrent);
    case Deliver => DeliverCounts(s, maxConcurrent);
    case ClaimRefused(t) => ProcessingStays(s, t, Ended);
    case ClaimWon(t) => ProcessingStays(s, t, AwaitingSlot);
    case TakeSlot(t) => ProcessingMoves(s, t, Processing);
    case Finish(t) => ProcessingMoves(s, t, Ended);
    case DropActive(t) =>
      ProcessingStays(s, t, Released);
      assert InProcess(Apply(s, e)) == InProcess(s);
    case Acknowledge(t) => AcknowledgeCounts(s, t, maxConcurrent);
  }

  lemma HistoryNext(s: Sys, e: Event, maxConcurrent: nat)
    requires Inv(s, maxConcurrent) && Enabled(s, e)
    ensures HistoryOk(Apply(s, e))
  {
    match e
    case Deliver =>
      assert s.queue[0] in s.queue;
      assert s.delivered + s.queue == s.delivered + [s.queue[0]] + s.queue[1..];
    case Acknowledge(t) => CountsNext(s, e, maxConcurrent);
    case Dispatch(id) => assert s.accepted + [id] == s.delivered + (s.queue + [id]);
    case _ =>
  }

  /** The state after `events`, if each is enabled where it happens. */
  ghost function RunOf(events: seq<Event>, maxConcurrent: nat): Option<Sys>
    decreases |events|
  {
    if events == [] then Some(Start(maxConcurrent))
    else
      var before := RunOf(events[..|events| - 1], maxConcurrent);
      var e := events[|events| - 1];
      if before.Some? && Enabled(before.value, e) then Some(Apply(before.value, e)) else None
  }

  ghost predicate Reachable(s: Sys, events: seq<Event>, maxConcurrent: nat) {
    RunOf(events, maxConcurrent) == Some(s)
  }

  lemma ReachableThen(before: Sys, events: seq<Event>, e: Event, maxConcurrent: nat)
    requires Reachable(before, events, maxConcurrent) && Enabled(before, e)
    ensures Reachable(Apply(before, e), events + [e], maxConcurrent)
  {
    assert (events + [e])[..|events + [e]| - 1] == events;
  }

  lemma {:induction false} InvReachable(s: Sys, events: seq<Event>, maxConcurrent: nat)
    requires Reachable(s, events, maxConcurrent)
    ensures Inv(s, maxConcurrent)
    decreases |events|
  {
    if events == [] {
      assert InProcess(s) == {};
    } else {
      var e := events[|events| - 1];
      var before := RunOf(events[..|events| - 1], maxConcurrent).value;
      InvReachable(before, events[..|events| - 1], maxConcurrent);
      QueueNext(before, e);
      TasksNext(before, e);
      CountsNext(before, e, maxConcurrent);
      HistoryNext(before, e, maxConcurrent);
    }
  }

  /** In every state before `stop`: pending ids are the disjoint union of queued and in-flight ids, the
      unfinished counter counts them, `task_done` never underflows, the worker's duplicate test never
      drops a delivery, every accepted id is delivered exactly once and in order, and at most
      `maxConcurrent` jobs are being processed. */
  lemma Conservation(s: Sys, events: seq<Event>, maxConcurrent: nat)
    requires Reachable(s, events, maxConcurrent)
    ensures s.pending == (set id | id in s.queue) + InFlight(s)
    ensures (set id | id in s.queue) !! InFlight(s)
    ensures s.unfinished == |s.pending| == |s.queue| + |s.tasks|
    ensures !s.underflow && s.skipped == 0
    ensures s.accepted == s.delivered + s.queue
    ensures |InProcess(s)| <= maxConcurrent
    ensures forall e :: Enabled(s, e) && e.Acknowledge? ==> s.unfinished > 0
  {
    InvReachable(s, events, maxConcurrent);
    assert InFlight(s) == s.owner.Keys by {
      forall id | id in s.owner ensures id in InFlight(s) {
        assert s.tasks[s.owner[id]].job == id;
      }
    }
    forall e | Enabled(s, e) && e.Acknowledge? ensures s.unfinished > 0 {
      CountsNext(s, e, maxConcurrent);
    }
  }

  // ---------------------------------------------------------------- what a task has been through

  /** The events each phase has behind it, and those it has not: a task that waits for a slot or is
      processing won its claim, and an ended one was refused it or went all the way. */
  ghost predicate LifeOk(events: seq<Event>, t: TaskId, phase: Phase) {
    var won, refused := ClaimWon(t) in events, ClaimRefused(t) in events;
    var slot, finished, dropped := TakeSlot(t) in events, Finish(t) in events, DropActive(t) in events;
    match phase
    case Created => !won && !refused && !slot && !finished && !dropped
    case AwaitingSlot => won && !refused && !slot && !finished && !dropped
    case Processing => won && !refused && slot && !finished && !dropped
    case Ended => (won == slot == finished == !refused) && !dropped
    case Released => (won == slot == finished == !refused) && dropped
  }

  predicate TaskOf(e: Event, t: TaskId) {
    (e.ClaimWon? || e.ClaimRefused? || e.TakeSlot? || e.Finish? || e.DropActive? || e.Acknowledge?) && e.t == t
  }

  lemma NowIn(events: seq<Event>, e: Event, f: Event)
    ensures f in events + [e] <==> f in events || f == e
  {
  }

  lemma EventsOfTask(events: seq<Event>, e: Event, t: TaskId)
    ensures ClaimWon(t) in events + [e] <==> ClaimWon(t) in events || e == ClaimWon(t)
    ensures ClaimRefused(t) in events + [e] <==> ClaimRefused(t) in events || e == ClaimRefused(t)
    ensures TakeSlot(t) in events + [e] <==> TakeSlot(t) in events || e == TakeSlot(t)
    ensures Finish(t) in events + [e] <==> Finish(t) in events || e == Finish(t)
    ensures DropActive(t) in events + [e] <==> DropActive(t) in events || e == DropActive(t)
  {
    NowIn(events, e, ClaimWon(t));
    NowIn(events, e, ClaimRefused(t));
    NowIn(events, e, TakeSlot(t));
    NowIn(events, e, Finish(t));
    NowIn(events, e, DropActive(t));
  }

  lemma LifeNext(before: Sys, events: seq<Event>, e: Event, t: TaskId)
    requires Enabled(before, e) && t in Apply(before, e).tasks
    requires t in before.tasks ==> t < |before.delivered| && LifeOk(events, t, before.tasks[t].phase)
    requires t !in before.tasks ==> LifeOk(events, t, Created)
    ensures LifeOk(events + [e], t, Apply(before, e).tasks[t].phase)
  {
    EventsOfTask(events, e, t);
  }

  /** Every reachable task has been through just that, and no event has touched a task not created yet. */
  lemma {:induction false} LifeOfTask(s: Sys, events: seq<Event>, maxConcurrent: nat, t: TaskId)
    requires Reachable(s, events, maxConcurrent)
    ensures t in s.tasks ==> LifeOk(events, t, s.tasks[t].phase)
    ensures t >= |s.delivered| ==> LifeOk(events, t, Created) && t !in s.tasks
    decreases |events|
  {
    if events != [] {
      var e, earlier := events[|events| - 1], events[..|events| - 1];
      var before := RunOf(earlier, maxConcurrent).value;
      LifeOfTask(before, earlier, maxConcurrent, t);
      assert events == earlier + [e];
      InvReachable(before, earlier, maxConcurrent);
      if t in s.tasks {
        assert t !in before.tasks ==> t == |before.delivered|;
        LifeNext(before, earlier, e, t);
      } else if t >= |s.delivered| {
        EventsOfTask(earlier, e, t);
        assert !TaskOf(e, t);
      }
    }
  }

  /** A job is processed only under a claim its task won, and never after a refused one. */
  lemma ProcessedUnderClaim(s: Sys, events: seq<Event>, maxConcurrent: nat, t: TaskId)
    requires Reachable(s, events, maxConcurrent) && t in s.tasks && s.tasks[t].phase in {AwaitingSlot, Processing}
    ensures ClaimWon(t) in events && ClaimRefused(t) !in events
  {
    LifeOfTask(s, events, maxConcurrent, t);
  }

  // ---------------------------------------------------------------- the objects

  class LocalQueue {
    var queue: seq<JobId>
    var unfinished: nat
    var pendingJobIds: set<JobId>

    constructor ()
      ensures queue == [] && unfinished == 0 && pendingJobIds == {}
    {
      queue, unfinished, pendingJobIds := [], 0, {};
    }

    method Enqueue(id: JobId) returns (accepted: bool)
      modifies this
      ensures accepted <==> id !in old(pendingJobIds)
      ensures pendingJobIds == old(pendingJobIds) + {id}
      ensures queue == if accepted then old(queue) + [id] else old(queue)
      ensures unfinished == if accepted then old(unfinished) + 1 else old(unfinished)
    {
      if id in pendingJobIds {
        return false;
      }
      pendingJobIds := pendingJobIds + {id};
      queue, unfinished := queue + [id], unfinished + 1;
      return true;
    }

    /** The awaiting caller goes on only once an id is there. */
    method Dequeue() returns (id: JobId)
      requires queue != []
      modifies this`queue
      ensures [id] + queue == old(queue)
    {
      id, queue := queue[0], queue[1..];
    }

    /** `task_done` raises ValueError when nothing is unfinished. */
    method Acknowledge(id: JobId) returns (ok: bool)
      modifies this`pendingJobIds, this`unfinished
      ensures pendingJobIds == old(pendingJobIds) - {id}
      ensures ok <==> old(unfinished) > 0
      ensures unfinished == if ok then old(unfinished) - 1 else 0
    {
      pendingJobIds := pendingJobIds - {id};
      ok := unfinished > 0;
      if ok {
        unfinished := unfinished - 1;
      }
    }
  }

  class BackgroundRunWorker {
    const backend: LocalQueue
    const maxConcurrent: nat
    var activeJobIds: set<JobId>
    var tasks: map<TaskId, Task>
    var free: nat
    ghost var accepted: seq<JobId>
    ghost var owner: map<JobId, TaskId>
    ghost var events: seq<Event>
    var created: seq<JobId>

    ghost function State(): Sys
      reads this, backend
    {
      Sys(backend.queue, backend.unfinished, backend.pendingJobIds, activeJobIds, tasks, free,
          accepted, created, owner, 0, false)
    }

    /** What the objects hold is a state some run of events reaches. */
    ghost predicate Valid()
      reads this, backend
    {
      Reachable(State(), events, maxConcurrent)
    }

    constructor (backend: LocalQueue, maxConcurrent: nat)
      requires backend.queue == [] && backend.unfinished == 0 && backend.pendingJobIds == {}
      ensures Valid() && this.backend == backend && this.maxConcurrent == maxConcurrent
    {
      this.backend, this.maxConcurrent := backend, maxConcurrent;
      activeJobIds, tasks, free, created := {}, map[], maxConcurrent, [];
      accepted, owner, events := [], map[], [];
    }

    ghost method Record(before: Sys, e: Event)
      requires Reachable(before, events, maxConcurrent) && Enabled(before, e) && State() == Apply(before, e)
      modifies this`events
      ensures Valid() && State() == Apply(before, e) && events == old(events) + [e]
    {
      ReachableThen(before, events, e, maxConcurrent);
      events := events + [e];
    }

    /** A dispatcher puts a job id on the queue. */
    method Dispatch(id: JobId) returns (taken: bool)
      requires Valid()
      modifies this, backend
      ensures Valid() && State() == Apply(old(State()), Event.Dispatch(id))
      ensures taken <==> id !in old(backend.pendingJobIds)
      ensures id in backend.pendingJobIds
    {
      ghost var before := State();
      taken := backend.Enqueue(id);
      accepted := if taken then accepted + [id] else accepted;
      assert !taken ==> backend.pendingJobIds == before.pending;
      Record(before, Event.Dispatch(id));
    }

    /** One turn of the consume loop: dequeue, then `enqueue`, whose duplicate test never fires. */
    method ConsumeOne() returns (id: JobId)
      requires Valid() && backend.queue != []
      modifies this, backend
      ensures Valid() && State() == Apply(old(State()), Deliver)
      ensures [id] + backend.queue == old(backend.queue)
      ensures activeJobIds == old(activeJobIds) + {id} && id !in old(activeJobIds)
    {
      ghost var before := State();
      InvReachable(before, events, maxConcurrent);
      assert before.queue[0] in before.queue;
      id := backend.Dequeue();
      if id !in activeJobIds {
        activeJobIds := activeJobIds + {id};
        tasks := tasks[|created| := Task(id, Created)];
        owner := owner[id := |created|];
        created := created + [id];
      }
      Record(before, Deliver);
    }

    /** A delivered job is claimed; a refused claim ends its asyncio task at once. */
    method Claim(t: TaskId, won: bool)
      requires Valid() && InPhase(State(), t, Created)
      modifies this
      ensures Valid() && State() == Apply(old(State()), if won then ClaimWon(t) else ClaimRefused(t))
      ensures t in tasks && tasks == old(tasks)[t := Task(old(tasks)[t].job, if won then AwaitingSlot else Ended)]
      ensures activeJobIds == old(activeJobIds) && free == old(free)
    {
      ghost var before := State();
      tasks := tasks[t := tasks[t].(phase := if won then AwaitingSlot else Ended)];
      Record(before, if won then ClaimWon(t) else ClaimRefused(t));
    }

    method TakeSlot(t: TaskId)
      requires Valid() && InPhase(State(), t, AwaitingSlot) && free > 0
      modifies this
      ensures Valid() && State() == Apply(old(State()), Event.TakeSlot(t))
      ensures tasks == old(tasks)[t := Task(old(tasks)[t].job, Processing)] && free == old(free) - 1
    {
      ghost var before := State();
      tasks, free := tasks[t := tasks[t].(phase := Processing)], free - 1;
      Record(before, Event.TakeSlot(t));
    }

    method Finish(t: TaskId)
      requires Valid() && InPhase(State(), t, Processing)
      modifies this
      ensures Valid() && State() == Apply(old(State()), Event.Finish(t))
      ensures tasks == old(tasks)[t := Task(old(tasks)[t].job, Ended)] && free == old(free) + 1
    {
      ghost var before := State();
      tasks, free := tasks[t := tasks[t].(phase := Ended)], free + 1;
      Record(before, Event.Finish(t));
    }

    /** Done-callback: the id leaves the active set. */
    method DropActive(t: TaskId)
      requires Valid() && InPhase(State(), t, Ended)
      modifies this
      ensures Valid() && State() == Apply(old(State()), Event.DropActive(t))
      ensures tasks == old(tasks)[t := Task(old(tasks)[t].job, Released)]
      ensures activeJobIds == old(activeJobIds) - {old(tasks)[t].job}
    {
      ghost var before := State();
      activeJobIds := activeJobIds - {tasks[t].job};
      tasks := tasks[t := tasks[t].(phase := Released)];
      Record(before, Event.DropActive(t));
    }

    /** Done-callback: the id is acknowledged to the queue, whose counter never underflows. */
    method Acknowledge(t: TaskId) returns (ok: bool)
      requires Valid() && InPhase(State(), t, Released)
      modifies this, backend
      ensures Valid() && State() == Apply(old(State()), Event.Acknowledge(t)) && ok
      ensures tasks == old(tasks) - {t}
      ensures old(tasks)[t].job !in backend.pendingJobIds
    {
      ghost var before := State();
      InvReachable(before, events, maxConcurrent);
      CountsNext(before, Event.Acknowledge(t), maxConcurrent);
      var id := tasks[t].job;
      tasks, owner := tasks - {t}, owner - {id};
      ok := backend.Acknowledge(id);
      Record(before, Event.Acknowledge(t));
    }
  }

  // ---------------------------------------------------------------- the dispatcher

  /** Job row first, queue second: afterwards the run's one active job of that type is pending. */
  method DispatchRun(repo: JobRepository, worker: BackgroundRunWorker, newId: JobId, runId: string,
                     jobType: JobType, now: nat) returns (d: QueueDecision)
    requires TableOk(repo.jobs) && worker.Valid()
    modifies repo, worker, worker.backend
    ensures TableOk(repo.jobs) && worker.Valid()
    ensures d.Decision? ==>
              && d.id in repo.jobs && ActiveFor(repo.jobs[d.id], runId, jobType)
              && (forall j :: j in repo.jobs && ActiveFor(repo.jobs[j], runId, jobType) ==> j == d.id)
              && d.id in worker.backend.pendingJobIds
              && d.created == (d.id !in old(repo.jobs))
    ensures d.IntegrityError? ==> repo.jobs == old(repo.jobs) && worker.State() == old(worker.State())
  {
    d := repo.EnsureQueuedJob(newId, runId, jobType, now);
    if d.Decision? {
      var taken := worker.Dispatch(d.id);
    }
  }
}
