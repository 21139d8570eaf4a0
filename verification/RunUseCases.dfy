/** The use cases in their sequential form, over a `Repository`. Each promises its outcome and that its
    effect is one run of a single client of `RunProtocol`, so the guards and calls the protocol allows
    are those the code makes. */
module RunUseCases {
  import opened Wrappers
  import opened RunRepository
  import opened RunProtocol
  import opened RunClient

  datatype Draft<T> = Drafted(value: T) | DraftFailed(error: string)

  /** How handing the job to the queue ends: accepted, or refused with a `RuntimeError`. */
  datatype Dispatch = Accepted | Refused(error: string)

  datatype Outcome = NotFound | Unchanged | Done | ErrorRaised(error: string)

  // ---------------------------------------------------------------- the use cases

  predicate Addressed(rows: map<RunId, Run>, id: RunId, chat: Option<int>) {
    id in rows && (chat.Some? ==> rows[id].origin.chatId == chat.value)
  }

  method Cancel(repo: Repository, id: RunId, chat: Option<int>, now: nat) returns (outcome: Outcome)
    modifies repo
    ensures outcome.NotFound? <==> !Addressed(old(repo.rows), id, chat)
    ensures outcome.Done? <==> Addressed(old(repo.rows), id, chat)
                               && old(repo.rows)[id].status == AwaitingConfirmation
    ensures if outcome.Done? then id in repo.rows && repo.rows[id].status == Cancelled
                                  && repo.rows[id].plan == old(repo.rows)[id].plan
                                  && repo.rows[id].approved == old(repo.rows)[id].approved
                                  && repo.rows[id].stage == old(repo.rows)[id].stage
                                  && OthersKept(old(repo.rows), repo.rows, id)
            else repo.rows == old(repo.rows)
    ensures Covered(old(repo.rows), repo.rows)
  {
    ghost var steps := Stays(repo.rows, id);
    var target := repo.Get(id);
    if target.None? || (chat.Some? && target.value.origin.chatId != chat.value) {
      return NotFound;
    }
    if target.value.status != AwaitingConfirmation {
      return Unchanged;
    }
    steps := Enters(State(old(repo.rows), map[]), steps, repo.rows, id, CancelReady);
    steps := Calls(State(old(repo.rows), map[]), steps, repo.rows, id, CancelReady,
                   SetStatus(Cancelled, None, None, None, Some(AwaitingConfirmation)), now);
    var run, transitioned := repo.TryUpdateStatus(id, Cancelled, Some(AwaitingConfirmation), None, None, None, now);
    Leaves(State(old(repo.rows), map[]), steps, repo.rows, id, None);
    return if transitioned then Done else Unchanged;
  }

  predicate Approvable(row: Run) {
    row.plan.Some? && !row.approved && row.status == AwaitingConfirmation
  }

  method Approve(repo: Repository, id: RunId, chat: Option<int>, dispatch: Dispatch, now: nat)
    returns (outcome: Outcome)
    modifies repo
    ensures outcome.NotFound? <==> !Addressed(old(repo.rows), id, chat)
    ensures outcome.Done? <==> Addressed(old(repo.rows), id, chat) && Approvable(old(repo.rows)[id])
                               && dispatch.Accepted?
    ensures outcome.Unchanged? <==> Addressed(old(repo.rows), id, chat) && !Approvable(old(repo.rows)[id])
    ensures outcome.NotFound? || outcome.Unchanged? ==> repo.rows == old(repo.rows)
    ensures outcome.Done? || outcome.ErrorRaised? ==>
              && OthersKept(old(repo.rows), repo.rows, id)
              && repo.rows[id].approved && repo.rows[id].plan == old(repo.rows)[id].plan
              && repo.rows[id].status == (if outcome.Done? then Queued else Failed)
              && repo.rows[id].stage == "queued_for_execution"
    ensures outcome.ErrorRaised? ==> dispatch == Refused(outcome.error) && repo.rows[id].error == Some(outcome.error)
    ensures Covered(old(repo.rows), repo.rows)
  {
    ghost var steps := Stays(repo.rows, id);
    ghost var s0 := State(repo.rows, map[]);
    var existing := repo.Get(id);
    if existing.None? || (chat.Some? && existing.value.origin.chatId != chat.value) {
      return NotFound;
    }
    if Terminal(existing.value.status) || existing.value.plan.None? {
      return Unchanged;
    }
    if existing.value.approved || existing.value.status != AwaitingConfirmation {
      return Unchanged;
    }
    steps := Enters(s0, steps, repo.rows, id, ApproveReady);
    steps := Calls(s0, steps, repo.rows, id, ApproveReady, Op.Approve, now);
    var approved, transitioned := repo.Approve(id, now);
    outcome := Unchanged;
    if transitioned {
      outcome := DispatchOrFail(repo, id, dispatch, "queued_for_execution", s0, steps, now);
    }
  }

  /** On a refused dispatch the run is marked failed, whatever its status is by then. */
  method DispatchOrFail(repo: Repository, id: RunId, dispatch: Dispatch, stage: string,
                        ghost s0: State, ghost steps: seq<Step>, now: nat) returns (outcome: Outcome)
    requires id in repo.rows && s0.clients == map[] && Reaches(s0, steps, Solo(repo.rows, id, Some(Dispatching)))
    modifies repo
    ensures outcome == if dispatch.Accepted? then Done else ErrorRaised(dispatch.error)
    ensures OthersKept(old(repo.rows), repo.rows, id)
    ensures repo.rows[id].approved == old(repo.rows)[id].approved && repo.rows[id].plan == old(repo.rows)[id].plan
    ensures repo.rows[id].status == if dispatch.Accepted? then old(repo.rows)[id].status else Failed
    ensures if dispatch.Accepted? then repo.rows == old(repo.rows)
            else repo.rows[id].error == Some(dispatch.error) && (stage != "" ==> repo.rows[id].stage == stage)
    ensures Covered(s0.rows, repo.rows)
  {
    if dispatch.Accepted? {
      Leaves(s0, steps, repo.rows, id, Some(Dispatching));
      return Done;
    }
    ghost var more := Calls(s0, steps, repo.rows, id, Dispatching,
                            SetStatus(Failed, Some(stage), None, Some(dispatch.error), None), now);
    var run, transitioned := repo.TryUpdateStatus(id, Failed, None, Some(stage), None, Some(dispatch.error), now);
    Leaves(s0, more, repo.rows, id, None);
    return ErrorRaised(dispatch.error);
  }

  /** The draft failed: the run is marked failed, whatever its status is by then. */
  method FailPlanning(repo: Repository, id: RunId, seen: Run, error: string,
                      ghost s0: State, ghost steps: seq<Step>, now: nat)
    requires id in repo.rows && s0.clients == map[] && Reaches(s0, steps, Solo(repo.rows, id, Some(PlanRead(seen))))
    modifies repo
    ensures OthersKept(old(repo.rows), repo.rows, id)
    ensures repo.rows[id].status == Failed && repo.rows[id].error == Some(error)
    ensures repo.rows[id].plan == old(repo.rows)[id].plan && repo.rows[id].approved == old(repo.rows)[id].approved
    ensures Covered(s0.rows, repo.rows)
  {
    ghost var more := Calls(s0, steps, repo.rows, id, PlanRead(seen),
                            SetStatus(Failed, Some("planning"), None, Some(error), None), now);
    var run, transitioned := repo.TryUpdateStatus(id, Failed, None, Some("planning"), None, Some(error), now);
    Leaves(s0, more, repo.rows, id, None);
  }

  /** The plan waits for the user. */
  method StorePlan(repo: Repository, id: RunId, seen: Run, plan: string,
                   ghost s0: State, ghost steps: seq<Step>, now: nat)
    requires id in repo.rows && s0.clients == map[] && Reaches(s0, steps, Solo(repo.rows, id, Some(PlanRead(seen))))
    requires seen.status == AwaitingConfirmation
    modifies repo
    ensures OthersKept(old(repo.rows), repo.rows, id)
    ensures repo.rows[id].plan == Some(plan) && repo.rows[id].status == old(repo.rows)[id].status
    ensures repo.rows[id].approved == old(repo.rows)[id].approved
    ensures Covered(s0.rows, repo.rows)
  {
    ghost var more := Calls(s0, steps, repo.rows, id, PlanRead(seen), SetPlan(plan, None, None), now);
    var planned := repo.UpdatePlan(id, plan, None, None, now);
    Leaves(s0, more, repo.rows, id, None);
  }

  /** The plan is approved and dispatched at once; the approval takes effect only on a run that awaits
      confirmation or is queued, the dispatch on any. */
  method StoreAndStart(repo: Repository, id: RunId, seen: Run, plan: string, dispatch: Dispatch,
                       ghost s0: State, ghost steps: seq<Step>, now: nat) returns (outcome: Outcome)
    requires id in repo.rows && s0.clients == map[] && Reaches(s0, steps, Solo(repo.rows, id, Some(PlanRead(seen))))
    requires seen.status != AwaitingConfirmation && repo.rows[id].status == seen.status
    modifies repo
    ensures outcome == if dispatch.Accepted? then Done else ErrorRaised(dispatch.error)
    ensures OthersKept(old(repo.rows), repo.rows, id)
    ensures repo.rows[id].plan == Some(plan)
    ensures repo.rows[id].approved == (old(repo.rows)[id].approved || seen.status == Queued)
    ensures repo.rows[id].status == if dispatch.Accepted? then seen.status else Failed
    ensures dispatch.Refused? ==> repo.rows[id].error == Some(dispatch.error)
    ensures Covered(s0.rows, repo.rows)
  {
    var stage := Some("queued_for_execution");
    ghost var more := Calls(s0, steps, repo.rows, id, PlanRead(seen), SetPlan(plan, None, stage), now);
    var planned := repo.UpdatePlan(id, plan, None, stage, now);
    more := Calls(s0, more, repo.rows, id, PlanSaved, Op.Approve, now);
    var approved, transitioned := repo.Approve(id, now);
    outcome := DispatchOrFail(repo, id, dispatch, "queued_for_execution", s0, more, now);
  }

  method CompletePlanning(repo: Repository, id: RunId, draft: Draft<string>, dispatch: Dispatch, now: nat)
    returns (outcome: Outcome)
    modifies repo
    ensures outcome.NotFound? <==> id !in old(repo.rows)
    ensures outcome.NotFound? ==> repo.rows == old(repo.rows)
    ensures id in old(repo.rows) ==> OthersKept(old(repo.rows), repo.rows, id)
    ensures id in old(repo.rows) ==>
              var before, after := old(repo.rows)[id], repo.rows[id];
              match draft
              case DraftFailed(e) =>
                outcome == ErrorRaised(e) && after.status == Failed && after.error == Some(e)
                && after.plan == before.plan && after.approved == before.approved
              case Drafted(plan) =>
                && after.plan == Some(plan)
                && after.approved == (before.approved || before.status == Queued)
                && if before.status == AwaitingConfirmation then outcome == Done && after.status == before.status
                   else if dispatch.Accepted? then outcome == Done && after.status == before.status
                   else outcome == ErrorRaised(dispatch.error) && after.status == Failed
                        && after.error == Some(dispatch.error)
    ensures Covered(old(repo.rows), repo.rows)
  {
    ghost var steps := Stays(repo.rows, id);
    ghost var s0 := State(repo.rows, map[]);
    var seen := repo.Get(id);
    if seen.None? {
      return NotFound;
    }
    steps := Enters(s0, steps, repo.rows, id, PlanRead(seen.value));
    if draft.DraftFailed? {
      FailPlanning(repo, id, seen.value, draft.error, s0, steps, now);
      outcome := ErrorRaised(draft.error);
    } else if seen.value.status == AwaitingConfirmation {
      StorePlan(repo, id, seen.value, draft.value, s0, steps, now);
      outcome := Done;
    } else {
      outcome := StoreAndStart(repo, id, seen.value, draft.value, dispatch, s0, steps, now);
    }
  }

  /** What a revision of `seen` leaves of the table when nobody else writes. */
  ghost predicate Revised(rows: map<RunId, Run>, rows': map<RunId, Run>, id: RunId, redraft: Draft<(string, string)>,
                          outcome: Outcome)
  {
    && id in rows && OthersKept(rows, rows', id)
    && rows'[id].status == rows[id].status && rows'[id].approved == rows[id].approved
    && match redraft
       case DraftFailed(e) => outcome == ErrorRaised(e) && rows'[id].error == Some(e)
                              && rows'[id].plan == rows[id].plan && rows'[id].prompt == rows[id].prompt
                              && rows'[id].stage == rows[id].stage
       case Drafted((prompt, plan)) => outcome == Done && rows'[id].plan == Some(plan) && rows'[id].prompt == prompt
                                       && rows'[id].error == rows[id].error
                                       && rows'[id].stage == "awaiting_user_confirmation"
  }

  /** The redraft and what is written after it, from the read `seen` on. */
  method ReviseFrom(repo: Repository, id: RunId, seen: Run, redraft: Draft<(string, string)>,
                    ghost s0: State, ghost steps: seq<Step>, now: nat) returns (outcome: Outcome)
    requires id in repo.rows && seen == repo.rows[id] && s0.clients == map[]
    requires Reaches(s0, steps, Solo(repo.rows, id, Some(ReviseRead(seen))))
    modifies repo
    ensures Revised(old(repo.rows), repo.rows, id, redraft, outcome)
    ensures Covered(s0.rows, repo.rows)
  {
    match redraft
    case DraftFailed(e) =>
      ghost var more := Calls(s0, steps, repo.rows, id, ReviseRead(seen),
                              SetStatus(seen.status, Some(seen.stage), None, Some(e), None), now);
      var run, transitioned := repo.TryUpdateStatus(id, seen.status, None, Some(seen.stage), None, Some(e), now);
      outcome := ErrorRaised(e);
      Leaves(s0, more, repo.rows, id, None);
    case Drafted((prompt, plan)) =>
      ghost var more := Calls(s0, steps, repo.rows, id, ReviseRead(seen), SetPlan(plan, Some(prompt), None), now);
      var run := repo.UpdatePlan(id, plan, Some(prompt), None, now);
      outcome := Done;
      Leaves(s0, more, repo.rows, id, None);
  }

  /** The use case itself revises a run in any status. */
  method RevisePlan(repo: Repository, id: RunId, chat: Option<int>, redraft: Draft<(string, string)>, now: nat)
    returns (outcome: Outcome)
    modifies repo
    ensures outcome.NotFound? <==> !Addressed(old(repo.rows), id, chat)
    ensures if outcome.NotFound? then repo.rows == old(repo.rows)
            else Revised(old(repo.rows), repo.rows, id, redraft, outcome)
    ensures Covered(old(repo.rows), repo.rows)
  {
    ghost var steps := Stays(repo.rows, id);
    ghost var s0 := State(repo.rows, map[]);
    var seen := repo.Get(id);
    if seen.None? || (chat.Some? && seen.value.origin.chatId != chat.value) {
      return NotFound;
    }
    steps := Enters(s0, steps, repo.rows, id, ReviseRead(seen.value));
    outcome := ReviseFrom(repo, id, seen.value, redraft, s0, steps, now);
  }

  datatype Reply = Submits | PlanningInProgress | Revises(outcome: Outcome)

  predicate AwaitsAnswer(rows: map<RunId, Run>, latest: Option<RunId>) {
    latest.Some? && latest.value in rows && rows[latest.value].status == AwaitingConfirmation
  }

  /** The chat handler on a message: it revises the chat's latest unfinished run exactly if that awaits
      confirmation with a plan, and the use case then reads the run a second time. */
  method HandlePrompt(repo: Repository, latest: Option<RunId>, chat: int, redraft: Draft<(string, string)>, now: nat)
    returns (reply: Reply)
    requires latest.Some? ==> latest.value in repo.rows && repo.rows[latest.value].origin.chatId == chat
    modifies repo
    ensures reply.Submits? <==> !AwaitsAnswer(old(repo.rows), latest)
    ensures reply.PlanningInProgress? <==> AwaitsAnswer(old(repo.rows), latest)
                                           && old(repo.rows)[latest.value].plan in {None, Some("")}
    ensures if reply.Revises? then Revised(old(repo.rows), repo.rows, latest.value, redraft, reply.outcome)
            else repo.rows == old(repo.rows)
    ensures Covered(old(repo.rows), repo.rows)
  {
    if latest.None? {
      ghost var none := Stays(repo.rows, "");
      return Submits;
    }
    var id := latest.value;
    ghost var steps := Stays(repo.rows, id);
    ghost var s0 := State(repo.rows, map[]);
    var run := repo.Get(id);
    if run.value.status != AwaitingConfirmation {
      return Submits;
    }
    if run.value.plan.None? || run.value.plan.value == "" {
      return PlanningInProgress;
    }
    steps := Enters(s0, steps, repo.rows, id, ReviseReady);
    var seen := repo.Get(id);
    steps := Rereads(s0, steps, repo.rows, id);
    var outcome := ReviseFrom(repo, id, seen.value, redraft, s0, steps, now);
    reply := Revises(outcome);
  }

  /** process_run up to the compare-and-swap: only an approved, queued run starts. */
  method StartRun(repo: Repository, id: RunId, now: nat) returns (outcome: Outcome)
    modifies repo
    ensures outcome.NotFound? <==> id !in old(repo.rows)
    ensures outcome.Done? <==> id in old(repo.rows) && old(repo.rows)[id].approved
                               && old(repo.rows)[id].status == Queued
    ensures if outcome.Done? then OthersKept(old(repo.rows), repo.rows, id) && repo.rows[id].status == Running
                                  && repo.rows[id].stage == "retrieve_context"
            else repo.rows == old(repo.rows)
    ensures Covered(old(repo.rows), repo.rows)
  {
    ghost var steps := Stays(repo.rows, id);
    ghost var s0 := State(repo.rows, map[]);
    var run := repo.Get(id);
    if run.None? {
      return NotFound;
    }
    if run.value.status in {Completed, Failed, Cancelled, Running, WaitingTool} || !run.value.approved {
      return Unchanged;
    }
    if run.value.status != Queued {
      return Unchanged;
    }
    var stage := Some("retrieve_context");
    steps := Enters(s0, steps, repo.rows, id, StartReady);
    steps := Calls(s0, steps, repo.rows, id, StartReady, SetStatus(Running, stage, None, None, Some(Queued)), now);
    var started, transitioned := repo.TryUpdateStatus(id, Running, Some(Queued), stage, None, None, now);
    Leaves(s0, steps, repo.rows, id, Some(Executing));
    return if transitioned then Done else Unchanged;
  }

  // ---------------------------------------------------------------- the worker and the execution

  /** A worker that shuts down fails the run it was at, unless that has finished. */
  method MarkShutdownInterrupted(repo: Repository, id: RunId, now: nat)
    modifies repo
    ensures if id in old(repo.rows) && !Terminal(old(repo.rows)[id].status) then
              && OthersKept(old(repo.rows), repo.rows, id)
              && repo.rows[id].status == Failed && repo.rows[id].error == Some("Run interrupted during shutdown.")
              && repo.rows[id].plan == old(repo.rows)[id].plan
              && repo.rows[id].approved == old(repo.rows)[id].approved
            else repo.rows == old(repo.rows)
    ensures Covered(old(repo.rows), repo.rows)
  {
    ghost var steps := Stays(repo.rows, id);
    ghost var s0 := State(repo.rows, map[]);
    var existing := repo.Get(id);
    if existing.None? || Terminal(existing.value.status) {
      return;
    }
    var error := Some("Run interrupted during shutdown.");
    steps := Enters(s0, steps, repo.rows, id, ShutdownReady);
    steps := Calls(s0, steps, repo.rows, id, ShutdownReady, SetStatus(Failed, None, None, error, None), now);
    var run, transitioned := repo.TryUpdateStatus(id, Failed, None, None, None, error, now);
    Leaves(s0, steps, repo.rows, id, None);
  }

  /** A client executing the run takes the table from `rows` to `rows'` and is done. */
  ghost predicate ExecutionEnds(rows: map<RunId, Run>, rows': map<RunId, Run>, id: RunId) {
    exists steps :: Reaches(Solo(rows, id, Some(Executing)), steps, Solo(rows', id, None))
  }

  lemma EndsExecution(rows: map<RunId, Run>, id: RunId, op: Op, now: nat)
    requires id in rows && MayCall(Executing, op) && op.SetStatus? && Terminal(op.status)
    ensures ExecutionEnds(rows, Perform(rows, id, op, now), id)
  {
    var s := Solo(rows, id, Some(Executing));
    assert Reaches(s, [], s);
    var steps := Calls(s, [], rows, id, Executing, op, now);
  }

  /** The end of an execution plan. */
  method FinishRun(repo: Repository, id: RunId, result: string, now: nat)
    requires id in repo.rows
    modifies repo
    ensures OthersKept(old(repo.rows), repo.rows, id) && repo.rows[id].status == Completed
    ensures repo.rows[id].stage == "completed" && repo.rows[id].result == Some(result)
    ensures ExecutionEnds(old(repo.rows), repo.rows, id)
  {
    EndsExecution(repo.rows, id, SetStatus(Completed, Some("completed"), Some(result), None, None), now);
    var run, transitioned := repo.TryUpdateStatus(id, Completed, None, Some("completed"), Some(result), None, now);
  }

  /** The worker on an error of the execution. */
  method FailExecution(repo: Repository, id: RunId, error: string, now: nat)
    requires id in repo.rows
    modifies repo
    ensures OthersKept(old(repo.rows), repo.rows, id) && repo.rows[id].status == Failed
    ensures repo.rows[id].error == Some(error) && repo.rows[id].stage == old(repo.rows)[id].stage
    ensures ExecutionEnds(old(repo.rows), repo.rows, id)
  {
    EndsExecution(repo.rows, id, SetStatus(Failed, None, None, Some(error), None), now);
    var run, transitioned := repo.TryUpdateStatus(id, Failed, None, None, None, Some(error), now);
  }

  /** A stage handler's artifacts. */
  method PersistArtifacts(repo: Repository, id: RunId, stage: string, design: Option<string>, test: Option<string>,
                          review: Option<string>, result: Option<string>, iteration: nat, now: nat)
    requires id in repo.rows
    modifies repo
    ensures OthersKept(old(repo.rows), repo.rows, id) && repo.rows[id].status == old(repo.rows)[id].status
    ensures repo.rows[id].iterations == iteration && (stage != "" ==> repo.rows[id].stage == stage)
    ensures Executed(old(repo.rows), repo.rows, id)
  {
    ExecutesCall(repo.rows, id, Op.SaveArtifacts(Some(stage), design, test, review, result, Some(iteration)), now);
    var run := repo.SaveArtifacts(id, Some(stage), design, test, review, result, Some(iteration), now);
  }

  /** The replanning handler's plan. */
  method StoreReplan(repo: Repository, id: RunId, plan: string, now: nat)
    requires id in repo.rows
    modifies repo
    ensures OthersKept(old(repo.rows), repo.rows, id) && repo.rows[id].status == old(repo.rows)[id].status
    ensures repo.rows[id].plan == Some(plan) && repo.rows[id].stage == "internal_replanning"
    ensures repo.rows[id].prompt == old(repo.rows)[id].prompt
    ensures Executed(old(repo.rows), repo.rows, id)
  {
    ExecutesCall(repo.rows, id, SetPlan(plan, None, Some("internal_replanning")), now);
    var run := repo.UpdatePlan(id, plan, None, Some("internal_replanning"), now);
  }
}
