/** Every interleaving of the clients of the run table. One SQL statement is one atomic step; what a
    client read earlier is a local that other clients' steps may have made stale. */
module RunProtocol {
  import opened Wrappers
  import opened RunRepository

  type ClientId = nat

  /** Where a use case stands between two statements. */
  datatype Pc =
    | PlanRead(seen: Run)     // complete_planning has read the run, the draft is under way
    | PlanSaved               // complete_planning, automatic path: plan stored, approval next
    | ReviseReady             // the chat handler found the run planned and awaiting confirmation
    | ReviseRead(seen: Run)   // revise_plan_for_chat has read the run, the redraft is under way
    | ApproveReady            // approve: its own read passed every guard
    | Dispatching             // a job is being handed to the queue
    | CancelReady             // cancel: its read found the run awaiting confirmation
    | StartReady              // process_run: its read found the run approved and queued
    | Executing               // process_run won the compare-and-swap
    | ShutdownReady           // the worker's shutdown handler read a non-terminal run

  /** A client is between repository calls, or inside one: after its read, before its UPDATE. */
  datatype Local =
    | At(run: RunId, pc: Pc)
    | InCall(run: RunId, pc: Pc, existing: Run, op: Op)

  datatype State = State(rows: map<RunId, Run>, clients: map<ClientId, Local>)

  datatype Step =
    | Create(c: ClientId, id: RunId, run: Run)
    | Enter(c: ClientId, id: RunId, pc: Pc)
    | Reread(c: ClientId)
    | Call(c: ClientId, op: Op)
    | Write(c: ClientId, now: nat)
    | Leave(c: ClientId)

  /** A use case reads the row and passes its guards. `ReviseReady` is the guard of the chat handler, the
      program's one caller of revise_plan_for_chat; that use case itself has none and reads again. */
  predicate MayEnter(pc: Pc, row: Run) {
    match pc
    case PlanRead(seen) => seen == row
    case ReviseReady => row.status == AwaitingConfirmation && row.plan.Some? && row.plan.value != ""
    case ReviseRead(seen) => seen == row
    case ApproveReady =>
      !Terminal(row.status) && row.plan.Some? && !row.approved && row.status == AwaitingConfirmation
    case CancelReady => row.status == AwaitingConfirmation
    case StartReady => row.approved && row.status == Queued
    case ShutdownReady => !Terminal(row.status)
    case _ => false
  }

  /** `update_status(run_id, FAILED, error_text=...)`, which no WHERE on the status protects. */
  predicate IsFailure(op: Op) {
    op.SetStatus? && op.status == Failed && op.expected.None? && op.result.None? && op.error.Some?
  }

  /** The failure path of revise_plan_for_chat: the status read before the redraft is written back. */
  predicate IsWriteBack(pc: Pc, op: Op) {
    && pc.ReviseRead? && op.SetStatus?
    && op == SetStatus(pc.seen.status, Some(pc.seen.stage), None, op.error, None)
    && op.error.Some?
  }

  /** The repository calls each use case can make from where it stands. */
  predicate MayCall(pc: Pc, op: Op) {
    match pc
    case PlanRead(seen) =>
      || IsFailure(op)
      || (op.SetPlan? && op.newPrompt.None?
          && op.stage == if seen.status == AwaitingConfirmation then None else Some("queued_for_execution"))
    case PlanSaved => op.Approve?
    case ReviseReady => false
    case ReviseRead(_) => IsWriteBack(pc, op) || (op.SetPlan? && op.newPrompt.Some? && op.stage.None?)
    case ApproveReady => op.Approve?
    case Dispatching => IsFailure(op)
    case CancelReady => op == SetStatus(Cancelled, None, None, None, Some(AwaitingConfirmation))
    case StartReady =>
      || op == SetStatus(Running, Some("retrieve_context"), None, None, Some(Queued))
      || IsFailure(op)
    case Executing =>
      || (op.SetStatus? && op == SetStatus(WaitingTool, op.stage, None, None, Some(Running)))
      || (op.SetStatus? && op == SetStatus(Running, op.stage, None, None, Some(WaitingTool)))
      || op.SaveArtifacts?
      || (op.SetPlan? && op.newPrompt.None? && op.stage == Some("internal_replanning"))
      || (op.SetStatus? && op == SetStatus(Completed, Some("completed"), op.result, None, None))
      || IsFailure(op)
    case ShutdownReady => IsFailure(op)
  }

  /** Where the use case goes on after a call; `done` says whether the call changed the row. */
  function After(pc: Pc, op: Op, done: bool): Option<Pc> {
    match pc
    case PlanRead(seen) => if op.SetPlan? && seen.status != AwaitingConfirmation then Some(PlanSaved) else None
    case PlanSaved => Some(Dispatching)
    case ApproveReady => if done then Some(Dispatching) else None
    case StartReady => if done && !IsFailure(op) then Some(Executing) else None
    case Executing => if op.SetStatus? && Terminal(op.status) then None else Some(Executing)
    case _ => None
  }

  function Proceed(clients: map<ClientId, Local>, c: ClientId, id: RunId, next: Option<Pc>): map<ClientId, Local> {
    if next.Some? then clients[c := At(id, next.value)] else clients - {c}
  }

  predicate FreshRun(run: Run) {
    && run.status in {AwaitingConfirmation, Queued}
    && run.stage == "planning"
    && run.plan.None? && run.design.None? && run.test.None? && run.review.None?
    && run.result.None? && run.error.None?
    && run.iterations == 0 && !run.approved
  }

  ghost predicate Next(s: State, step: Step, s': State) {
    match step
    case Create(c, id, run) =>
      && c !in s.clients && id !in s.rows && FreshRun(run)
      && s' == State(s.rows[id := run], s.clients[c := At(id, Dispatching)])
    case Enter(c, id, pc) =>
      && c !in s.clients && id in s.rows && MayEnter(pc, s.rows[id])
      && s' == s.(clients := s.clients[c := At(id, pc)])
    case Reread(c) =>
      && c in s.clients && s.clients[c].At? && s.clients[c].pc.ReviseReady?
      && var r := s.clients[c].run;
      && r in s.rows
      && s' == s.(clients := s.clients[c := At(r, ReviseRead(s.rows[r]))])
    case Call(c, op) =>
      && c in s.clients && s.clients[c].At?
      && var l := s.clients[c];
      && l.run in s.rows && MayCall(l.pc, op)
      && s' == s.(clients := if Attempts(op, s.rows[l.run])
                             then s.clients[c := InCall(l.run, l.pc, s.rows[l.run], op)]
                             else Proceed(s.clients, c, l.run, After(l.pc, op, false)))
    case Write(c, now) =>
      && c in s.clients && s.clients[c].InCall?
      && var l := s.clients[c];
      && l.run in s.rows
      && var after := Sql(l.op, l.existing, s.rows[l.run], now);
      && s' == State(if after.Some? then s.rows[l.run := after.value] else s.rows,
                     Proceed(s.clients, c, l.run, After(l.pc, l.op, after.Some?)))
    case Leave(c) =>
      && c in s.clients
      && s' == s.(clients := s.clients - {c})
  }

  /** A finite run of the system from the empty tables: `states[k]` goes to `states[k+1]` by `steps[k]`. */
  datatype Behaviour = Behaviour(states: seq<State>, steps: seq<Step>)

  ghost predicate IsBehaviour(b: Behaviour) {
    && |b.states| == |b.steps| + 1
    && b.states[0] == State(map[], map[])
    && forall k :: 0 <= k < |b.steps| ==> Next(b.states[k], b.steps[k], b.states[k + 1])
  }

  // ---------------------------------------------------------------- invariant

  predicate InExecution(s: Status) {
    s in {Running, WaitingTool, Completed}
  }

  ghost predicate RowOk(row: Run) {
    && (row.approved ==> row.plan.Some?)
    && (InExecution(row.status) ==> row.approved)
  }

  /** What a client's position promises about the current row. */
  ghost predicate PcOk(pc: Pc, row: Run) {
    match pc
    case PlanRead(seen) => true
    case ReviseRead(seen) => RowOk(seen) && (seen.approved ==> row.approved)
    case PlanSaved => row.plan.Some?
    case ApproveReady => row.plan.Some?
    case StartReady => row.approved
    case Executing => row.approved
    case _ => true
  }

  ghost predicate LocalOk(l: Local, rows: map<RunId, Run>) {
    && l.run in rows
    && PcOk(l.pc, rows[l.run])
    && (l.InCall? ==> MayCall(l.pc, l.op) && Attempts(l.op, l.existing))
  }

  ghost predicate Inv(s: State) {
    && (forall r :: r in s.rows ==> RowOk(s.rows[r]))
    && (forall c :: c in s.clients ==> LocalOk(s.clients[c], s.rows))
  }

  /** An UPDATE a client may issue never takes back an approval or a plan, and keeps the row sound. */
  lemma WriteKeepsRow(l: Local, row: Run, now: nat)
    requires l.InCall? && MayCall(l.pc, l.op) && Attempts(l.op, l.existing)
    requires RowOk(row) && PcOk(l.pc, row)
    ensures var after := Sql(l.op, l.existing, row, now);
            after.Some? ==>
              && RowOk(after.value)
              && (row.approved ==> after.value.approved)
              && (row.plan.Some? ==> after.value.plan.Some?)
              && PcOk(l.pc, after.value)
              && (After(l.pc, l.op, true).Some? ==> PcOk(After(l.pc, l.op, true).value, after.value))
  {
  }

  lemma PcOkMonotone(pc: Pc, row: Run, row': Run)
    requires PcOk(pc, row)
    requires row.approved ==> row'.approved
    requires row.plan.Some? ==> row'.plan.Some?
    ensures PcOk(pc, row')
  {
  }

  /** No row disappears and no approval is withdrawn. */
  ghost predicate KeepsApprovals(s: State, s': State) {
    forall r :: r in s.rows ==> r in s'.rows && (s.rows[r].approved ==> s'.rows[r].approved)
  }

  lemma InvWrite(s: State, step: Step, s': State)
    requires Inv(s) && step.Write? && Next(s, step, s')
    ensures Inv(s') && KeepsApprovals(s, s')
  {
    var l := s.clients[step.c];
    assert LocalOk(l, s.rows);
    WriteKeepsRow(l, s.rows[l.run], step.now);
    forall d | d in s'.clients
      ensures LocalOk(s'.clients[d], s'.rows)
    {
      if d != step.c {
        assert LocalOk(s.clients[d], s.rows);
        PcOkMonotone(s.clients[d].pc, s.rows[s.clients[d].run], s'.rows[s.clients[d].run]);
      }
    }
  }

  lemma InvNext(s: State, step: Step, s': State)
    requires Inv(s) && Next(s, step, s')
    ensures Inv(s') && KeepsApprovals(s, s')
  {
    if step.Write? {
      InvWrite(s, step, s');
    } else {
      forall d | d in s'.clients
        ensures LocalOk(s'.clients[d], s'.rows)
      {
        assert d in s.clients ==> LocalOk(s.clients[d], s.rows);
      }
    }
  }
}
