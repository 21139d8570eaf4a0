/** The run row, the SQL statements that change it, and the repository object that
    issues them (src/mergemate/infrastructure/persistence/sqlite_repositories.py). */
module RunRepository {
  import opened Wrappers

  datatype Status =
    | AwaitingConfirmation
    | Queued
    | Running
    | WaitingTool
    | Completed
    | Failed
    | Cancelled

  predicate Terminal(s: Status) {
    s in {Completed, Failed, Cancelled}
  }

  type RunId = string

  /** The columns no statement ever changes after the insert. */
  datatype Origin = Origin(chatId: int, userId: int, agentName: string, workflow: string,
                           repoName: Option<string>, estimateSeconds: int, createdAt: nat)

  datatype Run = Run(
    origin: Origin,
    status: Status,
    stage: string,
    prompt: string,
    plan: Option<string>,
    design: Option<string>,
    test: Option<string>,
    review: Option<string>,
    iterations: nat,
    approved: bool,
    result: Option<string>,
    error: Option<string>,
    updatedAt: nat)

  /** One call of the repository that may end in an UPDATE of the row. */
  datatype Op =
    | SetStatus(status: Status, stage: Option<string>, result: Option<string>, error: Option<string>,
                expected: Option<Status>)
    | SetPlan(plan: string, newPrompt: Option<string>, stage: Option<string>)
    | Approve
    | SaveArtifacts(stage: Option<string>, design: Option<string>, test: Option<string>,
                    review: Option<string>, result: Option<string>, iterations: Option<nat>)

  /** Python's `value or fallback` on an optional string: the empty string counts as absent. */
  function OrElse(value: Option<string>, fallback: string): string {
    if value.Some? && value.value != "" then value.value else fallback
  }

  function IfGiven<T>(value: Option<T>, fallback: Option<T>): Option<T> {
    if value.Some? then value else fallback
  }

  /** Whether the call goes on to its UPDATE after reading `existing`. */
  predicate Attempts(op: Op, existing: Run) {
    op.Approve? ==> !existing.approved && existing.status in {AwaitingConfirmation, Queued}
  }

  /** The UPDATE statement as one atomic step on the current `row`. Its parameters were computed
      from the earlier read `existing`; `None` means the WHERE clause matched no row. */
  function Sql(op: Op, existing: Run, row: Run, now: nat): Option<Run> {
    match op
    case SetStatus(status, stage, result, error, expected) =>
      if expected.Some? && row.status != expected.value then None
      else Some(row.(status := status,
                     stage := OrElse(stage, existing.stage),
                     result := IfGiven(result, existing.result),
                     error := IfGiven(error, existing.error),
                     updatedAt := now))
    case SetPlan(plan, newPrompt, stage) =>
      Some(row.(plan := Some(plan),
                prompt := if newPrompt.Some? then newPrompt.value else existing.prompt,
                stage := OrElse(stage, "awaiting_user_confirmation"),
                updatedAt := now))
    case Approve =>
      if row.approved || row.status != existing.status then None
      else Some(row.(approved := true,
                     status := if existing.status == AwaitingConfirmation then Queued else existing.status,
                     stage := if existing.status == AwaitingConfirmation then "queued_for_execution"
                              else existing.stage,
                     updatedAt := now))
    case SaveArtifacts(stage, design, test, review, result, iterations) =>
      Some(row.(stage := OrElse(stage, existing.stage),
                design := IfGiven(design, existing.design),
                test := IfGiven(test, existing.test),
                review := IfGiven(review, existing.review),
                result := IfGiven(result, existing.result),
                iterations := if iterations.Some? then iterations.value else existing.iterations,
                updatedAt := now))
  }

  /** Lost updates: whatever other clients wrote since the read, a statement puts back the values it read for
      the columns it was given nothing for, and leaves the others as they are by now. */
  lemma ReadValuesWrittenBack(existing: Run, row: Run, status: Status, plan: string, now: nat)
    ensures Sql(SetStatus(status, None, None, None, None), existing, row, now)
            == Some(row.(status := status, stage := existing.stage, result := existing.result,
                         error := existing.error, updatedAt := now))
    ensures Sql(SetPlan(plan, None, None), existing, row, now)
            == Some(row.(plan := Some(plan), prompt := existing.prompt, stage := "awaiting_user_confirmation",
                         updatedAt := now))
    ensures Sql(Op.SaveArtifacts(None, None, None, None, None, None), existing, row, now)
            == Some(row.(stage := existing.stage, design := existing.design, test := existing.test,
                         review := existing.review, result := existing.result, iterations := existing.iterations,
                         updatedAt := now))
    ensures existing.status == row.status == Queued && !row.approved ==>
              Sql(Op.Approve, existing, row, now)
              == Some(row.(approved := true, stage := existing.stage, updatedAt := now))
    ensures existing.status != row.status ==> Sql(Op.Approve, existing, row, now).None?
  {
  }

  /** The effect of a whole call when nothing runs between its read and its UPDATE. */
  function Perform(rows: map<RunId, Run>, id: RunId, op: Op, now: nat): map<RunId, Run> {
    if id !in rows || !Attempts(op, rows[id]) then rows
    else
      var after := Sql(op, rows[id], rows[id], now);
      if after.Some? then rows[id := after.value] else rows
  }

  /** `column` holds what was given, or what it held before. */
  predicate SetIfGiven<T(==)>(column: Option<T>, given: Option<T>, before: Option<T>) {
    (given.Some? ==> column == given) && (given.None? ==> column == before)
  }

  predicate SameArtifacts(a: Run, b: Run) {
    && a.origin == b.origin && a.design == b.design && a.test == b.test && a.review == b.review
    && a.iterations == b.iterations && a.result == b.result && a.error == b.error
  }

  predicate StageSet(after: string, given: Option<string>, before: string) {
    (given.Some? && given.value != "" ==> after == given.value) && (given in {None, Some("")} ==> after == before)
  }

  class Repository {
    var rows: map<RunId, Run>

    constructor ()
      ensures rows == map[]
    {
      rows := map[];
    }

    /** INSERT; the primary key refuses a second row with the same id. */
    method Create(id: RunId, run: Run) returns (inserted: bool)
      modifies this
      ensures inserted == (id !in old(rows))
      ensures rows == if inserted then old(rows)[id := run] else old(rows)
    {
      inserted := id !in rows;
      if inserted {
        rows := rows[id := run];
      }
    }

    method Get(id: RunId) returns (run: Option<Run>)
      ensures run == if id in rows then Some(rows[id]) else None
    {
      run := if id in rows then Some(rows[id]) else None;
    }

    /** Read, conditional UPDATE, read again. */
    method TryUpdateStatus(id: RunId, status: Status, expected: Option<Status>, stage: Option<string>,
                           result: Option<string>, error: Option<string>, now: nat)
      returns (run: Option<Run>, transitioned: bool)
      modifies this
      ensures transitioned <==> id in old(rows) && (expected.Some? ==> old(rows)[id].status == expected.value)
      ensures rows == Perform(old(rows), id, SetStatus(status, stage, result, error, expected), now)
      ensures !transitioned ==> rows == old(rows)
      ensures transitioned ==> var before, after := old(rows)[id], rows[id];
                               && after.status == status && StageSet(after.stage, stage, before.stage)
                               && SetIfGiven(after.result, result, before.result)
                               && SetIfGiven(after.error, error, before.error)
                               && after.origin == before.origin && after.prompt == before.prompt
                               && after.plan == before.plan && after.design == before.design
                               && after.test == before.test && after.review == before.review
                               && after.iterations == before.iterations && after.approved == before.approved
      ensures run == if id in rows then Some(rows[id]) else None
    {
      var existing := Get(id);
      if existing.None? {
        return None, false;
      }
      var after := Sql(SetStatus(status, stage, result, error, expected), existing.value, rows[id], now);
      transitioned := after.Some?;
      if transitioned {
        rows := rows[id := after.value];
      }
      run := Get(id);
    }

    method UpdatePlan(id: RunId, plan: string, prompt: Option<string>, stage: Option<string>, now: nat)
      returns (run: Option<Run>)
      modifies this
      ensures rows == Perform(old(rows), id, SetPlan(plan, prompt, stage), now)
      ensures run.Some? <==> id in old(rows)
      ensures run.Some? ==> id in rows && run.value == rows[id] && rows[id].plan == Some(plan)
                            && rows[id].status == old(rows)[id].status
                            && rows[id].approved == old(rows)[id].approved
                            && rows[id].prompt == (if prompt.Some? then prompt.value else old(rows)[id].prompt)
                            && StageSet(rows[id].stage, stage, "awaiting_user_confirmation")
                            && SameArtifacts(old(rows)[id], rows[id])
    {
      var existing := Get(id);
      if existing.None? {
        return None;
      }
      rows := rows[id := Sql(SetPlan(plan, prompt, stage), existing.value, rows[id], now).value];
      run := Get(id);
    }

    method Approve(id: RunId, now: nat) returns (run: Option<Run>, transitioned: bool)
      modifies this
      ensures transitioned <==> id in old(rows) && !old(rows)[id].approved
                                && old(rows)[id].status in {AwaitingConfirmation, Queued}
      ensures rows == Perform(old(rows), id, Op.Approve, now)
      ensures transitioned ==> rows[id].approved && rows[id].status == Queued
                               && rows[id].plan == old(rows)[id].plan && rows[id].prompt == old(rows)[id].prompt
                               && SameArtifacts(old(rows)[id], rows[id])
                               && rows[id].stage == if old(rows)[id].status == AwaitingConfirmation
                                                    then "queued_for_execution" else old(rows)[id].stage
      ensures !transitioned ==> rows == old(rows)
      ensures run == if id in rows then Some(rows[id]) else None
    {
      var existing := Get(id);
      if existing.None? || existing.value.approved {
        return existing, false;
      }
      if existing.value.status !in {AwaitingConfirmation, Queued} {
        return existing, false;
      }
      var after := Sql(Op.Approve, existing.value, rows[id], now);
      transitioned := after.Some?;
      if transitioned {
        rows := rows[id := after.value];
      }
      run := Get(id);
    }

    method SaveArtifacts(id: RunId, stage: Option<string>, design: Option<string>, test: Option<string>,
                         review: Option<string>, result: Option<string>, iterations: Option<nat>, now: nat)
      returns (run: Option<Run>)
      modifies this
      ensures rows == Perform(old(rows), id,
                              Op.SaveArtifacts(stage, design, test, review, result, iterations), now)
      ensures run == if id in rows then Some(rows[id]) else None
      ensures id in old(rows) ==> id in rows && rows[id].status == old(rows)[id].status
                                  && rows[id].approved == old(rows)[id].approved
                                  && rows[id].plan == old(rows)[id].plan
                                  && rows[id].prompt == old(rows)[id].prompt
                                  && rows[id].error == old(rows)[id].error
                                  && StageSet(rows[id].stage, stage, old(rows)[id].stage)
                                  && SetIfGiven(rows[id].design, design, old(rows)[id].design)
                                  && SetIfGiven(rows[id].test, test, old(rows)[id].test)
                                  && SetIfGiven(rows[id].review, review, old(rows)[id].review)
                                  && SetIfGiven(rows[id].result, result, old(rows)[id].result)
                                  && SetIfGiven(Some(rows[id].iterations), iterations, Some(old(rows)[id].iterations))
    {
      var existing := Get(id);
      if existing.None? {
        return None;
      }
      var op := Op.SaveArtifacts(stage, design, test, review, result, iterations);
      rows := rows[id := Sql(op, existing.value, rows[id], now).value];
      run := Get(id);
    }
  }
}
