/** What can still happen to a run: the continuations of a behaviour, what stays out of their reach, and how
    to build one. */
module RunContinuations {
  import opened Wrappers
  import opened RunRepository
  import opened RunProtocol
  import opened RunTheorems

  // ---------------------------------------------------------------- what can still happen

  datatype Event = Start | Approval | Cancellation

  ghost predicate Happens(e: Event, b: Behaviour, k: nat, r: RunId)
    requires IsBehaviour(b)
  {
    match e
    case Start => StartsAt(b, k, r)
    case Approval => ApprovesAt(b, k, r)
    case Cancellation => CancelsAt(b, k, r)
  }

  function Last(b: Behaviour): State
    requires IsBehaviour(b)
  {
    b.states[|b.steps|]
  }

  ghost predicate Extends(b': Behaviour, b: Behaviour) {
    IsBehaviour(b') && IsBehaviour(b) && b.states <= b'.states && b.steps <= b'.steps
  }

  ghost predicate CanHappen(e: Event, b: Behaviour, r: RunId)
    requires IsBehaviour(b)
  {
    exists b', j: nat :: Extends(b', b) && |b.steps| <= j && Happens(e, b', j, r)
  }

  predicate IsRevisionStep(step: Step) {
    step.Reread? || (step.Enter? && (step.pc.ReviseReady? || step.pc.ReviseRead?))
  }

  /** A continuation that begins no revision. */
  ghost predicate ExtendsQuietly(b': Behaviour, b: Behaviour) {
    Extends(b', b) && forall k :: |b.steps| <= k < |b'.steps| ==> !IsRevisionStep(b'.steps[k])
  }

  ghost predicate CanHappenQuietly(e: Event, b: Behaviour, r: RunId)
    requires IsBehaviour(b)
  {
    exists b', j: nat :: ExtendsQuietly(b', b) && |b.steps| <= j && Happens(e, b', j, r)
  }

  /** Some continuation, the empty one included, leaves the run in one of `statuses`. */
  ghost predicate CanStand(b: Behaviour, r: RunId, statuses: set<Status>)
    requires IsBehaviour(b)
  {
    exists b', j: nat :: Extends(b', b) && |b.steps| <= j && StandsAt(b', j, r, statuses)
  }

  ghost predicate StandsAt(b: Behaviour, j: nat, r: RunId, statuses: set<Status>) {
    j < |b.states| && r in b.states[j].rows && b.states[j].rows[r].status in statuses
  }

  ghost predicate CanStandQuietly(b: Behaviour, r: RunId, statuses: set<Status>)
    requires IsBehaviour(b)
  {
    exists b', j: nat :: ExtendsQuietly(b', b) && |b.steps| <= j && StandsAt(b', j, r, statuses)
  }

  /** A revision of `r` that read `status` has yet to end, and may still write it back. */
  ghost predicate Holds(s: State, c: ClientId, r: RunId, status: Status) {
    && c in s.clients
    && var l := s.clients[c];
    && l.run == r && l.pc.ReviseRead? && l.pc.seen.status == status
    && (l.InCall? ==> IsWriteBack(l.pc, l.op))
  }

  /** The run has the status, or may get it back. */
  ghost predicate InReach(s: State, r: RunId, status: Status) {
    r in s.rows && (s.rows[r].status == status || exists c :: Holds(s, c, r, status))
  }

  // ---------------------------------------------------------------- what is out of reach stays so

  /** A client executes the run and is not just about to fail it: it may go on to complete it. */
  ghost predicate Executor(s: State, c: ClientId, r: RunId) {
    && c in s.clients
    && var l := s.clients[c];
    && l.run == r && l.pc.Executing? && (l.InCall? ==> !IsFailure(l.op))
  }

  datatype Bar =
    | NoWait      // awaiting confirmation is out of reach
    | NoCancel    // so is cancelled
    | NoQueue     // the run is approved and the queue out of reach
    | NoWork      // so are the statuses of execution, and nobody executes the run
    | NoApproval  // the run is not approved, and neither waiting nor queued is in reach

  function Excluded(bar: Bar): set<Status> {
    match bar
    case NoWait => {AwaitingConfirmation}
    case NoCancel => {AwaitingConfirmation, Cancelled}
    case NoQueue => {Queued}
    case NoWork => {Queued, Running, WaitingTool, Completed}
    case NoApproval => {AwaitingConfirmation, Queued}
  }

  ghost predicate RowBarred(bar: Bar, row: Run) {
    && row.status !in Excluded(bar)
    && (bar.NoQueue? || bar.NoWork? ==> row.approved) && (bar.NoApproval? ==> !row.approved)
  }

  ghost predicate Barred(bar: Bar, s: State, r: RunId) {
    && r in s.rows && RowBarred(bar, s.rows[r])
    && (forall c, status :: status in Excluded(bar) ==> !Holds(s, c, r, status))
    && (bar.NoWork? ==> forall c :: !Executor(s, c, r))
  }

  lemma BarredWrite(bar: Bar, s: State, c: ClientId, r: RunId, now: nat)
    requires Inv(s) && Barred(bar, s, r) && c in s.clients && s.clients[c].InCall? && s.clients[c].run == r
    ensures var after := Sql(s.clients[c].op, s.clients[c].existing, s.rows[r], now);
            after.Some? ==> RowBarred(bar, after.value)
  {
    var l := s.clients[c];
    assert LocalOk(l, s.rows);
    if IsWriteBack(l.pc, l.op) {
      assert Holds(s, c, r, l.op.status);
    }
    if l.pc.Executing? && !IsFailure(l.op) {
      assert Executor(s, c, r);
    }
  }

  lemma NobodyExecutes(s: State, step: Step, s': State, r: RunId, d: ClientId)
    requires Inv(s) && Barred(NoWork, s, r) && Next(s, step, s')
    ensures !Executor(s', d, r)
  {
    assert !Executor(s, d, r);
    assert d in s.clients ==> LocalOk(s.clients[d], s.rows);
  }

  lemma BarredStep(bar: Bar, s: State, step: Step, s': State, r: RunId)
    requires Inv(s) && Barred(bar, s, r) && Next(s, step, s')
    ensures Barred(bar, s', r)
  {
    if step.Write? && s.clients[step.c].run == r {
      BarredWrite(bar, s, step.c, r, step.now);
    }
    assert RowBarred(bar, s'.rows[r]);
    forall d, status | status in Excluded(bar)
      ensures !Holds(s', d, r, status)
    {
      assert !Holds(s, d, r, status);
    }
    if bar.NoWork? {
      forall d ensures !Executor(s', d, r) {
        NobodyExecutes(s, step, s', r, d);
      }
    }
  }

  lemma BarredStepAt(bar: Bar, b: Behaviour, k: nat, r: RunId)
    requires IsBehaviour(b) && k < |b.steps| && Barred(bar, b.states[k], r)
    ensures Barred(bar, b.states[k + 1], r)
  {
    InvAlways(b, k);
    BarredStep(bar, b.states[k], b.steps[k], b.states[k + 1], r);
  }

  lemma {:induction false} BarredStable(bar: Bar, b: Behaviour, i: nat, j: nat, r: RunId)
    requires IsBehaviour(b) && i <= j < |b.states| && Barred(bar, b.states[i], r)
    ensures Barred(bar, b.states[j], r)
    decreases j - i
  {
    if i < j {
      BarredStepAt(bar, b, i, r);
      BarredStable(bar, b, i + 1, j, r);
    }
  }

  lemma BarredInExtension(bar: Bar, b: Behaviour, b': Behaviour, j: nat, r: RunId)
    requires IsBehaviour(b) && Extends(b', b) && |b.steps| <= j < |b'.states| && Barred(bar, Last(b), r)
    ensures Barred(bar, b'.states[j], r)
  {
    assert b'.states[|b.steps|] == Last(b);
    BarredStable(bar, b', |b.steps|, j, r);
  }

  // ---------------------------------------------------------------- continuations

  function Then(b: Behaviour, step: Step, s: State): Behaviour {
    Behaviour(b.states + [s], b.steps + [step])
  }

  lemma ThenIsBehaviour(b: Behaviour, step: Step, s: State)
    requires IsBehaviour(b) && Next(Last(b), step, s)
    ensures IsBehaviour(Then(b, step, s)) && Extends(Then(b, step, s), b) && Last(Then(b, step, s)) == s
    ensures !IsRevisionStep(step) ==> ExtendsQuietly(Then(b, step, s), b)
  {
    var b' := Then(b, step, s);
    forall k | 0 <= k < |b'.steps|
      ensures Next(b'.states[k], b'.steps[k], b'.states[k + 1])
    {
      if k < |b.steps| {
        assert Next(b.states[k], b.steps[k], b.states[k + 1]);
      }
    }
  }

  lemma QuietlyAgain(b: Behaviour, b1: Behaviour, b2: Behaviour)
    requires ExtendsQuietly(b1, b) && ExtendsQuietly(b2, b1)
    ensures ExtendsQuietly(b2, b)
  {
    forall k | |b.steps| <= k < |b2.steps| ensures !IsRevisionStep(b2.steps[k]) {
      if k < |b1.steps| {
        assert b2.steps[k] == b1.steps[k];
      }
    }
  }

  lemma {:induction false} FreshClient(ids: set<ClientId>) returns (c: ClientId)
    ensures c !in ids && forall d :: d in ids ==> d < c
    decreases ids
  {
    c := 0;
    if ids != {} {
      var some :| some in ids;
      var above := FreshClient(ids - {some});
      c := if some < above then above else some + 1;
      forall d | d in ids ensures d < c {
        assert d == some || d in ids - {some};
      }
    }
  }

  /** A client inside a call issues its UPDATE. */
  lemma Writes(b: Behaviour, c: ClientId) returns (b': Behaviour)
    requires IsBehaviour(b) && c in Last(b).clients && Last(b).clients[c].InCall?
    requires Last(b).clients[c].run in Last(b).rows
    requires var l := Last(b).clients[c]; Sql(l.op, l.existing, Last(b).rows[l.run], 0).Some?
    ensures ExtendsQuietly(b', b) && |b'.steps| == |b.steps| + 1 && b'.steps[|b.steps|] == Write(c, 0)
    ensures var l := Last(b).clients[c];
            && Last(b').rows == Last(b).rows[l.run := Sql(l.op, l.existing, Last(b).rows[l.run], 0).value]
            && Last(b').clients == Proceed(Last(b).clients, c, l.run, After(l.pc, l.op, true))
  {
    var s := Last(b);
    var l := s.clients[c];
    var s' := State(s.rows[l.run := Sql(l.op, l.existing, s.rows[l.run], 0).value],
                    Proceed(s.clients, c, l.run, After(l.pc, l.op, true)));
    b' := Then(b, Write(c, 0), s');
    ThenIsBehaviour(b, Write(c, 0), s');
  }

  /** A client reads for a call and goes on to its UPDATE, with nobody in between. */
  lemma CallsAndWrites(b: Behaviour, c: ClientId, r: RunId, pc: Pc, op: Op) returns (b': Behaviour)
    requires IsBehaviour(b) && c in Last(b).clients && Last(b).clients[c] == At(r, pc) && r in Last(b).rows
    requires MayCall(pc, op) && Attempts(op, Last(b).rows[r])
    requires Sql(op, Last(b).rows[r], Last(b).rows[r], 0).Some?
    ensures ExtendsQuietly(b', b) && |b'.steps| == |b.steps| + 2
    ensures b'.states[|b.steps| + 1].rows == Last(b).rows
    ensures Last(b').rows == Last(b).rows[r := Sql(op, Last(b).rows[r], Last(b).rows[r], 0).value]
    ensures Last(b').clients == Proceed(Last(b).clients, c, r, After(pc, op, true))
  {
    var s := Last(b);
    var s1 := s.(clients := s.clients[c := InCall(r, pc, s.rows[r], op)]);
    var b1 := Then(b, Call(c, op), s1);
    ThenIsBehaviour(b, Call(c, op), s1);
    b' := Writes(b1, c);
    QuietlyAgain(b, b1, b');
    SameProceed(s.clients, c, r, InCall(r, pc, s.rows[r], op), After(pc, op, true));
    assert b'.states[|b.steps| + 1] == s1;
  }

  lemma SameProceed(clients: map<ClientId, Local>, c: ClientId, r: RunId, l: Local, next: Option<Pc>)
    ensures Proceed(clients[c := l], c, r, next) == Proceed(clients, c, r, next)
  {
    assert clients[c := l] - {c} == clients - {c};
  }

  /** A new client passes its guard and makes its one call. */
  lemma EntersAndWrites(b: Behaviour, c: ClientId, r: RunId, pc: Pc, op: Op) returns (b': Behaviour)
    requires IsBehaviour(b) && c !in Last(b).clients && r in Last(b).rows
    requires MayEnter(pc, Last(b).rows[r]) && !pc.ReviseRead? && !pc.ReviseReady?
    requires MayCall(pc, op) && Attempts(op, Last(b).rows[r])
    requires Sql(op, Last(b).rows[r], Last(b).rows[r], 0).Some?
    ensures ExtendsQuietly(b', b) && |b'.steps| == |b.steps| + 3
    ensures b'.states[|b.steps| + 2].rows == Last(b).rows
    ensures Last(b').rows == Last(b).rows[r := Sql(op, Last(b).rows[r], Last(b).rows[r], 0).value]
    ensures Last(b').clients == Proceed(Last(b).clients, c, r, After(pc, op, true))
  {
    var s := Last(b);
    var s1 := s.(clients := s.clients[c := At(r, pc)]);
    var b1 := Then(b, Enter(c, r, pc), s1);
    ThenIsBehaviour(b, Enter(c, r, pc), s1);
    b' := CallsAndWrites(b1, c, r, pc, op);
    QuietlyAgain(b, b1, b');
    SameProceed(s.clients, c, r, At(r, pc), After(pc, op, true));
  }

  /** A pending revision fails and writes back what it read. */
  lemma WritesBack(b: Behaviour, c: ClientId, r: RunId, status: Status) returns (b': Behaviour)
    requires IsBehaviour(b) && r in Last(b).rows && Holds(Last(b), c, r, status)
    ensures ExtendsQuietly(b', b) && r in Last(b').rows && Last(b').rows[r].status == status
    ensures Last(b').rows[r].approved == Last(b).rows[r].approved
    ensures Last(b').clients == Last(b).clients - {c}
  {
    var l := Last(b).clients[c];
    if l.InCall? {
      b' := Writes(b, c);
    } else {
      b' := CallsAndWrites(b, c, r, l.pc, SetStatus(l.pc.seen.status, Some(l.pc.seen.stage), None, Some("e"), None));
    }
  }

  /** A status within reach can be reached. */
  lemma Reached(b: Behaviour, r: RunId, status: Status) returns (b': Behaviour)
    requires IsBehaviour(b) && InReach(Last(b), r, status)
    ensures ExtendsQuietly(b', b) && r in Last(b').rows && Last(b').rows[r].status == status
    ensures Last(b').rows[r].approved == Last(b).rows[r].approved
  {
    if Last(b).rows[r].status == status {
      b' := b;
    } else {
      var c :| Holds(Last(b), c, r, status);
      b' := WritesBack(b, c, r, status);
    }
  }

  const RUN := SetStatus(Running, Some("retrieve_context"), None, None, Some(Queued))
  const CANCEL := SetStatus(Cancelled, None, None, None, Some(AwaitingConfirmation))

  lemma StartsFromQueue(b: Behaviour, r: RunId)
    requires IsBehaviour(b) && r in Last(b).rows && Last(b).rows[r].approved && Last(b).rows[r].status == Queued
    ensures CanHappenQuietly(Start, b, r)
  {
    var c := FreshClient(Last(b).clients.Keys);
    var b' := EntersAndWrites(b, c, r, StartReady, RUN);
    assert b'.states[|b.steps| + 3] == Last(b');
    assert Happens(Start, b', |b.steps| + 2, r);
  }

  /** A planning job on a queued run stores a plan and approves the run. */
  lemma PlannedInQueue(b: Behaviour, r: RunId) returns (b': Behaviour)
    requires IsBehaviour(b) && r in Last(b).rows && !Last(b).rows[r].approved && Last(b).rows[r].status == Queued
    ensures ExtendsQuietly(b', b) && r in Last(b').rows
    ensures Last(b').rows[r].approved && Last(b').rows[r].status == Queued
    ensures forall d :: d in Last(b).clients ==> d in Last(b').clients && Last(b').clients[d] == Last(b).clients[d]
  {
    var c := FreshClient(Last(b).clients.Keys);
    var row := Last(b).rows[r];
    var b1 := EntersAndWrites(b, c, r, PlanRead(row), SetPlan("plan", None, Some("queued_for_execution")));
    b' := CallsAndWrites(b1, c, r, PlanSaved, Op.Approve);
    QuietlyAgain(b, b1, b');
  }

  /** A planning job on a run that awaits confirmation leaves it waiting, with a plan. */
  lemma PlannedInWait(b: Behaviour, r: RunId) returns (b': Behaviour)
    requires IsBehaviour(b) && r in Last(b).rows && Last(b).rows[r].status == AwaitingConfirmation
    ensures ExtendsQuietly(b', b) && r in Last(b').rows
    ensures var row := Last(b').rows[r];
            row.status == AwaitingConfirmation && row.plan.Some? && row.approved == Last(b).rows[r].approved
  {
    var c := FreshClient(Last(b).clients.Keys);
    b' := EntersAndWrites(b, c, r, PlanRead(Last(b).rows[r]), SetPlan("plan", None, None));
  }

  lemma ApprovedFromWait(b: Behaviour, r: RunId) returns (b': Behaviour)
    requires IsBehaviour(b) && r in Last(b).rows
    requires !Last(b).rows[r].approved && Last(b).rows[r].status == AwaitingConfirmation
    ensures ExtendsQuietly(b', b) && |b'.steps| > |b.steps| && ApprovesAt(b', |b'.steps| - 1, r)
    ensures r in Last(b').rows && Last(b').rows[r].approved && Last(b').rows[r].status == Queued
  {
    var b1 := PlannedInWait(b, r);
    var c := FreshClient(Last(b1).clients.Keys);
    b' := EntersAndWrites(b1, c, r, ApproveReady, Op.Approve);
    QuietlyAgain(b, b1, b');
    assert b'.states[|b1.steps| + 3] == Last(b');
  }

  lemma QuietlyLater(e: Event, b: Behaviour, b1: Behaviour, r: RunId)
    requires ExtendsQuietly(b1, b) && CanHappenQuietly(e, b1, r)
    ensures CanHappenQuietly(e, b, r)
  {
    var b', j: nat :| ExtendsQuietly(b', b1) && |b1.steps| <= j && Happens(e, b', j, r);
    QuietlyAgain(b, b1, b');
  }

  lemma QuietlyCan(e: Event, b: Behaviour, r: RunId)
    requires IsBehaviour(b) && CanHappenQuietly(e, b, r)
    ensures CanHappen(e, b, r)
  {
    var b', j: nat :| ExtendsQuietly(b', b) && |b.steps| <= j && Happens(e, b', j, r);
    assert Extends(b', b);
  }
}
