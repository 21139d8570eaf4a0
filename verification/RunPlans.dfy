/** Which plan a run starts with. A planning job, a revision or a replanning that has read the run before its
    approval may store its plan after it; exactly then the run can start with another plan than approved. */
module RunPlans {
  import opened Wrappers
  import opened RunRepository
  import opened RunProtocol
  import opened RunTheorems
  import opened RunContinuations
  import opened RunHazards
  import opened RunWitnesses

  /** A client that can still store a plan of `r` other than the one on record, without a new guard. */
  ghost predicate Replanner(s: State, c: ClientId, r: RunId) {
    && c in s.clients && s.clients[c].run == r && r in s.rows
    && match s.clients[c]
       case At(_, pc) => pc.PlanRead? || pc.ReviseReady? || pc.ReviseRead? || pc.Executing?
       case InCall(_, pc, _, op) =>
         || (op.SetPlan? && Some(op.plan) != s.rows[r].plan)
         || (pc.Executing? && !(op.SetStatus? && Terminal(op.status)))
  }

  /** A client sets out to plan or revise `r`. */
  predicate BeginsPlanning(step: Step, r: RunId) {
    step.Enter? && step.id == r && (step.pc.PlanRead? || step.pc.ReviseReady? || step.pc.ReviseRead?)
  }

  /** Step `k` sets out to plan `r`, or starts it. */
  ghost predicate Disturbs(b: Behaviour, k: nat, r: RunId)
    requires IsBehaviour(b)
  {
    k < |b.steps| && (BeginsPlanning(b.steps[k], r) || StartsAt(b, k, r))
  }

  ghost predicate Undisturbed(b: Behaviour, lo: nat, hi: nat, r: RunId)
    requires IsBehaviour(b)
  {
    forall k: nat :: lo <= k < hi ==> !Disturbs(b, k, r)
  }

  // ---------------------------------------------------------------- the plan is kept

  ghost predicate PlanFixed(s: State, r: RunId, plan: Option<string>) {
    r in s.rows && s.rows[r].plan == plan && NobodyReplans(s, r)
  }

  ghost predicate NobodyReplans(s: State, r: RunId) {
    forall c :: !Replanner(s, c, r)
  }

  lemma PlanFixedStep(s: State, step: Step, s': State, r: RunId, plan: Option<string>)
    requires Inv(s) && Next(s, step, s') && PlanFixed(s, r, plan) && !BeginsPlanning(step, r)
    requires r in s'.rows && !(s.rows[r].status == Queued && s'.rows[r].status == Running)
    ensures PlanFixed(s', r, plan)
  {
    assert !Replanner(s, step.c, r);
    assert step.c in s.clients ==> LocalOk(s.clients[step.c], s.rows);
    forall d ensures !Replanner(s', d, r) {
      assert !Replanner(s, d, r);
    }
  }

  lemma {:induction false} PlanFixedAlong(b: Behaviour, i: nat, j: nat, r: RunId)
    requires IsBehaviour(b) && i <= j < |b.states| && r in b.states[i].rows
    requires PlanFixed(b.states[i], r, b.states[i].rows[r].plan) && Undisturbed(b, i, j, r)
    ensures PlanFixed(b.states[j], r, b.states[i].rows[r].plan)
  {
    if i < j {
      PlanFixedAlong(b, i, j - 1, r);
      InvAlways(b, j - 1);
      ApprovalPersists(b, j - 1, j, r);
      assert !Disturbs(b, j - 1, r);
      PlanFixedStep(b.states[j - 1], b.steps[j - 1], b.states[j - 1 + 1], r, b.states[i].rows[r].plan);
    }
  }

  /** The plan a run starts with is the one that was approved, if nobody holds another at the approval and
      nobody sets out to make one before the start. */
  lemma StartsWithApprovedPlan(b: Behaviour, i: nat, j: nat, r: RunId)
    requires IsBehaviour(b) && i < j && ApprovesAt(b, i, r) && StartsAt(b, j, r)
    requires Undisturbed(b, i + 1, j, r) && NobodyReplans(b.states[i + 1], r)
    ensures b.states[j].rows[r].plan == b.states[i + 1].rows[r].plan
  {
    PlanFixedAlong(b, i + 1, j, r);
  }

  // ---------------------------------------------------------------- and otherwise can change

  /** A continuation in which a queued run stays queued and nobody sets out to plan it. */
  ghost predicate Waits(b': Behaviour, b: Behaviour, r: RunId) {
    && Extends(b', b)
    && (forall k :: |b.steps| <= k < |b'.steps| ==> !BeginsPlanning(b'.steps[k], r))
    && (forall k :: |b.steps| <= k < |b'.states| ==> r in b'.states[k].rows && b'.states[k].rows[r].status == Queued)
  }

  lemma WaitsMore(b: Behaviour, b1: Behaviour, b2: Behaviour, r: RunId)
    requires Waits(b1, b, r) && Waits(b2, b1, r)
    ensures Waits(b2, b, r)
  {
    assert forall k :: 0 <= k < |b1.steps| ==> b2.steps[k] == b1.steps[k];
    assert forall k :: 0 <= k < |b1.states| ==> b2.states[k] == b1.states[k];
  }

  lemma WaitsStep(b: Behaviour, step: Step, s: State, r: RunId)
    requires IsBehaviour(b) && Next(Last(b), step, s) && !BeginsPlanning(step, r)
    requires r in Last(b).rows && Last(b).rows[r].status == Queued && r in s.rows && s.rows[r].status == Queued
    ensures Waits(Then(b, step, s), b, r) && Last(Then(b, step, s)) == s
  {
    ThenIsBehaviour(b, step, s);
  }

  /** A client at its place in a planning use case stores a new plan. */
  lemma StoresPlan(b: Behaviour, c: ClientId, r: RunId, plan: string) returns (b': Behaviour)
    requires IsBehaviour(b) && c in Last(b).clients && Last(b).clients[c].At? && Last(b).clients[c].run == r
    requires var pc := Last(b).clients[c].pc; pc.PlanRead? || pc.ReviseRead? || pc.Executing?
    requires r in Last(b).rows && Last(b).rows[r].status == Queued
    ensures Waits(b', b, r) && Last(b').rows[r].plan == Some(plan)
    ensures Last(b').rows[r].approved == Last(b).rows[r].approved
  {
    var s, pc := Last(b), Last(b).clients[c].pc;
    var op := match pc
      case PlanRead(seen) =>
        SetPlan(plan, None, if seen.status == AwaitingConfirmation then None else Some("queued_for_execution"))
      case ReviseRead(_) => SetPlan(plan, Some("p"), None)
      case _ => SetPlan(plan, None, Some("internal_replanning"));
    var s1 := s.(clients := s.clients[c := InCall(r, pc, s.rows[r], op)]);
    var b1 := Then(b, Call(c, op), s1);
    WaitsStep(b, Call(c, op), s1, r);
    b' := WritesWaiting(b1, c, r);
    WaitsMore(b, b1, b', r);
  }

  /** A client inside a call that leaves the run queued finishes it. */
  lemma WritesWaiting(b: Behaviour, c: ClientId, r: RunId) returns (b': Behaviour)
    requires IsBehaviour(b) && c in Last(b).clients && Last(b).clients[c].InCall? && Last(b).clients[c].run == r
    requires r in Last(b).rows && Last(b).rows[r].status == Queued
    requires var l := Last(b).clients[c];
             || l.op.SetPlan? || l.op.SaveArtifacts?
             || (l.op.SetStatus? && l.op.expected.Some? && l.op.expected.value != Queued)
    ensures Waits(b', b, r)
    ensures var l := Last(b).clients[c];
            && Last(b').rows[r].plan == (if l.op.SetPlan? then Some(l.op.plan) else Last(b).rows[r].plan)
            && Last(b').rows[r].approved == Last(b).rows[r].approved
            && Last(b').clients == Proceed(Last(b).clients, c, r, After(l.pc, l.op, !l.op.SetStatus?))
  {
    var s, l := Last(b), Last(b).clients[c];
    var after := Sql(l.op, l.existing, s.rows[r], 0);
    var s' := State(if after.Some? then s.rows[r := after.value] else s.rows,
                    Proceed(s.clients, c, r, After(l.pc, l.op, after.Some?)));
    b' := Then(b, Write(c, 0), s');
    WaitsStep(b, Write(c, 0), s', r);
  }

  lemma Replans(b: Behaviour, c: ClientId, r: RunId) returns (b': Behaviour)
    requires IsBehaviour(b) && Replanner(Last(b), c, r) && Last(b).rows[r].status == Queued
    ensures Waits(b', b, r) && Last(b').rows[r].plan != Last(b).rows[r].plan
    ensures Last(b').rows[r].approved == Last(b).rows[r].approved
  {
    var s, l := Last(b), Last(b).clients[c];
    var plan := if s.rows[r].plan.Some? then s.rows[r].plan.value + "!" else "plan";
    assert s.rows[r].plan.Some? ==> |plan| == |s.rows[r].plan.value| + 1;
    InvAlways(b, |b.steps|);
    assert LocalOk(l, s.rows);
    if l.At? {
      var b1 := b;
      if l.pc.ReviseReady? {
        var s1 := s.(clients := s.clients[c := At(r, ReviseRead(s.rows[r]))]);
        b1 := Then(b, Reread(c), s1);
        WaitsStep(b, Reread(c), s1, r);
        b' := StoresPlan(b1, c, r, plan);
        WaitsMore(b, b1, b', r);
      } else {
        b' := StoresPlan(b, c, r, plan);
      }
    } else {
      var b1 := WritesWaiting(b, c, r);
      b' := b1;
      if !(l.op.SetPlan? && Some(l.op.plan) != s.rows[r].plan) {
        b' := StoresPlan(b1, c, r, plan);
        WaitsMore(b, b1, b', r);
      }
    }
  }

  /** Some continuation in which nobody sets out to plan the run starts it with another plan, the first time
      it starts. */
  ghost predicate CanStartReplanned(b: Behaviour, r: RunId)
    requires IsBehaviour(b) && r in Last(b).rows
  {
    exists b', j: nat :: Extends(b', b) && |b.steps| <= j && StartsReplanned(b', |b.steps|, j, r, Last(b).rows[r].plan)
  }

  ghost predicate StartsReplanned(b: Behaviour, i: nat, j: nat, r: RunId, plan: Option<string>)
    requires IsBehaviour(b)
  {
    StartsAt(b, j, r) && Undisturbed(b, i, j, r) && b.states[j].rows[r].plan != plan
  }

  lemma ReplannerReplans(b: Behaviour, c: ClientId, r: RunId) returns (b': Behaviour, j: nat)
    requires IsBehaviour(b) && Replanner(Last(b), c, r)
    requires Last(b).rows[r].approved && Last(b).rows[r].status == Queued
    ensures Extends(b', b) && |b.steps| <= j && StartsReplanned(b', |b.steps|, j, r, Last(b).rows[r].plan)
  {
    var b1 := Replans(b, c, r);
    var d := FreshClient(Last(b1).clients.Keys);
    var s, row := Last(b1), Last(b1).rows[r];
    var s1 := s.(clients := s.clients[d := At(r, StartReady)]);
    var b2 := Then(b1, Enter(d, r, StartReady), s1);
    WaitsStep(b1, Enter(d, r, StartReady), s1, r);
    var s2 := s1.(clients := s1.clients[d := InCall(r, StartReady, row, RUN)]);
    var b3 := Then(b2, Call(d, RUN), s2);
    WaitsStep(b2, Call(d, RUN), s2, r);
    WaitsMore(b, b1, b2, r);
    WaitsMore(b, b2, b3, r);
    b' := Writes(b3, d);
    j := |b3.steps|;
    StartsAfterWaiting(b, b3, b', r);
  }

  lemma StartsAfterWaiting(b: Behaviour, b1: Behaviour, b2: Behaviour, r: RunId)
    requires Waits(b1, b, r) && Extends(b2, b1) && |b2.steps| == |b1.steps| + 1
    requires r in Last(b2).rows && Last(b2).rows[r].status == Running
    ensures StartsAt(b2, |b1.steps|, r) && Undisturbed(b2, |b.steps|, |b1.steps|, r)
    ensures b2.states[|b1.steps|] == Last(b1)
  {
    assert forall k :: 0 <= k < |b1.steps| ==> b2.steps[k] == b1.steps[k];
    assert forall k :: 0 <= k < |b1.states| ==> b2.states[k] == b1.states[k];
    forall k: nat | |b.steps| <= k < |b1.steps| ensures !Disturbs(b2, k, r) {
      assert b2.steps[k] == b1.steps[k] && b2.states[k + 1] == b1.states[k + 1];
    }
  }

  /** An approved, queued run can start with another plan than is on record if and only if some client can
      still store one. */
  lemma StartsReplannedIff(b: Behaviour, r: RunId)
    requires IsBehaviour(b) && r in Last(b).rows && Last(b).rows[r].approved && Last(b).rows[r].status == Queued
    ensures CanStartReplanned(b, r) <==> exists c :: Replanner(Last(b), c, r)
  {
    if c :| Replanner(Last(b), c, r) {
      var b', j := ReplannerReplans(b, c, r);
    } else {
      forall b', j: nat | Extends(b', b) && |b.steps| <= j && StartsAt(b', j, r) && Undisturbed(b', |b.steps|, j, r)
        ensures b'.states[j].rows[r].plan == Last(b).rows[r].plan
      {
        assert b'.states[|b.steps|] == Last(b);
        PlanFixedAlong(b', |b.steps|, j, r);
      }
    }
  }

  /** Two planning jobs read a new run, one stores its plan, the user approves it, and then the other stores
      its own: the run starts with a plan nobody approved. No revision takes part. */
  lemma OtherPlanWitness(r: RunId)
    ensures exists b, i: nat, j: nat ::
              && IsBehaviour(b) && i < j && ApprovesAt(b, i, r) && StartsAt(b, j, r)
              && b.states[j].rows[r].plan != b.states[i + 1].rows[r].plan
  {
    var b0 := Behaviour([State(map[], map[])], []);
    var s1 := State(map[r := SUBMITTED], map[0 := At(r, Dispatching)]);
    var b1 := Then(b0, Create(0, r, SUBMITTED), s1);
    ThenIsBehaviour(b0, Create(0, r, SUBMITTED), s1);
    var s2 := s1.(clients := s1.clients[5 := At(r, PlanRead(SUBMITTED))]);
    var b2 := Then(b1, Enter(5, r, PlanRead(SUBMITTED)), s2);
    ThenIsBehaviour(b1, Enter(5, r, PlanRead(SUBMITTED)), s2);
    var b3 := EntersAndWrites(b2, 1, r, PlanRead(SUBMITTED), SetPlan("plan", None, None));
    var b4, i := ApprovedBy(b3, 2, r);
    assert Replanner(Last(b4), 5, r);
    var b, j := ReplannerReplans(b4, 5, r);
    HappenedStill(Approval, b4, b, i, r);
    assert b.states[i + 1] == Last(b4);
  }
}
