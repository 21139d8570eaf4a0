/** Behaviours of the program that break the guarantees `RunHazards` gives exact conditions for. Where it
    matters they revise only behind the chat handler's guard. */
module RunWitnesses {
  import opened Wrappers
  import opened RunRepository
  import opened RunProtocol
  import opened RunTheorems
  import opened RunContinuations
  import opened RunHazards

  /** Each message's handler is followed by the use case's own read before anybody else acts, the last one
      too. */
  ghost predicate Handled(b: Behaviour, r: RunId)
    requires IsBehaviour(b)
  {
    HandlerUninterrupted(b, r) && (|b.steps| > 0 ==> !IsGuard(b.steps[|b.steps| - 1], r))
  }

  predicate IsGuard(step: Step, r: RunId) {
    step.Enter? && step.id == r && step.pc.ReviseReady?
  }

  lemma HandledStill(b: Behaviour, b': Behaviour, r: RunId)
    requires Extends(b', b) && ExtendsQuietly(b', b)
    ensures Handled(b, r) ==> Handled(b', r)
    ensures RevisedByHandler(b, r) ==> RevisedByHandler(b', r)
  {
    assert forall k :: 0 <= k < |b.steps| ==> b'.steps[k] == b.steps[k];
  }

  /** A message reaches the handler, and the use case reads the run in turn. */
  lemma BeginsHandled(b: Behaviour, c: ClientId, r: RunId) returns (b': Behaviour)
    requires IsBehaviour(b) && Handled(b, r) && c !in Last(b).clients && r in Last(b).rows
    requires MayEnter(ReviseReady, Last(b).rows[r])
    ensures Extends(b', b) && Handled(b', r) && |b'.steps| == |b.steps| + 2
    ensures Last(b').rows == Last(b).rows
    ensures Last(b').clients == Last(b).clients[c := At(r, ReviseRead(Last(b).rows[r]))]
  {
    var s := Last(b);
    var s1 := s.(clients := s.clients[c := At(r, ReviseReady)]);
    var b1 := Then(b, Enter(c, r, ReviseReady), s1);
    ThenIsBehaviour(b, Enter(c, r, ReviseReady), s1);
    var s2 := s.(clients := s.clients[c := At(r, ReviseRead(s.rows[r]))]);
    assert s2 == s1.(clients := s1.clients[c := At(r, ReviseRead(s1.rows[r]))]);
    b' := Then(b1, Reread(c), s2);
    ThenIsBehaviour(b1, Reread(c), s2);
  }

  const ORIGIN := Origin(1, 1, "coder", "generate_code", None, 60, 0)
  const SUBMITTED := Run(ORIGIN, AwaitingConfirmation, "planning", "p", None, None, None, None, 0, false, None, None, 0)

  /** A run submitted for confirmation, with its plan drafted. */
  lemma AwaitingPlanned(r: RunId) returns (b: Behaviour)
    ensures IsBehaviour(b) && Handled(b, r) && r in Last(b).rows && Last(b).clients == map[0 := At(r, Dispatching)]
    ensures MayEnter(ReviseReady, Last(b).rows[r]) && !Last(b).rows[r].approved
  {
    var b0 := Behaviour([State(map[], map[])], []);
    var s1 := State(map[r := SUBMITTED], map[0 := At(r, Dispatching)]);
    var b1 := Then(b0, Create(0, r, SUBMITTED), s1);
    ThenIsBehaviour(b0, Create(0, r, SUBMITTED), s1);
    b := EntersAndWrites(b1, 1, r, PlanRead(SUBMITTED), SetPlan("plan", None, None));
    HandledStill(b1, b, r);
  }

  lemma CancelledBy(b: Behaviour, c: ClientId, r: RunId) returns (b': Behaviour, i: nat)
    requires IsBehaviour(b) && r in Last(b).rows && Last(b).rows[r].status == AwaitingConfirmation
    requires c !in Last(b).clients
    ensures ExtendsQuietly(b', b) && |b'.steps| == i + 1 && i >= |b.steps| && CancelsAt(b', i, r)
    ensures r in Last(b').rows && Last(b').rows[r].status == Cancelled
    ensures Last(b').rows[r].approved == Last(b).rows[r].approved && Last(b').rows[r].plan == Last(b).rows[r].plan
    ensures Last(b').clients == Last(b).clients
  {
    i := |b.steps| + 2;
    b' := EntersAndWrites(b, c, r, CancelReady, CANCEL);
    assert b'.states[i + 1] == Last(b');
    assert Last(b).clients - {c} == Last(b).clients;
  }

  lemma StartedBy(b: Behaviour, c: ClientId, r: RunId) returns (b': Behaviour, i: nat)
    requires IsBehaviour(b) && r in Last(b).rows && Last(b).rows[r].approved && Last(b).rows[r].status == Queued
    requires c !in Last(b).clients
    ensures ExtendsQuietly(b', b) && |b'.steps| == i + 1 && i >= |b.steps| && StartsAt(b', i, r)
    ensures r in Last(b').rows && Last(b').rows[r].approved && Last(b').rows[r].status == Running
    ensures Last(b').clients == Last(b).clients[c := At(r, Executing)]
  {
    i := |b.steps| + 2;
    b' := EntersAndWrites(b, c, r, StartReady, RUN);
    assert b'.states[i + 1] == Last(b');
  }

  lemma ApprovedBy(b: Behaviour, c: ClientId, r: RunId) returns (b': Behaviour, i: nat)
    requires IsBehaviour(b) && r in Last(b).rows && MayEnter(ApproveReady, Last(b).rows[r])
    requires c !in Last(b).clients
    ensures ExtendsQuietly(b', b) && |b'.steps| == i + 1 && i >= |b.steps| && ApprovesAt(b', i, r)
    ensures r in Last(b').rows && Last(b').rows[r].approved && Last(b').rows[r].status == Queued
    ensures Last(b').clients == Last(b).clients[c := At(r, Dispatching)]
  {
    i := |b.steps| + 2;
    b' := EntersAndWrites(b, c, r, ApproveReady, Op.Approve);
    assert b'.states[i + 1] == Last(b');
  }

  /** The user cancels a run during the redraft of its plan, the redraft fails, and the run can then be
      approved, or even executed. */
  lemma ApprovedAfterCancelWitness(r: RunId)
    ensures exists b, i: nat, j: nat ::
              IsBehaviour(b) && HandlerUninterrupted(b, r) && i < j && CancelsAt(b, i, r) && ApprovesAt(b, j, r)
    ensures exists b, i: nat, j: nat ::
              IsBehaviour(b) && HandlerUninterrupted(b, r) && i < j && CancelsAt(b, i, r) && StartsAt(b, j, r)
  {
    var b0 := AwaitingPlanned(r);
    var b1 := BeginsHandled(b0, 2, r);
    var b2, i := CancelledBy(b1, 3, r);
    HandledStill(b1, b2, r);
    assert Holds(Last(b2), 2, r, AwaitingConfirmation);
    ApprovalPossibleIff(b2, r);
    StartPossibleIff(b2, r);
    var approved, j: nat :| ExtendsQuietly(approved, b2) && |b2.steps| <= j && Happens(Approval, approved, j, r);
    HandledStill(b2, approved, r);
    HappenedStill(Cancellation, b2, approved, i, r);
    var started, k: nat :| ExtendsQuietly(started, b2) && |b2.steps| <= k && Happens(Start, started, k, r);
    HandledStill(b2, started, r);
    HappenedStill(Cancellation, b2, started, i, r);
  }

  /** Approved by another client and started, whatever the revision that client 2 has under way. */
  lemma ApprovedAndStarted(b: Behaviour, r: RunId) returns (b': Behaviour, i: nat, j: nat)
    requires IsBehaviour(b) && r in Last(b).rows && MayEnter(ApproveReady, Last(b).rows[r])
    requires Last(b).clients.Keys == {0, 2}
    ensures ExtendsQuietly(b', b) && i < j < |b'.steps| && ApprovesAt(b', i, r) && StartsAt(b', j, r)
    ensures r in Last(b').rows
    ensures Last(b').clients == Last(b).clients[3 := At(r, Dispatching)][4 := At(r, Executing)]
    ensures Last(b').rows[r].approved && Last(b').rows[r].status == Running
  {
    var b1;
    b1, i := ApprovedBy(b, 3, r);
    b', j := StartedBy(b1, 4, r);
    QuietlyAgain(b, b1, b');
    HappenedStill(Approval, b1, b', i, r);
  }

  /** The user approves a run during the redraft and it starts. */
  lemma StartedDuringRedraft(r: RunId) returns (b: Behaviour, i: nat, j: nat)
    ensures IsBehaviour(b) && Handled(b, r) && i < j < |b.steps| && ApprovesAt(b, i, r) && StartsAt(b, j, r)
    ensures r in Last(b).rows && Last(b).rows[r].approved && Holds(Last(b), 2, r, AwaitingConfirmation)
    ensures Last(b).clients.Keys == {0, 2, 3, 4} && Last(b).clients[4] == At(r, Executing)
    ensures !Last(b).clients[0].pc.ReviseRead? && !Last(b).clients[3].pc.ReviseRead?
  {
    var b0 := AwaitingPlanned(r);
    var b1 := BeginsHandled(b0, 2, r);
    b, i, j := ApprovedAndStarted(b1, r);
    HandledStill(b1, b, r);
    assert Holds(Last(b), 2, r, AwaitingConfirmation);
  }

  lemma HappenedStill(e: Event, b: Behaviour, b': Behaviour, k: nat, r: RunId)
    requires Extends(b', b) && Happens(e, b, k, r)
    ensures Happens(e, b', k, r)
  {
  }

  /** Then the redraft fails, and the running run can be cancelled as if it still waited. */
  lemma CancelledAfterStartWitness(r: RunId)
    ensures exists b, i: nat, j: nat, k: nat ::
              IsBehaviour(b) && HandlerUninterrupted(b, r) && i < j < k
              && ApprovesAt(b, i, r) && StartsAt(b, j, r) && CancelsAt(b, k, r)
  {
    var b0, i, j := StartedDuringRedraft(r);
    CancellationPossibleIff(b0, r);
    var b, k: nat :| ExtendsQuietly(b, b0) && |b0.steps| <= k && Happens(Cancellation, b, k, r);
    HandledStill(b0, b, r);
    HappenedStill(Approval, b0, b, i, r);
    HappenedStill(Start, b0, b, j, r);
  }

  /** A redraft fails, and the run it puts back to waiting is cancelled. */
  lemma FailsThenCancelled(b: Behaviour, c: ClientId, d: ClientId, r: RunId) returns (b': Behaviour, i: nat)
    requires IsBehaviour(b) && r in Last(b).rows && Holds(Last(b), c, r, AwaitingConfirmation)
    requires d !in Last(b).clients
    ensures ExtendsQuietly(b', b) && |b'.steps| == i + 1 && i >= |b.steps| && CancelsAt(b', i, r)
    ensures r in Last(b').rows && Last(b').rows[r].status == Cancelled
    ensures Last(b').rows[r].approved == Last(b).rows[r].approved
    ensures Last(b').clients == Last(b).clients - {c}
  {
    var b1 := WritesBack(b, c, r, AwaitingConfirmation);
    b', i := CancelledBy(b1, d, r);
    QuietlyAgain(b, b1, b');
  }

  /** The redraft of a run approved and started meanwhile fails, and the run is cancelled while it executes. */
  lemma CancelledWhileExecuting(r: RunId) returns (b: Behaviour, i: nat)
    ensures IsBehaviour(b) && Handled(b, r) && |b.steps| > 0 && i < |b.steps| - 1
    ensures StartsAt(b, i, r) && CancelsAt(b, |b.steps| - 1, r)
    ensures r in Last(b).rows && Last(b).rows[r].approved && Last(b).rows[r].status == Cancelled
    ensures Last(b).clients.Keys == {0, 3, 4} && Last(b).clients[4] == At(r, Executing)
    ensures !Last(b).clients[0].pc.ReviseRead? && !Last(b).clients[3].pc.ReviseRead?
  {
    var b0, approval, j;
    b0, approval, i := StartedDuringRedraft(r);
    b, j := FailsThenCancelled(b0, 2, 5, r);
    assert Handled(b, r) by { HandledStill(b0, b, r); }
    assert StartsAt(b, i, r) by { HappenedStill(Start, b0, b, i, r); }
  }

  /** Such a run completes all the same, although it cannot start again: whoever executes it marks it
      completed, whatever its status. */
  lemma CompletedAfterCancelWitness(r: RunId)
    ensures exists b, i: nat, j: nat ::
              && IsBehaviour(b) && HandlerUninterrupted(b, r) && i < j && StartsAt(b, i, r) && CancelsAt(b, j, r)
              && !CanHappen(Start, b, r) && CanStandQuietly(b, r, {Completed})
  {
    var b, i := CancelledWhileExecuting(r);
    StartPossibleIff(b, r);
    Completes(b, 4, r);
  }

  /** One more message passes the handler's guard. */
  lemma Guards(b: Behaviour, c: ClientId, r: RunId) returns (b': Behaviour)
    requires IsBehaviour(b) && c !in Last(b).clients && r in Last(b).rows && MayEnter(ReviseReady, Last(b).rows[r])
    ensures Extends(b', b) && Last(b').rows == Last(b).rows
    ensures Last(b').clients == Last(b).clients[c := At(r, ReviseReady)]
    ensures RevisedByHandler(b, r) ==> RevisedByHandler(b', r)
  {
    var s := Last(b).(clients := Last(b).clients[c := At(r, ReviseReady)]);
    b' := Then(b, Enter(c, r, ReviseReady), s);
    ThenIsBehaviour(b, Enter(c, r, ReviseReady), s);
  }

  /** And the use case reads the run in turn, as it is by then. */
  lemma ReadsAgain(b: Behaviour, c: ClientId, r: RunId) returns (b': Behaviour)
    requires IsBehaviour(b) && r in Last(b).rows && c in Last(b).clients && Last(b).clients[c] == At(r, ReviseReady)
    ensures Extends(b', b) && Last(b').rows == Last(b).rows
    ensures Last(b').clients == Last(b).clients[c := At(r, ReviseRead(Last(b).rows[r]))]
    ensures RevisedByHandler(b, r) ==> RevisedByHandler(b', r)
  {
    var s := Last(b).(clients := Last(b).clients[c := At(r, ReviseRead(Last(b).rows[r]))]);
    b' := Then(b, Reread(c), s);
    ThenIsBehaviour(b, Reread(c), s);
  }

  /** Two messages pass the guard, the first one's use case has read the run, and it is cancelled. */
  lemma CancelledBetweenReads(r: RunId) returns (b: Behaviour, i: nat)
    ensures IsBehaviour(b) && RevisedByHandler(b, r) && i < |b.steps| && CancelsAt(b, i, r)
    ensures r in Last(b).rows && !Last(b).rows[r].approved && Last(b).rows[r].plan.Some?
    ensures Last(b).rows[r].status == Cancelled && Last(b).clients.Keys == {0, 2, 5}
    ensures Last(b).clients[0] == At(r, Dispatching) && Last(b).clients[5] == At(r, ReviseReady)
    ensures Holds(Last(b), 2, r, AwaitingConfirmation)
  {
    var b0 := AwaitingPlanned(r);
    var b1 := BeginsHandled(b0, 2, r);
    var b2 := Guards(b1, 5, r);
    b, i := CancelledBy(b2, 3, r);
    HandledStill(b2, b, r);
  }

  /** Only then does the second one's use case read it. */
  lemma TwoRevisions(r: RunId) returns (b: Behaviour, i: nat)
    ensures IsBehaviour(b) && RevisedByHandler(b, r) && i < |b.steps| && CancelsAt(b, i, r)
    ensures r in Last(b).rows && !Last(b).rows[r].approved && Last(b).rows[r].plan.Some?
    ensures Last(b).clients.Keys == {0, 2, 5} && !Last(b).clients[0].pc.ReviseRead?
    ensures Holds(Last(b), 2, r, AwaitingConfirmation) && Holds(Last(b), 5, r, Cancelled)
  {
    var b0;
    b0, i := CancelledBetweenReads(r);
    b := ReadsAgain(b0, 5, r);
    HappenedStill(Cancellation, b0, b, i, r);
  }

  /** The first redraft fails, the run is approved and starts; the second revision is still under way. */
  lemma StartedBetweenFailures(r: RunId) returns (b: Behaviour, i: nat, j: nat)
    ensures IsBehaviour(b) && RevisedByHandler(b, r) && i < j && CancelsAt(b, i, r) && StartsAt(b, j, r)
    ensures r in Last(b).rows && Last(b).rows[r].status == Running && Holds(Last(b), 5, r, Cancelled)
    ensures forall c :: !Holds(Last(b), c, r, AwaitingConfirmation)
  {
    var b0;
    b0, i := TwoRevisions(r);
    var b1 := WritesBack(b0, 2, r, AwaitingConfirmation);
    PlanStays(b0, b1, r);
    var b2, approval := ApprovedBy(b1, 6, r);
    b, j := StartedBy(b2, 7, r);
    QuietlyAgain(b0, b1, b2);
    QuietlyAgain(b0, b2, b);
    HandledStill(b0, b, r);
    HappenedStill(Cancellation, b0, b, i, r);
  }

  /** Plans are replaced but never removed. */
  lemma PlanStays(b: Behaviour, b': Behaviour, r: RunId)
    requires Extends(b', b) && r in Last(b).rows && Last(b).rows[r].plan.Some?
    ensures r in Last(b').rows && Last(b').rows[r].plan.Some?
  {
    assert b'.states[|b.steps|] == Last(b);
    PlanPersists(b', |b.steps|, |b'.steps|, r);
  }

  /** Nobody can cancel this running run any more, and still it ends up cancelled when the second redraft
      fails: that revision had read it so. */
  lemma CancelledOverRunningWitness(r: RunId)
    ensures exists b, i: nat, j: nat ::
              && IsBehaviour(b) && RevisedByHandler(b, r) && i < j && CancelsAt(b, i, r) && StartsAt(b, j, r)
              && !CanHappen(Cancellation, b, r) && CanStandQuietly(b, r, {Cancelled})
  {
    var b, i, j := StartedBetweenFailures(r);
    CancellationPossibleIff(b, r);
    CancelledPossibleIff(b, r);
  }

  /** The handler finds a run awaiting confirmation, another process approves it, and only then does the use
      case read it, as queued. */
  lemma ReadQueued(r: RunId) returns (b: Behaviour)
    ensures IsBehaviour(b) && RevisedByHandler(b, r) && r in Last(b).rows && Last(b).clients.Keys == {0, 2, 3}
    ensures Last(b).rows[r].approved && Last(b).rows[r].status == Queued && Holds(Last(b), 2, r, Queued)
  {
    var b0 := AwaitingPlanned(r);
    var b1 := Guards(b0, 2, r);
    var b2, i := ApprovedBy(b1, 3, r);
    HandledStill(b1, b2, r);
    b := ReadsAgain(b2, 2, r);
  }

  /** In any behaviour, once a revision has read a run queued and it is so still, the run may start twice:
      the guard of `SingleStart` cannot be weakened. */
  lemma QueuedReadRestarts(b: Behaviour, c: ClientId, r: RunId)
    requires IsBehaviour(b) && Holds(Last(b), c, r, Queued) && r in Last(b).rows && Last(b).rows[r].status == Queued
    ensures exists b', i: nat, j: nat ::
              ExtendsQuietly(b', b) && |b.steps| <= i < j && StartsAt(b', i, r) && StartsAt(b', j, r)
  {
    var b1 := b;
    if !Last(b).rows[r].approved {
      b1 := PlannedInQueue(b, r);
    }
    var d := FreshClient(Last(b1).clients.Keys);
    var b2, i := StartedBy(b1, d, r);
    assert Holds(Last(b2), c, r, Queued);
    QuietlyAgain(b, b1, b2);
    StartPossibleIff(b2, r);
    var b', j: nat :| ExtendsQuietly(b', b2) && |b2.steps| <= j && Happens(Start, b', j, r);
    QuietlyAgain(b, b2, b');
    assert StartsAt(b', i, r);
  }

  /** From there the run starts, the redraft fails, and the run starts a second time. */
  lemma DoubleStartWitness(r: RunId)
    ensures exists b, i: nat, j: nat ::
              IsBehaviour(b) && RevisedByHandler(b, r) && i < j && StartsAt(b, i, r) && StartsAt(b, j, r)
  {
    var b0 := ReadQueued(r);
    QueuedReadRestarts(b0, 2, r);
    var b, i: nat, j: nat :|
      ExtendsQuietly(b, b0) && |b0.steps| <= i < j && StartsAt(b, i, r) && StartsAt(b, j, r);
    HandledStill(b0, b, r);
  }
}
