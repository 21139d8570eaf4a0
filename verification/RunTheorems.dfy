/** Safety of the run lifecycle over every behaviour. The one thing that can break it is the failure path
    of plan revision, which writes back a status it read before awaiting the redraft; every theorem names
    the statuses whose writing back it has to exclude. `RunHazards` has the exact conditions. */
module RunTheorems {
  import opened Wrappers
  import opened RunRepository
  import opened RunProtocol

  // ---------------------------------------------------------------- events of a behaviour

  ghost predicate ChangesStatus(b: Behaviour, k: nat, r: RunId, from: Status, to: Status)
    requires IsBehaviour(b)
  {
    && k < |b.steps|
    && r in b.states[k].rows && b.states[k].rows[r].status == from
    && r in b.states[k + 1].rows && b.states[k + 1].rows[r].status == to
  }

  ghost predicate StartsAt(b: Behaviour, k: nat, r: RunId)
    requires IsBehaviour(b)
  {
    ChangesStatus(b, k, r, Queued, Running)
  }

  ghost predicate CancelsAt(b: Behaviour, k: nat, r: RunId)
    requires IsBehaviour(b)
  {
    ChangesStatus(b, k, r, AwaitingConfirmation, Cancelled)
  }

  ghost predicate ApprovesAt(b: Behaviour, k: nat, r: RunId)
    requires IsBehaviour(b)
  {
    && ChangesStatus(b, k, r, AwaitingConfirmation, Queued)
    && !b.states[k].rows[r].approved && b.states[k + 1].rows[r].approved
  }

  /** The step writes an outdated status, one of `statuses`, back onto run `r`: a failed revision read it and
      now overwrites another. */
  ghost predicate StaleWriteBack(s: State, step: Step, r: RunId, statuses: set<Status>) {
    && step.Write? && step.c in s.clients
    && var l := s.clients[step.c];
    && l.InCall? && l.run == r && IsWriteBack(l.pc, l.op)
    && r in s.rows && s.rows[r].status != l.op.status && l.op.status in statuses
  }

  /** Between the states `lo` and `hi` no such status is written back onto `r`. */
  ghost predicate CleanBetween(b: Behaviour, lo: nat, hi: nat, r: RunId, statuses: set<Status>)
    requires IsBehaviour(b)
  {
    forall k {:trigger b.steps[k]} ::
      lo <= k < hi && k < |b.steps| ==> !StaleWriteBack(b.states[k], b.steps[k], r, statuses)
  }

  // ---------------------------------------------------------------- unconditional safety

  lemma {:induction false} InvAlways(b: Behaviour, k: nat)
    requires IsBehaviour(b) && k < |b.states|
    ensures Inv(b.states[k])
  {
    if k > 0 {
      InvAlways(b, k - 1);
      InvNext(b.states[k - 1], b.steps[k - 1], b.states[k - 1 + 1]);
    }
  }

  lemma StepKeepsApprovals(b: Behaviour, k: nat)
    requires IsBehaviour(b) && k < |b.steps|
    ensures KeepsApprovals(b.states[k], b.states[k + 1])
  {
    InvAlways(b, k);
    InvNext(b.states[k], b.steps[k], b.states[k + 1]);
  }

  /** Whatever the interleaving, stale write-backs included: a run that is or has been executing was
      approved with a plan on record, and it was so already when it started. */
  lemma ApprovedAndPlannedBeforeStart(b: Behaviour, k: nat, r: RunId)
    requires IsBehaviour(b) && k < |b.states| && r in b.states[k].rows
    ensures InExecution(b.states[k].rows[r].status) ==>
              b.states[k].rows[r].approved && b.states[k].rows[r].plan.Some?
    ensures StartsAt(b, k, r) ==> b.states[k].rows[r].approved && b.states[k].rows[r].plan.Some?
  {
    InvAlways(b, k);
    if StartsAt(b, k, r) {
      var step := b.steps[k];
      assert Next(b.states[k], step, b.states[k + 1]);
      assert LocalOk(b.states[k].clients[step.c], b.states[k].rows);
    }
  }

  /** Rows never disappear and approval is never withdrawn. */
  lemma {:induction false} ApprovalPersists(b: Behaviour, i: nat, j: nat, r: RunId)
    requires IsBehaviour(b) && i <= j < |b.states| && r in b.states[i].rows
    ensures r in b.states[j].rows
    ensures b.states[i].rows[r].approved ==> b.states[j].rows[r].approved
  {
    if i < j {
      ApprovalPersists(b, i, j - 1, r);
      StepKeepsApprovals(b, j - 1);
    }
  }

  /** Plans are replaced but never removed. */
  lemma {:induction false} PlanPersists(b: Behaviour, i: nat, j: nat, r: RunId)
    requires IsBehaviour(b) && i <= j < |b.states| && r in b.states[i].rows && b.states[i].rows[r].plan.Some?
    ensures r in b.states[j].rows && b.states[j].rows[r].plan.Some?
  {
    if i < j {
      PlanPersists(b, i, j - 1, r);
      assert Next(b.states[j - 1], b.steps[j - 1], b.states[j - 1 + 1]);
    }
  }

  // ---------------------------------------------------------------- phases a clean step cannot leave

  datatype Phase =
    | Undecided   // not both approved and awaiting confirmation
    | Settled     // no longer awaiting confirmation
    | Launched    // approved, no longer queued
    | Committed   // approved, neither awaiting confirmation nor cancelled
    | Withdrawn   // cancelled, or failed after that, without approval
    | Finished    // completed, failed or cancelled

  ghost predicate In(p: Phase, row: Run) {
    match p
    case Undecided => row.approved ==> row.status != AwaitingConfirmation
    case Settled => row.status != AwaitingConfirmation
    case Launched => row.approved && row.status != Queued
    case Committed => row.approved && row.status !in {AwaitingConfirmation, Cancelled}
    case Withdrawn => !row.approved && row.status in {Cancelled, Failed}
    case Finished => Terminal(row.status)
  }

  /** The statuses whose writing back takes a run out of the phase; nothing else does. */
  function Breaks(p: Phase): set<Status> {
    match p
    case Undecided => {AwaitingConfirmation}
    case Settled => {AwaitingConfirmation}
    case Launched => {Queued}
    case Committed => {AwaitingConfirmation, Cancelled}
    case Withdrawn => {AwaitingConfirmation, Queued}
    case Finished => {AwaitingConfirmation, Queued, Running, WaitingTool}
  }

  lemma PhaseWrite(p: Phase, l: Local, row: Run, now: nat)
    requires l.InCall? && MayCall(l.pc, l.op) && Attempts(l.op, l.existing)
    requires RowOk(row) && PcOk(l.pc, row) && In(p, row)
    requires !(IsWriteBack(l.pc, l.op) && row.status != l.op.status && l.op.status in Breaks(p))
    ensures var after := Sql(l.op, l.existing, row, now); after.Some? ==> In(p, after.value)
  {
  }

  lemma PhaseStep(p: Phase, s: State, step: Step, s': State, r: RunId)
    requires Inv(s) && Next(s, step, s') && !StaleWriteBack(s, step, r, Breaks(p))
    requires r in s.rows && In(p, s.rows[r])
    ensures r in s'.rows && In(p, s'.rows[r])
  {
    if step.Write? {
      var l := s.clients[step.c];
      assert LocalOk(l, s.rows);
      if l.run == r {
        PhaseWrite(p, l, s.rows[r], step.now);
      }
    }
  }

  lemma {:induction false} PhaseStable(p: Phase, b: Behaviour, i: nat, j: nat, r: RunId)
    requires IsBehaviour(b) && i <= j < |b.states|
    requires r in b.states[i].rows && In(p, b.states[i].rows[r])
    requires CleanBetween(b, i, j, r, Breaks(p))
    ensures r in b.states[j].rows && In(p, b.states[j].rows[r])
  {
    if i < j {
      PhaseStable(p, b, i, j - 1, r);
      InvAlways(b, j - 1);
      PhaseStep(p, b.states[j - 1], b.steps[j - 1], b.states[j - 1 + 1], r);
    }
  }

  lemma {:induction false} UndecidedAlways(b: Behaviour, j: nat, r: RunId)
    requires IsBehaviour(b) && j < |b.states| && CleanBetween(b, 0, j, r, {AwaitingConfirmation})
    ensures r in b.states[j].rows ==> In(Undecided, b.states[j].rows[r])
  {
    if j > 0 {
      UndecidedAlways(b, j - 1, r);
      InvAlways(b, j - 1);
      if r in b.states[j - 1].rows {
        PhaseStep(Undecided, b.states[j - 1], b.steps[j - 1], b.states[j - 1 + 1], r);
      } else {
        assert Next(b.states[j - 1], b.steps[j - 1], b.states[j - 1 + 1]);
      }
    }
  }

  // ---------------------------------------------------------------- the theorems

  /** Two starts of one run always have an outdated `queued` written back onto it in between. */
  lemma SecondStartNeedsWriteBack(b: Behaviour, i: nat, j: nat, r: RunId)
    requires IsBehaviour(b) && i < j && StartsAt(b, i, r) && StartsAt(b, j, r)
    ensures exists k {:trigger b.steps[k]} :: i < k < j && StaleWriteBack(b.states[k], b.steps[k], r, {Queued})
  {
    ApprovedAndPlannedBeforeStart(b, i + 1, r);
    if CleanBetween(b, i + 1, j, r, {Queued}) {
      PhaseStable(Launched, b, i + 1, j, r);
      assert false;
    }
  }

  /** A run leaves the wait for confirmation by one cancellation or one approval: with both, in either
      order, an outdated `awaiting_confirmation` was written back onto it in between. */
  lemma CancelAndApproveExclusive(b: Behaviour, i: nat, j: nat, r: RunId)
    requires IsBehaviour(b) && CancelsAt(b, i, r) && ApprovesAt(b, j, r)
    ensures exists k {:trigger b.steps[k]} ::
              (if i < j then i < k < j else j < k < i)
              && StaleWriteBack(b.states[k], b.steps[k], r, {AwaitingConfirmation})
  {
    var first, second := if i < j then i else j, if i < j then j else i;
    if CleanBetween(b, first + 1, second, r, {AwaitingConfirmation}) {
      PhaseStable(Settled, b, first + 1, second, r);
      assert false;
    }
  }

  lemma CancelledRow(b: Behaviour, i: nat, r: RunId)
    requires IsBehaviour(b) && CancelsAt(b, i, r)
    ensures b.states[i + 1].rows[r].approved == b.states[i].rows[r].approved
    ensures !b.states[i].rows[r].approved ==> In(Withdrawn, b.states[i + 1].rows[r])
  {
    assert Next(b.states[i], b.steps[i], b.states[i + 1]);
  }

  /** After a cancellation the run is never executing or completed, as long as no revision has written
      back an outdated status it may wait or start from. */
  lemma CancelledNeverExecutes(b: Behaviour, i: nat, j: nat, r: RunId)
    requires IsBehaviour(b) && CancelsAt(b, i, r) && i < j < |b.states|
    requires CleanBetween(b, 0, i, r, {AwaitingConfirmation})
    requires CleanBetween(b, i + 1, j, r, {AwaitingConfirmation, Queued})
    ensures r in b.states[j].rows && b.states[j].rows[r].status in {Cancelled, Failed}
    ensures !InExecution(b.states[j].rows[r].status)
  {
    UndecidedAlways(b, i, r);
    CancelledRow(b, i, r);
    PhaseStable(Withdrawn, b, i + 1, j, r);
  }

  /** A started run is never cancelled, as long as no revision writes back one of the two statuses that
      stand for it. */
  lemma StartedNeverCancelled(b: Behaviour, i: nat, j: nat, r: RunId)
    requires IsBehaviour(b) && StartsAt(b, i, r) && i < j < |b.states|
    requires CleanBetween(b, i + 1, j, r, {AwaitingConfirmation, Cancelled})
    ensures r in b.states[j].rows && b.states[j].rows[r].status != Cancelled
  {
    ApprovedAndPlannedBeforeStart(b, i + 1, r);
    PhaseStable(Committed, b, i + 1, j, r);
  }

  /** A finished run becomes unfinished again only through an outdated unfinished status written back. */
  lemma RevivedOnlyByWriteBack(b: Behaviour, i: nat, j: nat, r: RunId)
    requires IsBehaviour(b) && i <= j < |b.states|
    requires r in b.states[i].rows && Terminal(b.states[i].rows[r].status)
    ensures r in b.states[j].rows
    ensures !Terminal(b.states[j].rows[r].status) ==>
              exists k {:trigger b.steps[k]} ::
                i <= k < j && StaleWriteBack(b.states[k], b.steps[k], r, Breaks(Finished))
  {
    ApprovalPersists(b, i, j, r);
    if CleanBetween(b, i, j, r, Breaks(Finished)) {
      PhaseStable(Finished, b, i, j, r);
    }
  }

  // ---------------------------------------------------------------- single start under the caller's guard

  /** The step reads the row a revision of `r` will fall back on. */
  ghost predicate BeginsRevision(s: State, step: Step, r: RunId) {
    || (step.Enter? && step.id == r && step.pc.ReviseRead?)
    || (step.Reread? && step.c in s.clients && s.clients[step.c].run == r)
  }

  /** Every revision of `r` begins on a run it finds awaiting confirmation. */
  ghost predicate RevisionsFindAwaiting(b: Behaviour, r: RunId)
    requires IsBehaviour(b)
  {
    forall k {:trigger b.steps[k]} :: 0 <= k < |b.steps| && BeginsRevision(b.states[k], b.steps[k], r) ==>
      r in b.states[k].rows && b.states[k].rows[r].status == AwaitingConfirmation
  }

  /** At step `m` a revision of `r` read it with that status. */
  ghost predicate ReadAt(b: Behaviour, m: nat, r: RunId, status: Status)
    requires IsBehaviour(b) && m < |b.steps|
  {
    && BeginsRevision(b.states[m], b.steps[m], r)
    && r in b.states[m].rows && b.states[m].rows[r].status == status
  }

  /** What a revision holds it has read at some earlier step. */
  lemma {:induction false} SeenWasRead(b: Behaviour, k: nat, c: ClientId) returns (m: nat)
    requires IsBehaviour(b) && k < |b.states|
    requires c in b.states[k].clients && b.states[k].clients[c].pc.ReviseRead?
    ensures m < k && ReadAt(b, m, b.states[k].clients[c].run, b.states[k].clients[c].pc.seen.status)
  {
    assert Next(b.states[k - 1], b.steps[k - 1], b.states[k - 1 + 1]);
    var l := b.states[k].clients[c];
    if BeginsRevision(b.states[k - 1], b.steps[k - 1], l.run) && b.steps[k - 1].c == c {
      m := k - 1;
    } else {
      assert c in b.states[k - 1].clients && b.states[k - 1].clients[c].pc == l.pc;
      m := SeenWasRead(b, k - 1, c);
    }
  }

  /** Two starts of one run always have an earlier revision that read it queued. `RunWitnesses` shows the
      converse: from any such read on, a second start is possible. */
  lemma SecondStartNeedsQueuedRead(b: Behaviour, i: nat, j: nat, r: RunId) returns (m: nat)
    requires IsBehaviour(b) && i < j && StartsAt(b, i, r) && StartsAt(b, j, r)
    ensures m < j && ReadAt(b, m, r, Queued)
  {
    SecondStartNeedsWriteBack(b, i, j, r);
    var k :| i < k < j && StaleWriteBack(b.states[k], b.steps[k], r, {Queued});
    m := SeenWasRead(b, k, b.steps[k].c);
  }

  /** Single start: if every revision begins on a run it finds awaiting confirmation, a run goes from
      queued to running at most once and is never queued again after, whatever writes come between the
      read of a revision and its end. */
  lemma SingleStart(b: Behaviour, i: nat, j: nat, r: RunId)
    requires IsBehaviour(b) && RevisionsFindAwaiting(b, r) && StartsAt(b, i, r)
    ensures StartsAt(b, j, r) ==> i == j
    ensures i < j < |b.states| ==> r in b.states[j].rows && b.states[j].rows[r].status != Queued
  {
    if StartsAt(b, j, r) && i != j {
      var m := SecondStartNeedsQueuedRead(b, if i < j then i else j, if i < j then j else i, r);
      assert false;
    }
    forall k | 0 <= k < |b.steps| ensures !StaleWriteBack(b.states[k], b.steps[k], r, {Queued}) {
      if StaleWriteBack(b.states[k], b.steps[k], r, {Queued}) {
        var m := SeenWasRead(b, k, b.steps[k].c);
      }
    }
    if i < j < |b.states| {
      ApprovedAndPlannedBeforeStart(b, i + 1, r);
      PhaseStable(Launched, b, i + 1, j, r);
    }
  }

  /** Revisions of `r` go through the chat handler, which has found the run awaiting confirmation, and no
      other client acts between that and the use case's own read: within one process nothing is awaited
      there. */
  ghost predicate HandlerUninterrupted(b: Behaviour, r: RunId)
    requires IsBehaviour(b)
  {
    && RevisedByHandler(b, r)
    && forall k {:trigger b.steps[k]} ::
         0 <= k < |b.steps| - 1 && b.steps[k].Enter? && b.steps[k].id == r && b.steps[k].pc.ReviseReady?
         ==> b.steps[k + 1].c == b.steps[k].c
  }

  /** No revision of `r` is entered past the handler's guard. */
  ghost predicate RevisedByHandler(b: Behaviour, r: RunId)
    requires IsBehaviour(b)
  {
    forall k {:trigger b.steps[k]} ::
      0 <= k < |b.steps| && b.steps[k].Enter? && b.steps[k].id == r ==> !b.steps[k].pc.ReviseRead?
  }

  lemma {:induction false} JustGuarded(b: Behaviour, k: nat, c: ClientId, r: RunId)
    requires IsBehaviour(b) && HandlerUninterrupted(b, r) && k < |b.states|
    requires c in b.states[k].clients && b.states[k].clients[c] == At(r, ReviseReady)
    ensures k > 0 && b.steps[k - 1] == Enter(c, r, ReviseReady)
  {
    assert Next(b.states[k - 1], b.steps[k - 1], b.states[k - 1 + 1]);
    if b.steps[k - 1] != Enter(c, r, ReviseReady) {
      assert c in b.states[k - 1].clients && b.states[k - 1].clients[c] == At(r, ReviseReady);
      JustGuarded(b, k - 1, c, r);
      assert false;
    }
  }

  /** So with the guard of the program's only caller, run in one process, single start holds. */
  lemma SingleStartBehindHandler(b: Behaviour, i: nat, j: nat, r: RunId)
    requires IsBehaviour(b) && HandlerUninterrupted(b, r) && StartsAt(b, i, r) && StartsAt(b, j, r)
    ensures i == j
  {
    forall k | 0 <= k < |b.steps| && BeginsRevision(b.states[k], b.steps[k], r)
      ensures r in b.states[k].rows && b.states[k].rows[r].status == AwaitingConfirmation
    {
      assert Next(b.states[k], b.steps[k], b.states[k + 1]);
      JustGuarded(b, k, b.steps[k].c, r);
      assert Next(b.states[k - 1], b.steps[k - 1], b.states[k - 1 + 1]);
    }
    SingleStart(b, i, j, r);
  }

  // ---------------------------------------------------------------- revisions in one step

  /** No status changes under a revision of `r` in progress, as if its read, redraft and write were one step. */
  ghost predicate RevisionsAtomic(b: Behaviour, r: RunId)
    requires IsBehaviour(b)
  {
    forall k, c :: 0 <= k < |b.states| && c in b.states[k].clients
                   && b.states[k].clients[c].run == r && b.states[k].clients[c].pc.ReviseRead?
                   && r in b.states[k].rows
                   ==> b.states[k].rows[r].status == b.states[k].clients[c].pc.seen.status
  }

  /** With revisions in one step nothing is written back outdated, so every guarantee holds outright: one
      start, never both a cancellation and an approval, no execution after a cancellation, no cancellation
      after a start, no revival. */
  lemma AtomicRevisionsSuffice(b: Behaviour, r: RunId, i: nat, j: nat)
    requires IsBehaviour(b) && RevisionsAtomic(b, r)
    ensures StartsAt(b, i, r) && StartsAt(b, j, r) ==> i == j
    ensures !(CancelsAt(b, i, r) && ApprovesAt(b, j, r))
    ensures CancelsAt(b, i, r) && i < j < |b.states| ==>
              r in b.states[j].rows && !InExecution(b.states[j].rows[r].status)
    ensures StartsAt(b, i, r) && i < j < |b.states| ==>
              r in b.states[j].rows && b.states[j].rows[r].status != Cancelled
    ensures i <= j < |b.states| && r in b.states[i].rows && Terminal(b.states[i].rows[r].status) ==>
              r in b.states[j].rows && Terminal(b.states[j].rows[r].status)
  {
    AtomicRevisionsAreClean(b, r);
    if StartsAt(b, i, r) && StartsAt(b, j, r) && i != j {
      var first, second := if i < j then i else j, if i < j then j else i;
      assert CleanBetween(b, first + 1, second, r, {Queued});
      SecondStartNeedsWriteBack(b, first, second, r);
      assert false;
    }
    if CancelsAt(b, i, r) && ApprovesAt(b, j, r) {
      var first, second := if i < j then i else j, if i < j then j else i;
      assert CleanBetween(b, first + 1, second, r, {AwaitingConfirmation});
      CancelAndApproveExclusive(b, i, j, r);
      assert false;
    }
    if CancelsAt(b, i, r) && i < j < |b.states| {
      CancelledNeverExecutes(b, i, j, r);
    }
    if StartsAt(b, i, r) && i < j < |b.states| {
      StartedNeverCancelled(b, i, j, r);
    }
    if i <= j < |b.states| && r in b.states[i].rows && Terminal(b.states[i].rows[r].status) {
      RevivedOnlyByWriteBack(b, i, j, r);
    }
  }

  lemma AtomicRevisionsAreClean(b: Behaviour, r: RunId)
    requires IsBehaviour(b) && RevisionsAtomic(b, r)
    ensures forall lo: nat, hi: nat, statuses :: CleanBetween(b, lo, hi, r, statuses)
  {
    forall k, statuses | 0 <= k < |b.steps| ensures !StaleWriteBack(b.states[k], b.steps[k], r, statuses) {
    }
  }
}
