/** Exactly when a run can still be started, approved or cancelled: from the state any behaviour has reached,
    by any continuation of it. The only surprise in the conditions is a revision that has read the run
    earlier and may yet fail and write that status back; behaviours of the program show that it happens. */
module RunHazards {
  import opened Wrappers
  import opened RunRepository
  import opened RunProtocol
  import opened RunTheorems
  import opened RunContinuations

  // ---------------------------------------------------------------- the exact conditions

  /** A run can still be cancelled if and only if it awaits confirmation or a pending revision read that,
      approved or not; and then also without any further revision. */
  lemma CancellationPossibleIff(b: Behaviour, r: RunId)
    requires IsBehaviour(b) && r in Last(b).rows
    ensures CanHappen(Cancellation, b, r) <==> InReach(Last(b), r, AwaitingConfirmation)
    ensures CanHappenQuietly(Cancellation, b, r) <==> InReach(Last(b), r, AwaitingConfirmation)
  {
    if InReach(Last(b), r, AwaitingConfirmation) {
      var b1 := Reached(b, r, AwaitingConfirmation);
      var c := FreshClient(Last(b1).clients.Keys);
      var b' := EntersAndWrites(b1, c, r, CancelReady, CANCEL);
      QuietlyAgain(b, b1, b');
      assert b'.states[|b1.steps| + 3] == Last(b');
      assert Happens(Cancellation, b', |b1.steps| + 2, r);
    } else {
      forall b', j: nat | Extends(b', b) && |b.steps| <= j && |b.steps| <= j < |b'.steps|
        ensures !Happens(Cancellation, b', j, r)
      {
        BarredInExtension(NoWait, b, b', j, r);
      }
    }
    if CanHappenQuietly(Cancellation, b, r) {
      QuietlyCan(Cancellation, b, r);
    }
  }

  /** A run can still be approved by the user if and only if it is not approved and awaits confirmation or
      a pending revision read that. */
  lemma ApprovalPossibleIff(b: Behaviour, r: RunId)
    requires IsBehaviour(b) && r in Last(b).rows
    ensures CanHappen(Approval, b, r) <==> !Last(b).rows[r].approved && InReach(Last(b), r, AwaitingConfirmation)
    ensures CanHappenQuietly(Approval, b, r) <==> CanHappen(Approval, b, r)
  {
    if !Last(b).rows[r].approved && InReach(Last(b), r, AwaitingConfirmation) {
      var b1 := Reached(b, r, AwaitingConfirmation);
      var b' := ApprovedFromWait(b1, r);
      QuietlyAgain(b, b1, b');
      assert Happens(Approval, b', |b'.steps| - 1, r);
    } else {
      forall b', j: nat | Extends(b', b) && |b.steps| <= j < |b'.steps|
        ensures !Happens(Approval, b', j, r)
      {
        assert b'.states[|b.steps|] == Last(b);
        if Last(b).rows[r].approved {
          ApprovalPersists(b', |b.steps|, j, r);
        } else {
          BarredInExtension(NoWait, b, b', j, r);
        }
      }
    }
    if CanHappenQuietly(Approval, b, r) {
      QuietlyCan(Approval, b, r);
    }
  }

  /** What a start needs: an approved run the queue, any other run the queue or the wait for confirmation. */
  ghost predicate Startable(s: State, r: RunId) {
    InReach(s, r, Queued) || (r in s.rows && !s.rows[r].approved && InReach(s, r, AwaitingConfirmation))
  }

  lemma StartableStarts(b: Behaviour, r: RunId)
    requires IsBehaviour(b) && r in Last(b).rows && Startable(Last(b), r)
    ensures CanHappenQuietly(Start, b, r)
  {
    var b2;
    if InReach(Last(b), r, Queued) {
      var b1 := Reached(b, r, Queued);
      if Last(b1).rows[r].approved {
        b2 := b1;
      } else {
        b2 := PlannedInQueue(b1, r);
        QuietlyAgain(b, b1, b2);
      }
    } else {
      var b1 := Reached(b, r, AwaitingConfirmation);
      b2 := ApprovedFromWait(b1, r);
      QuietlyAgain(b, b1, b2);
    }
    StartsFromQueue(b2, r);
    QuietlyLater(Start, b, b2, r);
  }

  /** A run can still be started if and only if it is so startable. */
  lemma StartPossibleIff(b: Behaviour, r: RunId)
    requires IsBehaviour(b) && r in Last(b).rows
    ensures CanHappen(Start, b, r) <==> Startable(Last(b), r)
    ensures CanHappenQuietly(Start, b, r) <==> Startable(Last(b), r)
  {
    if Startable(Last(b), r) {
      StartableStarts(b, r);
    } else {
      forall b', j: nat | Extends(b', b) && |b.steps| <= j < |b'.steps|
        ensures !Happens(Start, b', j, r)
      {
        BarredInExtension(if Last(b).rows[r].approved then NoQueue else NoApproval, b, b', j, r);
      }
    }
    if CanHappenQuietly(Start, b, r) {
      QuietlyCan(Start, b, r);
    }
  }

  /** Single start, exactly: a run that has started can be started again if and only if it is queued once
      more or a revision that read it queued has yet to end. */
  lemma RestartPossibleIff(b: Behaviour, i: nat, r: RunId)
    requires IsBehaviour(b) && StartsAt(b, i, r)
    ensures r in Last(b).rows
    ensures CanHappen(Start, b, r) <==> InReach(Last(b), r, Queued)
  {
    ApprovedAndPlannedBeforeStart(b, i + 1, r);
    ApprovalPersists(b, i + 1, |b.steps|, r);
    StartPossibleIff(b, r);
  }

  // ---------------------------------------------------------------- the same for statuses

  lemma StandsLast(b: Behaviour, b': Behaviour, r: RunId, statuses: set<Status>)
    requires ExtendsQuietly(b', b) && r in Last(b').rows && Last(b').rows[r].status in statuses
    ensures CanStandQuietly(b, r, statuses)
  {
    assert StandsAt(b', |b'.steps|, r, statuses);
  }

  lemma QuietlyStands(b: Behaviour, r: RunId, statuses: set<Status>)
    requires IsBehaviour(b) && CanStandQuietly(b, r, statuses)
    ensures CanStand(b, r, statuses)
  {
    var b', j: nat :| ExtendsQuietly(b', b) && |b.steps| <= j && StandsAt(b', j, r, statuses);
    assert Extends(b', b);
  }

  lemma HappensQuietlyStands(e: Event, b: Behaviour, r: RunId, statuses: set<Status>)
    requires IsBehaviour(b) && CanHappenQuietly(e, b, r)
    requires (match e case Start => Running case Approval => Queued case Cancellation => Cancelled) in statuses
    ensures CanStandQuietly(b, r, statuses)
  {
    var b', j: nat :| ExtendsQuietly(b', b) && |b.steps| <= j && Happens(e, b', j, r);
    assert StandsAt(b', j + 1, r, statuses);
  }

  ghost predicate Cancellable(s: State, r: RunId) {
    InReach(s, r, AwaitingConfirmation) || InReach(s, r, Cancelled)
  }

  /** A run can come to stand cancelled, by a cancellation or by a write-back, if and only if it awaits
      confirmation or is cancelled, or a pending revision read one of these. */
  lemma CancelledPossibleIff(b: Behaviour, r: RunId)
    requires IsBehaviour(b) && r in Last(b).rows
    ensures CanStand(b, r, {Cancelled}) <==> Cancellable(Last(b), r)
    ensures CanStandQuietly(b, r, {Cancelled}) <==> Cancellable(Last(b), r)
  {
    if InReach(Last(b), r, Cancelled) {
      var b' := Reached(b, r, Cancelled);
      StandsLast(b, b', r, {Cancelled});
    } else if InReach(Last(b), r, AwaitingConfirmation) {
      CancellationPossibleIff(b, r);
      HappensQuietlyStands(Cancellation, b, r, {Cancelled});
    } else {
      forall b', j: nat | Extends(b', b) && |b.steps| <= j && j < |b'.states|
        ensures !StandsAt(b', j, r, {Cancelled})
      {
        BarredInExtension(NoCancel, b, b', j, r);
      }
    }
    if CanStandQuietly(b, r, {Cancelled}) {
      QuietlyStands(b, r, {Cancelled});
    }
  }

  /** A client inside a call that need not change the row. */
  lemma WritesAnyhow(b: Behaviour, c: ClientId) returns (b': Behaviour)
    requires IsBehaviour(b) && c in Last(b).clients && Last(b).clients[c].InCall?
    requires Last(b).clients[c].run in Last(b).rows
    ensures ExtendsQuietly(b', b) && Last(b).clients[c].run in Last(b').rows
    ensures var l, rows := Last(b).clients[c], Last(b).rows;
            var after := Sql(l.op, l.existing, rows[l.run], 0);
            && Last(b').rows == (if after.Some? then rows[l.run := after.value] else rows)
            && Last(b').clients == Proceed(Last(b).clients, c, l.run, After(l.pc, l.op, after.Some?))
  {
    var s := Last(b);
    var l := s.clients[c];
    var after := Sql(l.op, l.existing, s.rows[l.run], 0);
    var s' := State(if after.Some? then s.rows[l.run := after.value] else s.rows,
                    Proceed(s.clients, c, l.run, After(l.pc, l.op, after.Some?)));
    b' := Then(b, Write(c, 0), s');
    ThenIsBehaviour(b, Write(c, 0), s');
  }

  const COMPLETE := SetStatus(Completed, Some("completed"), Some("done"), None, None)

  /** Whoever executes a run can complete it, whatever its status has become. */
  lemma Completes(b: Behaviour, c: ClientId, r: RunId)
    requires IsBehaviour(b) && r in Last(b).rows && Executor(Last(b), c, r)
    ensures CanStandQuietly(b, r, {Completed})
  {
    var l := Last(b).clients[c];
    var b1 := b;
    if l.InCall? {
      InvAlways(b, |b.steps|);
      assert LocalOk(l, Last(b).rows);
      b1 := WritesAnyhow(b, c);
    }
    if l.InCall? && l.op.SetStatus? && Terminal(l.op.status) {
      StandsLast(b, b1, r, {Completed});
    } else {
      var b2 := CallsAndWrites(b1, c, r, Executing, COMPLETE);
      QuietlyAgain(b, b1, b2);
      StandsLast(b, b2, r, {Completed});
    }
  }

  const EXECUTION: set<Status> := {Running, WaitingTool, Completed}

  /** What standing in execution needs: a start, a pending revision that read such a status, or a client that
      is still executing the run. */
  ghost predicate Executable(s: State, r: RunId) {
    || Startable(s, r)
    || (exists status :: status in EXECUTION && InReach(s, r, status))
    || (exists c :: Executor(s, c, r))
  }

  lemma ExecutableStands(b: Behaviour, r: RunId)
    requires IsBehaviour(b) && r in Last(b).rows && Executable(Last(b), r)
    ensures CanStandQuietly(b, r, EXECUTION)
  {
    if Startable(Last(b), r) {
      StartPossibleIff(b, r);
      HappensQuietlyStands(Start, b, r, EXECUTION);
    } else if status :| status in EXECUTION && InReach(Last(b), r, status) {
      var b' := Reached(b, r, status);
      StandsLast(b, b', r, EXECUTION);
    } else {
      var c :| Executor(Last(b), c, r);
      Completes(b, c, r);
      var b', j: nat :| ExtendsQuietly(b', b) && |b.steps| <= j && StandsAt(b', j, r, {Completed});
      assert StandsAt(b', j, r, EXECUTION);
    }
  }

  lemma NotExecutable(b: Behaviour, b': Behaviour, j: nat, r: RunId)
    requires IsBehaviour(b) && r in Last(b).rows && !Executable(Last(b), r)
    requires Extends(b', b) && |b.steps| <= j < |b'.states|
    ensures !StandsAt(b', j, r, EXECUTION)
  {
    if Last(b).rows[r].approved {
      forall c, status | status in Excluded(NoWork) ensures !Holds(Last(b), c, r, status) {
        assert status in EXECUTION ==> !InReach(Last(b), r, status);
      }
      assert !InReach(Last(b), r, Last(b).rows[r].status) || Last(b).rows[r].status !in EXECUTION;
      BarredInExtension(NoWork, b, b', j, r);
    } else {
      BarredInExtension(NoApproval, b, b', j, r);
      InvAlways(b', j);
    }
  }

  /** A run, cancelled before or not, approved or not, can come to stand running, waiting for a tool or
      completed if and only if it is so executable. */
  lemma ExecutionPossibleIff(b: Behaviour, r: RunId)
    requires IsBehaviour(b) && r in Last(b).rows
    ensures CanStand(b, r, EXECUTION) <==> Executable(Last(b), r)
    ensures CanStandQuietly(b, r, EXECUTION) <==> Executable(Last(b), r)
  {
    if Executable(Last(b), r) {
      ExecutableStands(b, r);
    } else {
      forall b', j: nat | Extends(b', b) && |b.steps| <= j && j < |b'.states|
        ensures !StandsAt(b', j, r, EXECUTION)
      {
        NotExecutable(b, b', j, r);
      }
    }
    if CanStandQuietly(b, r, EXECUTION) {
      QuietlyStands(b, r, EXECUTION);
    }
  }

  /** The row of `b.steps[i]`'s run is still there at the end, and approved if it was. */
  lemma StillThere(b: Behaviour, i: nat, r: RunId)
    requires IsBehaviour(b) && i < |b.states| && r in b.states[i].rows
    ensures r in Last(b).rows && (b.states[i].rows[r].approved ==> Last(b).rows[r].approved)
  {
    ApprovalPersists(b, i, |b.steps|, r);
  }

  /** After a cancellation, exactly: the run can be approved if and only if it never was and waits once more
      or a pending revision read it waiting, and executed if and only if it is executable. */
  lemma RevivalPossibleIff(b: Behaviour, i: nat, r: RunId)
    requires IsBehaviour(b) && CancelsAt(b, i, r)
    ensures r in Last(b).rows
    ensures CanHappen(Approval, b, r) <==> !Last(b).rows[r].approved && InReach(Last(b), r, AwaitingConfirmation)
    ensures CanStand(b, r, EXECUTION) <==> Executable(Last(b), r)
  {
    StillThere(b, i, r);
    ApprovalPossibleIff(b, r);
    ExecutionPossibleIff(b, r);
  }

  /** After an approval or a start, exactly: the run can come to stand cancelled if and only if it waits once
      more or is cancelled, or a pending revision read one of these; by a cancellation only for the first. */
  lemma CancelAfterApprovalPossibleIff(b: Behaviour, i: nat, r: RunId)
    requires IsBehaviour(b) && (ApprovesAt(b, i, r) || StartsAt(b, i, r))
    ensures r in Last(b).rows && Last(b).rows[r].approved
    ensures CanHappen(Cancellation, b, r) <==> InReach(Last(b), r, AwaitingConfirmation)
    ensures CanStand(b, r, {Cancelled}) <==> Cancellable(Last(b), r)
  {
    ApprovedAndPlannedBeforeStart(b, i, r);
    StillThere(b, if StartsAt(b, i, r) then i else i + 1, r);
    CancellationPossibleIff(b, r);
    CancelledPossibleIff(b, r);
  }
}
