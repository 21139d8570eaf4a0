/** One client of `RunProtocol` alone with the table: what connects the code of a use case, which runs its
    statements in order, to the steps the protocol interleaves. */
module RunClient {
  import opened Wrappers
  import opened RunRepository
  import opened RunProtocol

  ghost predicate Reaches(s: State, steps: seq<Step>, s': State)
    decreases |steps|
  {
    if steps == [] then s == s'
    else exists mid :: Next(s, steps[0], mid) && Reaches(mid, steps[1..], s')
  }

  /** The table with client 0 standing at `pos`, or gone. */
  ghost function Solo(rows: map<RunId, Run>, id: RunId, pos: Option<Pc>): State {
    State(rows, Proceed(map[], 0, id, pos))
  }

  ghost predicate Covered(rows: map<RunId, Run>, rows': map<RunId, Run>) {
    exists steps :: Reaches(State(rows, map[]), steps, State(rows', map[]))
  }

  lemma {:induction false} ReachesNext(s: State, steps: seq<Step>, mid: State, step: Step, s': State)
    requires Reaches(s, steps, mid) && Next(mid, step, s')
    ensures Reaches(s, steps + [step], s')
    decreases |steps|
  {
    if steps == [] {
      assert Reaches(s', [], s');
      assert ([step])[1..] == [];
      assert steps + [step] == [step];
    } else {
      var m :| Next(s, steps[0], m) && Reaches(m, steps[1..], mid);
      ReachesNext(m, steps[1..], mid, step, s');
      assert (steps + [step])[1..] == steps[1..] + [step];
    }
  }

  lemma Enters(s0: State, steps: seq<Step>, rows: map<RunId, Run>, id: RunId, pc: Pc) returns (more: seq<Step>)
    requires Reaches(s0, steps, Solo(rows, id, None))
    requires id in rows && MayEnter(pc, rows[id])
    ensures Reaches(s0, more, Solo(rows, id, Some(pc)))
  {
    more := steps + [Enter(0, id, pc)];
    ReachesNext(s0, steps, Solo(rows, id, None), Enter(0, id, pc), Solo(rows, id, Some(pc)));
  }

  predicate Changes(rows: map<RunId, Run>, id: RunId, op: Op)
    requires id in rows
  {
    Attempts(op, rows[id]) && Sql(op, rows[id], rows[id], 0).Some?
  }

  ghost function InsideCall(rows: map<RunId, Run>, id: RunId, pc: Pc, op: Op): State
    requires id in rows
  {
    State(rows, map[0 := InCall(id, pc, rows[id], op)])
  }

  lemma CallSteps(rows: map<RunId, Run>, id: RunId, pc: Pc, op: Op, now: nat)
    requires id in rows && MayCall(pc, op)
    ensures var s' := Solo(Perform(rows, id, op, now), id, After(pc, op, Changes(rows, id, op)));
            if Attempts(op, rows[id]) then
              && Next(Solo(rows, id, Some(pc)), Call(0, op), InsideCall(rows, id, pc, op))
              && Next(InsideCall(rows, id, pc, op), Write(0, now), s')
            else Next(Solo(rows, id, Some(pc)), Call(0, op), s')
  {
    var s := Solo(rows, id, Some(pc));
    var mid := InsideCall(rows, id, pc, op);
    assert s.clients == map[0 := At(id, pc)] && s.clients - {0} == map[];
    assert mid.clients - {0} == map[];
    assert s.clients[0 := InCall(id, pc, rows[id], op)] == mid.clients;
    var next := After(pc, op, Changes(rows, id, op));
    assert Proceed(s.clients, 0, id, next) == Proceed(map[], 0, id, next) == Proceed(mid.clients, 0, id, next);
  }

  lemma Calls(s0: State, steps: seq<Step>, rows: map<RunId, Run>, id: RunId, pc: Pc, op: Op, now: nat)
    returns (more: seq<Step>)
    requires Reaches(s0, steps, Solo(rows, id, Some(pc)))
    requires id in rows && MayCall(pc, op)
    ensures Reaches(s0, more, Solo(Perform(rows, id, op, now), id, After(pc, op, Changes(rows, id, op))))
  {
    var s := Solo(rows, id, Some(pc));
    var s' := Solo(Perform(rows, id, op, now), id, After(pc, op, Changes(rows, id, op)));
    CallSteps(rows, id, pc, op, now);
    more := steps + [Call(0, op)];
    if Attempts(op, rows[id]) {
      var mid := InsideCall(rows, id, pc, op);
      ReachesNext(s0, steps, s, Call(0, op), mid);
      ReachesNext(s0, more, mid, Write(0, now), s');
      more := more + [Write(0, now)];
    } else {
      ReachesNext(s0, steps, s, Call(0, op), s');
    }
  }

  lemma Leaves(s0: State, steps: seq<Step>, rows: map<RunId, Run>, id: RunId, pos: Option<Pc>)
    requires Reaches(s0, steps, Solo(rows, id, pos)) && s0.clients == map[]
    ensures Covered(s0.rows, rows)
  {
    var last := Solo(rows, id, pos);
    assert State(rows, map[]) == Solo(rows, id, None);
    if pos.Some? {
      assert last.clients - {0} == map[];
      ReachesNext(s0, steps, last, Leave(0), State(rows, map[]));
    }
    assert s0 == State(s0.rows, map[]);
  }

  lemma Stays(rows: map<RunId, Run>, id: RunId) returns (steps: seq<Step>)
    ensures Reaches(State(rows, map[]), steps, Solo(rows, id, None)) && Covered(rows, rows)
  {
    steps := [];
    assert Solo(rows, id, None) == State(rows, map[]);
    assert Reaches(State(rows, map[]), [], State(rows, map[]));
  }

  lemma {:induction false} ReachesTrans(s: State, first: seq<Step>, mid: State, second: seq<Step>, s': State)
    requires Reaches(s, first, mid) && Reaches(mid, second, s')
    ensures Reaches(s, first + second, s')
    decreases |second|
  {
    if second == [] {
      assert first + second == first;
    } else {
      var m :| Next(mid, second[0], m) && Reaches(m, second[1..], s');
      ReachesNext(s, first, mid, second[0], m);
      ReachesTrans(s, first + [second[0]], m, second[1..], s');
      assert first + [second[0]] + second[1..] == first + second;
    }
  }

  /** The second read of a revision the chat handler let through. */
  lemma Rereads(s0: State, steps: seq<Step>, rows: map<RunId, Run>, id: RunId) returns (more: seq<Step>)
    requires Reaches(s0, steps, Solo(rows, id, Some(ReviseReady))) && id in rows
    ensures Reaches(s0, more, Solo(rows, id, Some(ReviseRead(rows[id]))))
  {
    var s, s' := Solo(rows, id, Some(ReviseReady)), Solo(rows, id, Some(ReviseRead(rows[id])));
    assert s'.clients == s.clients[0 := At(id, ReviseRead(rows[id]))];
    more := steps + [Reread(0)];
    ReachesNext(s0, steps, s, Reread(0), s');
  }

  /** A client executing the run takes the table from `rows` to `rows'` and goes on executing. */
  ghost predicate Executed(rows: map<RunId, Run>, rows': map<RunId, Run>, id: RunId) {
    exists steps :: Reaches(Solo(rows, id, Some(Executing)), steps, Solo(rows', id, Some(Executing)))
  }

  lemma ExecutesCall(rows: map<RunId, Run>, id: RunId, op: Op, now: nat)
    requires id in rows && MayCall(Executing, op) && !(op.SetStatus? && Terminal(op.status))
    ensures Executed(rows, Perform(rows, id, op, now), id)
  {
    var s := Solo(rows, id, Some(Executing));
    assert Reaches(s, [], s);
    var steps := Calls(s, [], rows, id, Executing, op, now);
  }

  lemma ExecutedStill(rows: map<RunId, Run>, id: RunId)
    ensures Executed(rows, rows, id)
  {
    var s := Solo(rows, id, Some(Executing));
    assert Reaches(s, [], s);
  }

  lemma ExecutedThen(rows: map<RunId, Run>, mid: map<RunId, Run>, rows': map<RunId, Run>, id: RunId)
    requires Executed(rows, mid, id) && Executed(mid, rows', id)
    ensures Executed(rows, rows', id)
  {
    var s, m, s' := Solo(rows, id, Some(Executing)), Solo(mid, id, Some(Executing)), Solo(rows', id, Some(Executing));
    var first :| Reaches(s, first, m);
    var second :| Reaches(m, second, s');
    ReachesTrans(s, first, m, second, s');
  }

  /** A client at work on a run does not touch any other. */
  ghost predicate OthersKept(rows: map<RunId, Run>, rows': map<RunId, Run>, id: RunId) {
    rows'.Keys == rows.Keys && forall r :: r in rows && r != id ==> rows'[r] == rows[r]
  }
}
