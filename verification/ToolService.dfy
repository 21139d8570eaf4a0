/** Tool calls around a run: the run waits while a blocking tool works, and every call is logged
    (src/mergemate/application/services/tool_service.py). */
module ToolService {
  import opened Wrappers
  import opened RunRepository
  import opened RunProtocol
  import opened RunClient

  const WAITING_TOOL := "waiting_tool"

  datatype Metadata = Metadata(runtimeMode: string, defaultAction: Option<string>, readOnly: bool,
                               blocksRunState: Option<string>)

  /** What `invoke` did: returned a dictionary, perhaps without a status, or raised. */
  datatype Outcome = Returned(status: Option<string>, detail: string) | Raised(detail: string)

  datatype Event = Event(run: RunId, tool: string, action: string, status: string, detail: string)

  function StatusOf(o: Outcome): string {
    match o
    case Returned(status, _) => if status.Some? then status.value else "unknown"
    case Raised(_) => "error"
  }

  predicate HasNoStatus(o: Outcome) {
    o.Returned? && o.status.None?
  }

  function DetailOf(tool: string, o: Outcome): string {
    match o
    case Returned(_, detail) => detail
    case Raised(detail) => "Tool " + tool + " failed: " + detail
  }

  function EnterOp(tool: string): Op {
    SetStatus(WaitingTool, Some("tool:" + tool), None, None, Some(Running))
  }

  function LeaveOp(resumeStage: string): Op {
    SetStatus(Running, Some(resumeStage), None, None, Some(WaitingTool))
  }

  // ---------------------------------------------------------------- under any interleaving

  ghost predicate IsToolOp(op: Op) {
    (exists tool :: op == EnterOp(tool)) || (exists resumeStage :: op == LeaveOp(resumeStage))
  }

  ghost predicate IsToolWrite(s: State, step: Step) {
    step.Write? && step.c in s.clients && s.clients[step.c].InCall? && IsToolOp(s.clients[step.c].op)
  }

  function Transitioned(rows: map<RunId, Run>, id: RunId, tool: string, resumeStage: string, now: nat, later: nat):
    map<RunId, Run>
  {
    Perform(Perform(rows, id, EnterOp(tool), now), id, LeaveOp(resumeStage), later)
  }

  /** The two transitions around a tool are steps of one client that is executing the run. */
  lemma TransitionsAreExecution(rows: map<RunId, Run>, id: RunId, tool: string, resumeStage: string, now: nat,
                                later: nat)
    requires id in rows
    ensures Executed(rows, Transitioned(rows, id, tool, resumeStage, now, later), id)
  {
    var mid := Perform(rows, id, EnterOp(tool), now);
    ExecutesCall(rows, id, EnterOp(tool), now);
    ExecutesCall(mid, id, LeaveOp(resumeStage), later);
    ExecutedThen(rows, mid, Transitioned(rows, id, tool, resumeStage, now, later), id);
  }

  /** Whatever the service read before and whoever wrote since: a finished run keeps its whole row, every
      other run is left alone, and the one written only moves between running and waiting. */
  lemma ToolWritesSpareFinishedRuns(b: Behaviour, k: nat, r: RunId)
    requires IsBehaviour(b) && k < |b.steps| && IsToolWrite(b.states[k], b.steps[k])
    requires r in b.states[k].rows
    ensures r in b.states[k + 1].rows
    ensures var row, row' := b.states[k].rows[r], b.states[k + 1].rows[r];
            && (Terminal(row.status) ==> row' == row)
            && (row' != row ==> (row.status == Running && row'.status == WaitingTool)
                                || (row.status == WaitingTool && row'.status == Running))
  {
    var step := b.steps[k];
    assert Next(b.states[k], step, b.states[k + 1]);
    var op := b.states[k].clients[step.c].op;
    assert op.SetStatus? && op.expected == Some(if op.status == WaitingTool then Running else WaitingTool);
  }

  // ---------------------------------------------------------------- the service

  /** What a pair of transitions around a blocking tool leaves of the run, when nobody else writes. */
  ghost predicate Bracketed(rows: map<RunId, Run>, rows': map<RunId, Run>, id: RunId, resumeStage: string) {
    && OthersKept(rows, rows', id)
    && (id in rows ==>
          if rows[id].status in {Running, WaitingTool}
          then rows'[id].status == Running && (resumeStage != "" ==> rows'[id].stage == resumeStage)
               && Payload(rows'[id]) == Payload(rows[id])
          else rows'[id] == rows[id])
  }

  lemma TransitionsBracket(rows: map<RunId, Run>, id: RunId, tool: string, resumeStage: string, now: nat, later: nat)
    ensures Bracketed(rows, Transitioned(rows, id, tool, resumeStage, now, later), id, resumeStage)
  {
  }

  /** The columns a transition must not touch. */
  function Payload(row: Run): (Origin, string, seq<Option<string>>, nat, bool) {
    (row.origin, row.prompt, [row.plan, row.design, row.test, row.review, row.result, row.error],
     row.iterations, row.approved)
  }

  predicate IsContext(metadata: map<string, Metadata>, tool: string) {
    tool in metadata && metadata[tool].runtimeMode == "context" && metadata[tool].defaultAction.Some?
    && metadata[tool].readOnly
  }

  function ContextTools(metadata: map<string, Metadata>): set<string> {
    set tool | tool in metadata && IsContext(metadata, tool)
  }

  predicate Blocking(metadata: map<string, Metadata>, tool: string) {
    tool in metadata && metadata[tool].blocksRunState == Some(WAITING_TOOL)
  }

  function Kept(tools: seq<string>, keep: set<string>): seq<string> {
    if tools == [] then []
    else Kept(tools[..|tools| - 1], keep) + (if tools[|tools| - 1] in keep then [tools[|tools| - 1]] else [])
  }

  lemma {:induction false} KeptAppends(a: seq<string>, b: seq<string>, keep: set<string>)
    ensures Kept(a + b, keep) == Kept(a, keep) + Kept(b, keep)
    decreases |b|
  {
    if b == [] {
      assert a + b == a;
    } else {
      var init := b[..|b| - 1];
      KeptAppends(a, init, keep);
      assert (a + b)[..|a + b| - 1] == a + init;
    }
  }

  lemma KeptOne(tool: string, keep: set<string>)
    ensures Kept([tool], keep) == if tool in keep then [tool] else []
  {
    assert [tool][..0] == [];
  }

  lemma {:induction false} KeptHolds(tools: seq<string>, keep: set<string>)
    ensures forall t :: t in Kept(tools, keep) <==> t in tools && t in keep
  {
    if tools != [] {
      var last := tools[|tools| - 1];
      KeptHolds(tools[..|tools| - 1], keep);
      assert tools == tools[..|tools| - 1] + [last];
    }
  }

  /** Every call logged twice, in order: started, then its result. */
  ghost predicate LoggedInPairs(metadata: map<string, Metadata>, before: seq<Event>, events: seq<Event>, run: RunId,
                                ran: seq<string>, outcomes: nat -> Outcome)
  {
    && |events| == |before| + 2 * |ran| && before <= events
    && forall i :: 0 <= i < |ran| ==>
         && ran[i] in metadata
         && events[|before| + 2 * i] == Started(metadata, run, ran[i])
         && events[|before| + 2 * i + 1] == Ended(metadata, run, ran[i], outcomes(i))
  }

  function Started(metadata: map<string, Metadata>, run: RunId, tool: string): Event
    requires tool in metadata
  {
    Event(run, tool, OrElse(metadata[tool].defaultAction, "invoke"), "started", "Invoking tool.")
  }

  function Ended(metadata: map<string, Metadata>, run: RunId, tool: string, o: Outcome): Event
    requires tool in metadata
  {
    Event(run, tool, OrElse(metadata[tool].defaultAction, "invoke"), StatusOf(o), DetailOf(tool, o))
  }

  lemma OneMorePair(metadata: map<string, Metadata>, before: seq<Event>, events: seq<Event>, run: RunId,
                    ran: seq<string>, outcomes: nat -> Outcome, tool: string)
    requires LoggedInPairs(metadata, before, events, run, ran, outcomes) && tool in metadata
    ensures LoggedInPairs(metadata, before,
                          events + [Started(metadata, run, tool), Ended(metadata, run, tool, outcomes(|ran|))],
                          run, ran + [tool], outcomes)
  {
  }

  /** The run as the context calls leave it when nobody else writes. */
  ghost predicate Resumed(metadata: map<string, Metadata>, rows: map<RunId, Run>, rows': map<RunId, Run>, id: RunId,
                          ran: seq<string>, resumeStage: string)
  {
    && OthersKept(rows, rows', id)
    && (id in rows && rows[id].status == Running ==>
          && rows'[id].status == Running
          && Payload(rows'[id]) == Payload(rows[id])
          && if exists t :: t in ran && Blocking(metadata, t)
             then resumeStage != "" ==> rows'[id].stage == resumeStage
             else rows'[id] == rows[id])
    && (id in rows && rows[id].status !in {Running, WaitingTool} ==> rows'[id] == rows[id])
  }

  lemma OneMoreCall(metadata: map<string, Metadata>, rows: map<RunId, Run>, mid: map<RunId, Run>,
                    rows': map<RunId, Run>, id: RunId, ran: seq<string>, tool: string, resumeStage: string)
    requires Resumed(metadata, rows, mid, id, ran, resumeStage)
    requires if Blocking(metadata, tool) then Bracketed(mid, rows', id, resumeStage) else rows' == mid
    ensures Resumed(metadata, rows, rows', id, ran + [tool], resumeStage)
  {
    assert forall t :: t in ran + [tool] <==> t in ran || t == tool;
  }

  /** All the context tools ran, or those up to the first whose result had no status. */
  ghost predicate RanUntilRaised(metadata: map<string, Metadata>, enabled: seq<string>, ran: seq<string>,
                                 raised: bool, outcomes: nat -> Outcome)
  {
    var wanted := Kept(enabled, ContextTools(metadata));
    && (forall i :: 0 <= i < |ran| ==> (HasNoStatus(outcomes(i)) <==> raised && i == |ran| - 1))
    && if raised then ran != [] && ran <= wanted else ran == wanted
  }

  lemma KeptNext(tools: seq<string>, k: nat, keep: set<string>)
    requires k < |tools|
    ensures Kept(tools[..k + 1], keep) == Kept(tools[..k], keep) + (if tools[k] in keep then [tools[k]] else [])
  {
    assert tools[..k + 1][..k] == tools[..k];
  }

  class ToolService {
    const repo: Repository
    const agents: map<string, seq<string>>
    const metadata: map<string, Metadata>
    const tools: set<string>
    var events: seq<Event>

    constructor (repo: Repository, agents: map<string, seq<string>>, metadata: map<string, Metadata>,
                 tools: set<string>)
      ensures this.repo == repo && this.agents == agents && this.metadata == metadata && this.tools == tools
      ensures events == []
    {
      this.repo, this.agents, this.metadata, this.tools, events := repo, agents, metadata, tools, [];
    }

    predicate Enabled(agent: string, tool: string) {
      agent in agents && tool in agents[agent] && tool in tools
    }

    method TransitionRunForTool(id: RunId, blocks: bool, tool: string, resumeStage: string, entering: bool,
                                now: nat)
      modifies repo
      ensures repo.rows == if blocks
                           then Perform(old(repo.rows), id,
                                        if entering then EnterOp(tool) else LeaveOp(resumeStage), now)
                           else old(repo.rows)
      ensures blocks && entering && id in old(repo.rows) && old(repo.rows)[id].status == Running ==>
                repo.rows[id].status == WaitingTool && repo.rows[id].stage == "tool:" + tool
      ensures blocks && !entering && id in old(repo.rows) && old(repo.rows)[id].status == WaitingTool ==>
                repo.rows[id].status == Running && (resumeStage != "" ==> repo.rows[id].stage == resumeStage)
    {
      if !blocks {
        return;
      }
      var current := repo.Get(id);
      if current.Some? && Terminal(current.value.status) {
        return;
      }
      if entering {
        var run, transitioned := repo.TryUpdateStatus(id, WaitingTool, Some(Running), Some("tool:" + tool),
                                                      None, None, now);
        return;
      }
      if current.Some? && current.value.status != WaitingTool {
        return;
      }
      var run, transitioned := repo.TryUpdateStatus(id, Running, Some(WaitingTool), Some(resumeStage),
                                                    None, None, now);
    }

    method Record(run: Option<RunId>, tool: string, action: Option<string>, status: string, detail: string)
      modifies this
      ensures events == if run.None? then old(events)
                        else old(events) + [Event(run.value, tool, OrElse(action, "invoke"), status, detail)]
    {
      if run.Some? {
        events := events + [Event(run.value, tool, OrElse(action, "invoke"), status, detail)];
      }
    }

    /** `outcome` is what the tool's `invoke` will do, `now` and `later` the clock before and after it. */
    method ExecuteEnabledTool(agent: string, tool: string, action: Option<string>, run: Option<RunId>,
                              resumeStage: string, outcome: Outcome, now: nat, later: nat)
      returns (status: Option<string>, detail: string)
      modifies this, repo
      ensures Enabled(agent, tool) ==>
                match outcome
                case Returned(given, text) => status == given && detail == text
                case Raised(text) => status == Some("error") && detail == "Tool " + tool + " failed: " + text
      ensures !Enabled(agent, tool) ==> status == Some("blocked") && repo.rows == old(repo.rows)
      ensures run.None? ==> repo.rows == old(repo.rows) && events == old(events)
      ensures run.Some? ==>
                var act := OrElse(action, "invoke");
                if Enabled(agent, tool)
                then events == old(events) + [Event(run.value, tool, act, "started", "Invoking tool."),
                                              Event(run.value, tool, act,
                                                    if status.Some? then status.value else "unknown", detail)]
                else events == old(events) + [Event(run.value, tool, act, "blocked", detail)]
      ensures Enabled(agent, tool) && run.Some? ==>
                if tool in metadata && metadata[tool].blocksRunState == Some("waiting_tool")
                then Bracketed(old(repo.rows), repo.rows, run.value, resumeStage)
                else repo.rows == old(repo.rows)
      ensures run.Some? && run.value in old(repo.rows) ==> Executed(old(repo.rows), repo.rows, run.value)
    {
      if run.Some? && run.value in repo.rows {
        ExecutedStill(repo.rows, run.value);
        TransitionsAreExecution(repo.rows, run.value, tool, resumeStage, now, later);
      }
      var configured := if agent in agents then agents[agent] else [];
      if tool !in configured {
        status, detail := Some("blocked"), "Tool " + tool + " is not enabled for agent " + agent + ".";
        Record(run, tool, action, "blocked", detail);
        return;
      }
      if tool !in tools {
        status, detail := Some("blocked"), "Tool " + tool + " is not available.";
        Record(run, tool, action, "blocked", detail);
        return;
      }
      status, detail := InvokeTool(tool, action, run, resumeStage, outcome, now, later);
      if run.Some? {
        TransitionsBracket(old(repo.rows), run.value, tool, resumeStage, now, later);
      }
    }

    /** The call itself, between its two transitions. */
    method InvokeTool(tool: string, action: Option<string>, run: Option<RunId>, resumeStage: string,
                      outcome: Outcome, now: nat, later: nat)
      returns (status: Option<string>, detail: string)
      modifies this, repo
      ensures detail == DetailOf(tool, outcome)
      ensures status == if outcome.Raised? then Some("error") else outcome.status
      ensures repo.rows == if run.Some? && Blocking(metadata, tool)
                           then Transitioned(old(repo.rows), run.value, tool, resumeStage, now, later)
                           else old(repo.rows)
      ensures var act := OrElse(action, "invoke");
              events == if run.None? then old(events)
                        else old(events) + [Event(run.value, tool, act, "started", "Invoking tool."),
                                            Event(run.value, tool, act, StatusOf(outcome), detail)]
    {
      var blocks := run.Some? && Blocking(metadata, tool);
      if run.Some? {
        TransitionRunForTool(run.value, blocks, tool, resumeStage, true, now);
      }
      Record(run, tool, action, "started", "Invoking tool.");
      status := if outcome.Raised? then Some("error") else outcome.status;
      detail := DetailOf(tool, outcome);
      Record(run, tool, action, StatusOf(outcome), detail);
      if run.Some? {
        TransitionRunForTool(run.value, blocks, tool, resumeStage, false, later);
      }
    }

    method ListEnabledTools(agent: string) returns (enabled: seq<string>)
      ensures enabled == if agent in agents then Kept(agents[agent], tools) else []
      ensures forall t :: t in enabled <==> Enabled(agent, t)
    {
      enabled := [];
      if agent in agents {
        var all := agents[agent];
        for k := 0 to |all|
          invariant enabled == Kept(all[..k], tools)
        {
          KeptNext(all, k, tools);
          if all[k] in tools {
            enabled := enabled + [all[k]];
          }
        }
        assert all[..|all|] == all;
        KeptHolds(all, tools);
      }
    }

    /** The n-th context call, after the calls `ran`. */
    method CallContextTool(id: RunId, agent: string, tool: string, resumeStage: string, outcomes: nat -> Outcome,
                           clock: nat -> nat, n: nat, ghost ran: seq<string>, ghost before: seq<Event>,
                           ghost rows: map<RunId, Run>)
      returns (raised: bool)
      requires Enabled(agent, tool) && IsContext(metadata, tool) && n == |ran|
      requires LoggedInPairs(metadata, before, events, id, ran, outcomes)
      requires Resumed(metadata, rows, repo.rows, id, ran, resumeStage)
      requires id in rows ==> Executed(rows, repo.rows, id)
      modifies this, repo
      ensures LoggedInPairs(metadata, before, events, id, ran + [tool], outcomes)
      ensures Resumed(metadata, rows, repo.rows, id, ran + [tool], resumeStage)
      ensures id in rows ==> Executed(rows, repo.rows, id)
      ensures raised <==> HasNoStatus(outcomes(n))
    {
      OneMorePair(metadata, before, events, id, ran, outcomes, tool);
      ghost var mid := repo.rows;
      var status, detail := ExecuteEnabledTool(agent, tool, metadata[tool].defaultAction, Some(id),
                                               resumeStage, outcomes(n), clock(2 * n), clock(2 * n + 1));
      OneMoreCall(metadata, rows, mid, repo.rows, id, ran, tool, resumeStage);
      if id in rows {
        ExecutedThen(rows, mid, repo.rows, id);
      }
      raised := status.None?;
    }

    /** Runs the enabled context tools in order. `outcomes(i)` is what the i-th one does; a dictionary
        without a status makes the caller raise right after that tool's own transitions and events. */
    method BuildRuntimeToolContext(id: RunId, agent: string, resumeStage: string, outcomes: nat -> Outcome,
                                   clock: nat -> nat)
      returns (ran: seq<string>, raised: bool)
      modifies this, repo
      ensures var enabled := if agent in agents then Kept(agents[agent], tools) else [];
              RanUntilRaised(metadata, enabled, ran, raised, outcomes)
      ensures forall t :: t in ran ==>
                && agent in agents && t in agents[agent] && t in tools && t in metadata
                && metadata[t].runtimeMode == "context" && metadata[t].defaultAction.Some? && metadata[t].readOnly
      ensures !raised && agent in agents ==>
                forall t :: (t in agents[agent] && t in tools && t in metadata && metadata[t].runtimeMode == "context"
                             && metadata[t].defaultAction.Some? && metadata[t].readOnly) ==> t in ran
      ensures LoggedInPairs(metadata, old(events), events, id, ran, outcomes)
      ensures Resumed(metadata, old(repo.rows), repo.rows, id, ran, resumeStage)
      ensures id in old(repo.rows) ==> Executed(old(repo.rows), repo.rows, id)
    {
      var enabled := ListEnabledTools(agent);
      ran, raised := RunContextTools(id, agent, enabled, resumeStage, outcomes, clock);
      RanAreContext(metadata, enabled, ran, raised, outcomes);
    }

    method RunContextTools(id: RunId, agent: string, enabled: seq<string>, resumeStage: string,
                           outcomes: nat -> Outcome, clock: nat -> nat)
      returns (ran: seq<string>, raised: bool)
      requires forall t :: t in enabled ==> Enabled(agent, t)
      modifies this, repo
      ensures RanUntilRaised(metadata, enabled, ran, raised, outcomes)
      ensures LoggedInPairs(metadata, old(events), events, id, ran, outcomes)
      ensures Resumed(metadata, old(repo.rows), repo.rows, id, ran, resumeStage)
      ensures id in old(repo.rows) ==> Executed(old(repo.rows), repo.rows, id)
    {
      ran, raised := [], false;
      ExecutedStill(repo.rows, id);
      var k := 0;
      while k < |enabled| && !raised
        invariant 0 <= k <= |enabled| && RanUntilRaised(metadata, enabled[..k], ran, raised, outcomes)
        invariant LoggedInPairs(metadata, old(events), events, id, ran, outcomes)
        invariant Resumed(metadata, old(repo.rows), repo.rows, id, ran, resumeStage)
        invariant id in old(repo.rows) ==> Executed(old(repo.rows), repo.rows, id)
      {
        ran, raised := RunNextTool(id, agent, enabled[k], resumeStage, outcomes, clock, ran,
                                   old(events), old(repo.rows));
        RanOneMore(metadata, enabled, k, raised, outcomes);
        k := k + 1;
      }
      RanPrefix(metadata, enabled, k, ran, raised, outcomes);
    }

    /** One turn of the loop: a tool that gives no context is passed over. */
    method RunNextTool(id: RunId, agent: string, tool: string, resumeStage: string, outcomes: nat -> Outcome,
                       clock: nat -> nat, ran: seq<string>, ghost before: seq<Event>, ghost rows: map<RunId, Run>)
      returns (ran': seq<string>, raised: bool)
      requires Enabled(agent, tool)
      requires LoggedInPairs(metadata, before, events, id, ran, outcomes)
      requires Resumed(metadata, rows, repo.rows, id, ran, resumeStage)
      requires id in rows ==> Executed(rows, repo.rows, id)
      modifies this, repo
      ensures ran' == ran + if IsContext(metadata, tool) then [tool] else []
      ensures raised <==> IsContext(metadata, tool) && HasNoStatus(outcomes(|ran|))
      ensures LoggedInPairs(metadata, before, events, id, ran', outcomes)
      ensures Resumed(metadata, rows, repo.rows, id, ran', resumeStage)
      ensures id in rows ==> Executed(rows, repo.rows, id)
    {
      ran', raised := ran, false;
      if IsContext(metadata, tool) {
        raised := CallContextTool(id, agent, tool, resumeStage, outcomes, clock, |ran|, ran, before, rows);
        ran' := ran + [tool];
      }
    }
  }

  lemma RanAreContext(metadata: map<string, Metadata>, enabled: seq<string>, ran: seq<string>, raised: bool,
                      outcomes: nat -> Outcome)
    requires RanUntilRaised(metadata, enabled, ran, raised, outcomes)
    ensures forall t :: t in ran ==> t in enabled && IsContext(metadata, t)
    ensures !raised ==> forall t :: t in enabled && IsContext(metadata, t) ==> t in ran
  {
    var wanted := Kept(enabled, ContextTools(metadata));
    KeptHolds(enabled, ContextTools(metadata));
    forall t | t in ran ensures t in wanted {
      var i :| 0 <= i < |ran| && ran[i] == t;
      assert wanted[i] == t;
    }
  }

  lemma RanOneMore(metadata: map<string, Metadata>, enabled: seq<string>, k: nat, raised: bool,
                   outcomes: nat -> Outcome)
    requires k < |enabled|
    ensures var ran := Kept(enabled[..k], ContextTools(metadata));
            var ran' := ran + if IsContext(metadata, enabled[k]) then [enabled[k]] else [];
            RanUntilRaised(metadata, enabled[..k], ran, false, outcomes)
            && (raised <==> IsContext(metadata, enabled[k]) && HasNoStatus(outcomes(|ran|)))
            ==> RanUntilRaised(metadata, enabled[..k + 1], ran', raised, outcomes)
  {
    KeptNext(enabled, k, ContextTools(metadata));
  }

  lemma RanPrefix(metadata: map<string, Metadata>, enabled: seq<string>, k: nat, ran: seq<string>, raised: bool,
                  outcomes: nat -> Outcome)
    requires k <= |enabled| && RanUntilRaised(metadata, enabled[..k], ran, raised, outcomes)
    requires raised || k == |enabled|
    ensures RanUntilRaised(metadata, enabled, ran, raised, outcomes)
  {
    KeptPrefix(enabled, k, ContextTools(metadata));
    assert k == |enabled| ==> enabled[..k] == enabled;
  }

  lemma {:induction false} KeptPrefix(tools: seq<string>, k: nat, keep: set<string>)
    requires k <= |tools|
    ensures Kept(tools[..k], keep) <= Kept(tools, keep)
    decreases |tools|
  {
    if k < |tools| {
      KeptPrefix(tools[..|tools| - 1], k, keep);
      assert tools[..|tools| - 1][..k] == tools[..k];
    } else {
      assert tools[..k] == tools;
    }
  }
}
