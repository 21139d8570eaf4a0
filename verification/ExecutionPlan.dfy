/** The multi-stage execution loop with its review gate and replanning
    (src/mergemate/application/execution_plan.py), and the built-in stage handlers that pass artifacts
    from stage to stage (src/mergemate/domain/workflows/handlers.py). */
module ExecutionPlan {
  import opened Wrappers

  datatype Stage = Stage(handler: string, checksBefore: bool, checksAfter: bool)

  /** The artifacts dict: the `_iteration` entry and the text entries. */
  datatype Artifacts = Artifacts(iteration: nat, texts: map<string, string>)

  function Text(a: Artifacts, key: string): string {
    if key in a.texts then a.texts[key] else ""
  }

  const REPLANNING := "replanning"

  function Core(stages: seq<Stage>): seq<Stage> {
    if stages == [] then []
    else if stages[0].handler == REPLANNING then Core(stages[1..])
    else [stages[0]] + Core(stages[1..])
  }

  lemma {:induction false} CoreWithin(stages: seq<Stage>, i: nat)
    requires i < |Core(stages)|
    ensures Core(stages)[i] in stages && Core(stages)[i].handler != REPLANNING
  {
    if stages[0].handler == REPLANNING {
      CoreWithin(stages[1..], i);
    } else if i > 0 {
      CoreWithin(stages[1..], i - 1);
    }
  }

  lemma CoreIsWithin(stages: seq<Stage>)
    ensures forall s :: s in Core(stages) ==> s in stages
  {
    forall s | s in Core(stages) ensures s in stages {
      var i :| 0 <= i < |Core(stages)| && Core(stages)[i] == s;
      CoreWithin(stages, i);
    }
  }

  /** At most one stage: the first one handled by "replanning". */
  function Replan(stages: seq<Stage>): (replan: seq<Stage>)
    ensures |replan| <= 1
    ensures replan != [] ==> replan[0] in stages && replan[0].handler == REPLANNING
  {
    if stages == [] then [] else if stages[0].handler == REPLANNING then [stages[0]] else Replan(stages[1..])
  }

  /** The core stages are all the others, in order; the replanning is the first of its kind. */
  lemma {:induction false} SeparateAppends(a: seq<Stage>, b: seq<Stage>)
    ensures Core(a + b) == Core(a) + Core(b)
    ensures Replan(a + b) == if Replan(a) != [] then Replan(a) else Replan(b)
  {
    if a == [] {
      assert a + b == b;
    } else {
      SeparateAppends(a[1..], b);
      SeparateFirst(a, b);
    }
  }

  lemma SeparateFirst(a: seq<Stage>, b: seq<Stage>)
    requires a != []
    requires Core(a[1..] + b) == Core(a[1..]) + Core(b)
    requires Replan(a[1..] + b) == if Replan(a[1..]) != [] then Replan(a[1..]) else Replan(b)
    ensures Core(a + b) == Core(a) + Core(b)
    ensures Replan(a + b) == if Replan(a) != [] then Replan(a) else Replan(b)
  {
    assert (a + b)[0] == a[0] && (a + b)[1..] == a[1..] + b;
    if a[0].handler != REPLANNING {
      assert Core(a + b) == [a[0]] + Core(a[1..] + b);
      assert Core(a) == [a[0]] + Core(a[1..]);
    }
  }

  lemma SeparateOne(s: Stage)
    ensures Core([s]) == if s.handler == "replanning" then [] else [s]
    ensures Replan([s]) == if s.handler == "replanning" then [s] else []
  {
    assert [s][1..] == [];
  }

  /** A letter of the trace: the handler called, in which iteration. */
  type Letter = (string, nat)

  function Letters(stages: seq<Stage>, iteration: nat): seq<Letter> {
    seq(|stages|, i requires 0 <= i < |stages| => (stages[i].handler, iteration))
  }

  /** The stages of an iteration, and the replanning between iterations if there is one. */
  datatype Pipeline = Pipeline(core: seq<Stage>, replan: seq<Stage>)

  function Separate(stages: seq<Stage>): Pipeline {
    Pipeline(Core(stages), Replan(stages))
  }

  /** (core . replan)^(k-1): what has run when iteration `k` begins. */
  function Before(p: Pipeline, k: nat): seq<Letter> {
    if k <= 1 then [] else Before(p, k - 1) + Letters(p.core, k - 1) + Letters(p.replan, k - 1)
  }

  /** core . (replan . core)^(k-1), each letter marked with its iteration. */
  function Word(p: Pipeline, k: nat): seq<Letter> {
    Before(p, k) + Letters(p.core, k)
  }

  datatype Outcome =
    | Completed
    | WasCancelled
    | NoHandler       // StageExecutionError
    | HandlerRaised

  /** Handlers thread the artifacts: call `m` gets what call `m-1` left, with its iteration filled in. */
  ghost predicate Threaded(trace: seq<Letter>, arts: seq<Artifacts>,
                           handle: (string, Artifacts, nat) -> Option<Artifacts>)
  {
    && |arts| == |trace| + 1
    && forall m :: 0 <= m < |trace| ==> StepOf(trace, arts, handle, m)
  }

  predicate StepOf(trace: seq<Letter>, arts: seq<Artifacts>, handle: (string, Artifacts, nat) -> Option<Artifacts>,
                   m: nat)
    requires m < |trace| && |arts| == |trace| + 1
  {
    handle(trace[m].0, arts[m].(iteration := trace[m].1), m) == Some(arts[m + 1])
  }

  function ReviewText(p: Pipeline, arts: seq<Artifacts>, k: nat): string {
    if |Word(p, k)| < |arts| then Text(arts[|Word(p, k)|], "review_text") else ""
  }

  /** The gate of iteration `j` sent the run into another iteration. */
  predicate SentBack(p: Pipeline, arts: seq<Artifacts>, concerns: string -> bool, j: nat) {
    concerns(ReviewText(p, arts, j))
  }

  lemma ThreadedMore(trace: seq<Letter>, arts: seq<Artifacts>, handle: (string, Artifacts, nat) -> Option<Artifacts>,
                     letter: Letter, a: Artifacts)
    requires Threaded(trace, arts, handle)
    requires handle(letter.0, arts[|trace|].(iteration := letter.1), |trace|) == Some(a)
    ensures Threaded(trace + [letter], arts + [a], handle)
  {
    var t, r := trace + [letter], arts + [a];
    forall m | 0 <= m < |t| ensures StepOf(t, r, handle, m) {
      if m < |trace| {
        assert StepOf(trace, arts, handle, m);
      }
    }
  }

  lemma BeforeSteps(p: Pipeline, k: nat)
    requires 1 <= k
    ensures Before(p, k + 1) == Word(p, k) + Letters(p.replan, k)
  {
  }

  lemma {:induction false} WordsGrow(p: Pipeline, j: nat, k: nat)
    requires 1 <= j < k
    ensures Word(p, j) <= Before(p, k)
    decreases k
  {
    BeforeSteps(p, k - 1);
    if j < k - 1 {
      WordsGrow(p, j, k - 1);
    }
  }

  /** Earlier gates read entries of `arts` that later calls do not change. */
  lemma GatesKept(p: Pipeline, arts: seq<Artifacts>, more: seq<Artifacts>, concerns: string -> bool, k: nat)
    requires 1 <= k && |Before(p, k)| < |arts|
    requires forall j :: 1 <= j < k ==> SentBack(p, arts, concerns, j)
    ensures forall j :: 1 <= j < k ==> SentBack(p, arts + more, concerns, j)
  {
    forall j | 1 <= j < k ensures SentBack(p, arts + more, concerns, j) {
      assert SentBack(p, arts, concerns, j);
      WordsGrow(p, j, k);
    }
  }

  ghost predicate Progress(p: Pipeline, initial: Artifacts, handle: (string, Artifacts, nat) -> Option<Artifacts>,
                           concerns: string -> bool, trace: seq<Letter>, arts: seq<Artifacts>, k: nat) {
    && Threaded(trace, arts, handle) && arts[0] == initial
    && Before(p, k) <= trace
    && forall j :: 1 <= j < k ==> SentBack(p, arts, concerns, j)
  }

  lemma ProgressMore(p: Pipeline, initial: Artifacts, handle: (string, Artifacts, nat) -> Option<Artifacts>,
                     concerns: string -> bool, trace: seq<Letter>, arts: seq<Artifacts>, k: nat,
                     letter: Letter, a: Artifacts)
    requires 1 <= k && Progress(p, initial, handle, concerns, trace, arts, k)
    requires handle(letter.0, arts[|trace|].(iteration := letter.1), |trace|) == Some(a)
    ensures Progress(p, initial, handle, concerns, trace + [letter], arts + [a], k)
  {
    ThreadedMore(trace, arts, handle, letter, a);
    GatesKept(p, arts, [a], concerns, k);
  }

  /** A gate that sent the run back opens the next iteration, after the replanning if there is one. */
  lemma ProgressNext(p: Pipeline, initial: Artifacts, handle: (string, Artifacts, nat) -> Option<Artifacts>,
                     concerns: string -> bool, trace: seq<Letter>, arts: seq<Artifacts>, k: nat)
    requires 1 <= k && Progress(p, initial, handle, concerns, trace, arts, k)
    requires trace == Before(p, k + 1) && SentBack(p, arts, concerns, k)
    ensures Progress(p, initial, handle, concerns, trace, arts, k + 1)
  {
  }

  lemma GateKept(p: Pipeline, arts: seq<Artifacts>, arts': seq<Artifacts>, concerns: string -> bool, k: nat)
    requires arts <= arts' && |Word(p, k)| < |arts|
    ensures SentBack(p, arts, concerns, k) == SentBack(p, arts', concerns, k)
  {
  }

  // ---------------------------------------------------------------- why a run stops

  function Ones(yes: bool): nat {
    if yes then 1 else 0
  }

  /** The cancellation checks that go with the stages, when none finds anything. */
  function ChecksOf(stages: seq<Stage>): nat {
    if stages == [] then 0
    else
      var last := stages[|stages| - 1];
      ChecksOf(stages[..|stages| - 1]) + Ones(last.checksBefore) + Ones(last.checksAfter)
  }

  /** The checks made before iteration `k`; a replanning is checked only after. */
  function ChecksBefore(p: Pipeline, k: nat): nat {
    if k <= 1 then 0
    else ChecksBefore(p, k - 1) + ChecksOf(p.core) + Ones(p.replan != [] && p.replan[0].checksAfter)
  }

  /** `n` core stages of iteration `k` have been called. */
  predicate CalledUpTo(p: Pipeline, trace: seq<Letter>, k: nat, n: nat) {
    n <= |p.core| && trace == Before(p, k) + Letters(p.core, k)[..n]
  }

  /** The checks made once `n` core stages of iteration `k` are done with theirs. */
  function ChecksUpTo(p: Pipeline, k: nat, n: nat): nat
    requires n <= |p.core|
  {
    ChecksBefore(p, k) + ChecksOf(p.core[..n])
  }

  lemma OneMoreStage(p: Pipeline, k: nat, n: nat)
    requires n < |p.core|
    ensures ChecksUpTo(p, k, n + 1) == ChecksUpTo(p, k, n) + Ones(p.core[n].checksBefore) + Ones(p.core[n].checksAfter)
  {
    assert p.core[..n + 1][..n] == p.core[..n];
  }

  /** After `n` core stages of iteration `k` stage `n` stops the run, and why: its handler is missing or
      raises once the check before it found nothing, or a check that goes with it, the first at all to do
      so, finds a cancellation. */
  ghost predicate StoppedInCore(p: Pipeline, registered: string -> bool,
                                handle: (string, Artifacts, nat) -> Option<Artifacts>, cancelled: nat -> bool,
                                trace: seq<Letter>, arts: seq<Artifacts>, k: nat, checks: nat, outcome: Outcome, n: nat)
    requires |arts| == |trace| + 1 && n < |p.core|
  {
    var stage := p.core[n];
    var before := ChecksUpTo(p, k, n) + Ones(stage.checksBefore);
    match outcome
    case NoHandler => CalledUpTo(p, trace, k, n) && checks == before && !registered(stage.handler)
    case HandlerRaised =>
      && CalledUpTo(p, trace, k, n) && checks == before && registered(stage.handler)
      && handle(stage.handler, arts[|trace|].(iteration := k), |trace|).None?
    case WasCancelled =>
      && cancelled(checks)
      && if CalledUpTo(p, trace, k, n) then stage.checksBefore && checks == ChecksUpTo(p, k, n)
         else CalledUpTo(p, trace, k, n + 1) && stage.checksAfter && checks == before
    case Completed => false
  }

  /** The gate of iteration `k` sends the run back. */
  ghost predicate GoesBack(p: Pipeline, arts: seq<Artifacts>, concerns: string -> bool, maxIterations: nat, k: nat) {
    k < maxIterations && SentBack(p, arts, concerns, k)
  }

  /** Iteration `k` is done, its gate sent the run back, and the replanning stops it. */
  ghost predicate StoppedReplanning(p: Pipeline, registered: string -> bool,
                                    handle: (string, Artifacts, nat) -> Option<Artifacts>, cancelled: nat -> bool,
                                    trace: seq<Letter>, arts: seq<Artifacts>, k: nat, checks: nat, outcome: Outcome)
    requires |arts| == |trace| + 1
  {
    && p.replan != [] && checks == ChecksUpTo(p, k, |p.core|)
    && var stage := p.replan[0];
    match outcome
    case NoHandler => trace == Word(p, k) && !registered(stage.handler)
    case HandlerRaised =>
      && trace == Word(p, k) && registered(stage.handler)
      && handle(stage.handler, arts[|trace|].(iteration := k), |trace|).None?
    case WasCancelled => trace == Before(p, k + 1) && stage.checksAfter && cancelled(checks)
    case Completed => false
  }

  /** How a run may end in iteration `k`: in a core stage, in the replanning after it, or past its gate. */
  ghost predicate EndsWell(p: Pipeline, registered: string -> bool,
                           handle: (string, Artifacts, nat) -> Option<Artifacts>, concerns: string -> bool,
                           cancelled: nat -> bool, maxIterations: nat,
                           trace: seq<Letter>, arts: seq<Artifacts>, k: nat, checks: nat, outcome: Outcome)
    requires |arts| == |trace| + 1
  {
    || (exists n :: 0 <= n < |p.core|
                    && StoppedInCore(p, registered, handle, cancelled, trace, arts, k, checks, outcome, n))
    || (GoesBack(p, arts, concerns, maxIterations, k)
        && StoppedReplanning(p, registered, handle, cancelled, trace, arts, k, checks, outcome))
    || (trace == Word(p, k) && !GoesBack(p, arts, concerns, maxIterations, k)
        && checks == ChecksUpTo(p, k, |p.core|)
        && outcome == if cancelled(checks) then WasCancelled else Completed)
  }

  /** Look up the stage's handler and call it; then, if the stage asks for it, check for cancellation.
      `checked` counts the checks made before. */
  method CallStage(p: Pipeline, stage: Stage, initial: Artifacts, registered: string -> bool,
                   handle: (string, Artifacts, nat) -> Option<Artifacts>, concerns: string -> bool,
                   cancelled: nat -> bool, trace: seq<Letter>, arts: seq<Artifacts>, k: nat, checked: nat)
    returns (stop: Option<Outcome>, trace': seq<Letter>, arts': seq<Artifacts>, checks: nat)
    requires 1 <= k && Progress(p, initial, handle, concerns, trace, arts, k)
    ensures Progress(p, initial, handle, concerns, trace', arts', k) && arts <= arts'
    ensures var made := handle(stage.handler, arts[|trace|].(iteration := k), |trace|);
            if registered(stage.handler) && made.Some? then
              && trace' == trace + [(stage.handler, k)]
              && stop == (if stage.checksAfter && cancelled(checked) then Some(WasCancelled) else None)
              && checks == checked + if stage.checksAfter && stop.None? then 1 else 0
            else
              && trace' == trace && arts' == arts && checks == checked
              && stop == Some(if registered(stage.handler) then HandlerRaised else NoHandler)
  {
    stop, trace', arts', checks := Some(NoHandler), trace, arts, checked;
    if registered(stage.handler) {
      var result := handle(stage.handler, arts[|trace|].(iteration := k), |trace|);
      if result.None? {
        stop := Some(HandlerRaised);
      } else {
        ProgressMore(p, initial, handle, concerns, trace, arts, k, (stage.handler, k), result.value);
        trace', arts' := trace + [(stage.handler, k)], arts + [result.value];
        stop := if stage.checksAfter && cancelled(checked) then Some(WasCancelled) else None;
        checks := if stage.checksAfter && stop.None? then checked + 1 else checked;
      }
    }
  }

  /** Part of the core word ran, and all of it if nothing stopped it. */
  lemma CoreSoFar(p: Pipeline, k: nat, trace: seq<Letter>, n: nat)
    requires n <= |p.core|
    ensures CalledUpTo(p, trace, k, n) ==> trace <= Word(p, k) && (n == |p.core| ==> trace == Word(p, k))
    ensures CalledUpTo(p, trace, k, n) && n < |p.core| ==> CalledUpTo(p, trace + [(p.core[n].handler, k)], k, n + 1)
  {
    TakeMore(Before(p, k), Letters(p.core, k), n);
  }

  lemma TakeMore<T>(a: seq<T>, b: seq<T>, n: nat)
    requires n <= |b|
    ensures a + b[..n] <= a + b && (n == |b| ==> a + b[..n] == a + b)
    ensures n < |b| ==> a + b[..n] + [b[n]] == a + b[..n + 1]
  {
  }

  /** The core stages of iteration `k`, in order, each checked for cancellation before if it asks for it. */
  method RunCore(p: Pipeline, initial: Artifacts, registered: string -> bool,
                 handle: (string, Artifacts, nat) -> Option<Artifacts>, concerns: string -> bool,
                 cancelled: nat -> bool, trace: seq<Letter>, arts: seq<Artifacts>, k: nat, checked: nat)
    returns (stop: Option<Outcome>, trace': seq<Letter>, arts': seq<Artifacts>, checks: nat)
    requires 1 <= k && trace == Before(p, k) && Progress(p, initial, handle, concerns, trace, arts, k)
    requires checked == ChecksBefore(p, k) && forall y :: 0 <= y < checked ==> !cancelled(y)
    ensures Progress(p, initial, handle, concerns, trace', arts', k) && trace' <= Word(p, k)
    ensures forall y :: 0 <= y < checks ==> !cancelled(y)
    ensures stop.None? ==> trace' == Word(p, k) && checks == ChecksUpTo(p, k, |p.core|)
    ensures stop.Some? ==>
              exists n :: 0 <= n < |p.core|
                          && StoppedInCore(p, registered, handle, cancelled, trace', arts', k, checks, stop.value, n)
  {
    var core := p.core;
    var n := 0;
    stop, trace', arts', checks := None, trace, arts, checked;
    while n < |core| && stop.None?
      invariant n <= |core| && (stop.None? ==> CalledUpTo(p, trace', k, n) && checks == ChecksUpTo(p, k, n))
      invariant Progress(p, initial, handle, concerns, trace', arts', k) && trace' <= Word(p, k)
      invariant forall y :: 0 <= y < checks ==> !cancelled(y)
      invariant stop.Some? ==>
                  n < |core| && StoppedInCore(p, registered, handle, cancelled, trace', arts', k, checks, stop.value, n)
      decreases stop.None?, |core| - n
    {
      stop, trace', arts', checks := RunStage(p, initial, registered, handle, concerns, cancelled, trace', arts', k, n,
                                              checks);
      n := if stop.None? then n + 1 else n;
    }
    CoreSoFar(p, k, trace', |core|);
  }

  /** Core stage `n` of iteration `k`, with its checks. */
  method RunStage(p: Pipeline, initial: Artifacts, registered: string -> bool,
                  handle: (string, Artifacts, nat) -> Option<Artifacts>, concerns: string -> bool,
                  cancelled: nat -> bool, trace: seq<Letter>, arts: seq<Artifacts>, k: nat, n: nat, checked: nat)
    returns (stop: Option<Outcome>, trace': seq<Letter>, arts': seq<Artifacts>, checks: nat)
    requires 1 <= k && n < |p.core| && CalledUpTo(p, trace, k, n)
    requires Progress(p, initial, handle, concerns, trace, arts, k)
    requires checked == ChecksUpTo(p, k, n) && forall y :: 0 <= y < checked ==> !cancelled(y)
    ensures Progress(p, initial, handle, concerns, trace', arts', k) && trace' <= Word(p, k)
    ensures forall y :: 0 <= y < checks ==> !cancelled(y)
    ensures stop.None? ==> CalledUpTo(p, trace', k, n + 1) && checks == ChecksUpTo(p, k, n + 1)
    ensures stop.Some? ==>
              StoppedInCore(p, registered, handle, cancelled, trace', arts', k, checks, stop.value, n)
  {
    var stage := p.core[n];
    CoreSoFar(p, k, trace, n);
    OneMoreStage(p, k, n);
    stop, trace', arts', checks := Some(WasCancelled), trace, arts, checked;
    if !(stage.checksBefore && cancelled(checks)) {
      checks := checks + Ones(stage.checksBefore);
      stop, trace', arts', checks := CallStage(p, stage, initial, registered, handle, concerns, cancelled,
                                               trace, arts, k, checks);
      if |trace'| > |trace| {
        CoreSoFar(p, k, trace', n + 1);
      }
    }
  }

  /** `handle(h, a, n)` is what handler `h` makes of the artifacts as the n-th call, `None` if it raises;
      `cancelled(n)` is what the n-th cancellation check finds. The handlers called form a prefix of
      core . (replan . core)^(k-1), and `EndsWell` says where and why it ends: it completes exactly on the
      full word, past a k-th review without concerns or at the limit, when the last check finds nothing. */
  method Execute(stages: seq<Stage>, maxIterations: nat, initial: Artifacts, registered: string -> bool,
                 handle: (string, Artifacts, nat) -> Option<Artifacts>, concerns: string -> bool,
                 cancelled: nat -> bool)
    returns (outcome: Outcome, trace: seq<Letter>, arts: seq<Artifacts>, k: nat, checks: nat)
    requires 1 <= maxIterations
    ensures 1 <= k <= maxIterations && trace <= Word(Separate(stages), maxIterations)
    ensures Threaded(trace, arts, handle) && arts[0] == initial && Before(Separate(stages), k) <= trace
    ensures forall j :: 1 <= j < k ==> SentBack(Separate(stages), arts, concerns, j)
    ensures forall y :: 0 <= y < checks ==> !cancelled(y)
    ensures EndsWell(Separate(stages), registered, handle, concerns, cancelled, maxIterations,
                     trace, arts, k, checks, outcome)
    ensures AllGood(stages, registered, handle, cancelled) ==> outcome.Completed?
    ensures forall j :: 1 <= j < k ==> ReviewedAt(Separate(stages), arts, concerns, j, true)
    ensures |trace| > |Word(Separate(stages), k)| ==>
              k < maxIterations && ReviewedAt(Separate(stages), arts, concerns, k, true)
    ensures outcome.Completed? && k < maxIterations ==> ReviewedAt(Separate(stages), arts, concerns, k, false)
  {
    var p := Separate(stages);
    var stop: Option<Outcome> := None;
    trace, arts, k, checks := [], [initial], 1, 0;
    while stop.None?
      invariant 1 <= k <= maxIterations && Progress(p, initial, handle, concerns, trace, arts, k)
      invariant forall y :: 0 <= y < checks ==> !cancelled(y)
      invariant stop.None? ==> trace == Before(p, k) && checks == ChecksBefore(p, k)
      invariant stop.Some? ==>
                  EndsWell(p, registered, handle, concerns, cancelled, maxIterations,
                           trace, arts, k, checks, stop.value)
      decreases stop.None?, maxIterations - k
    {
      stop, trace, arts, checks := RunIteration(p, maxIterations, initial, registered, handle, concerns, cancelled,
                                                trace, arts, k, checks);
      k := if stop.None? then k + 1 else k;
    }
    outcome := stop.value;
    GatesAreReviews(p, registered, handle, concerns, cancelled, maxIterations, trace, arts, k, checks, outcome);
    EndsInWord(stages, maxIterations, registered, handle, concerns, cancelled, trace, arts, k, checks, outcome);
  }

  /** Iteration `k`: the core stages, the review gate, and the replanning if that sends the run back. */
  method RunIteration(p: Pipeline, maxIterations: nat, initial: Artifacts, registered: string -> bool,
                      handle: (string, Artifacts, nat) -> Option<Artifacts>, concerns: string -> bool,
                      cancelled: nat -> bool, trace: seq<Letter>, arts: seq<Artifacts>, k: nat, checked: nat)
    returns (stop: Option<Outcome>, trace': seq<Letter>, arts': seq<Artifacts>, checks: nat)
    requires 1 <= k <= maxIterations && |p.replan| <= 1
    requires trace == Before(p, k) && Progress(p, initial, handle, concerns, trace, arts, k)
    requires checked == ChecksBefore(p, k) && forall y :: 0 <= y < checked ==> !cancelled(y)
    ensures Progress(p, initial, handle, concerns, trace', arts', if stop.None? then k + 1 else k)
    ensures forall y :: 0 <= y < checks ==> !cancelled(y)
    ensures stop.None? ==> k < maxIterations && trace' == Before(p, k + 1) && checks == ChecksBefore(p, k + 1)
    ensures stop.None? ==> ReviewedAt(p, arts', concerns, k, true)
    ensures stop == Some(Completed) && k < maxIterations ==> ReviewedAt(p, arts', concerns, k, false)
    ensures stop.Some? ==>
              EndsWell(p, registered, handle, concerns, cancelled, maxIterations, trace', arts', k, checks, stop.value)
  {
    stop, trace', arts', checks := RunCore(p, initial, registered, handle, concerns, cancelled,
                                           trace, arts, k, checked);
    if stop.None? {
      if !concerns(Text(arts'[|trace'|], "review_text")) || k >= maxIterations {
        stop := Some(if cancelled(checks) then WasCancelled else Completed);
      } else {
        assert SentBack(p, arts', concerns, k);
        stop, trace', arts', checks := RunReplanning(p, initial, registered, handle, concerns, cancelled,
                                                     trace', arts', k, checks);
        if stop.None? {
          BeforeSteps(p, k);
          ProgressNext(p, initial, handle, concerns, trace', arts', k);
        }
      }
    }
  }

  /** Between iterations: the replanning stage, if there is one. */
  method RunReplanning(p: Pipeline, initial: Artifacts, registered: string -> bool,
                       handle: (string, Artifacts, nat) -> Option<Artifacts>, concerns: string -> bool,
                       cancelled: nat -> bool, trace: seq<Letter>, arts: seq<Artifacts>, k: nat, checked: nat)
    returns (stop: Option<Outcome>, trace': seq<Letter>, arts': seq<Artifacts>, checks: nat)
    requires 1 <= k && |p.replan| <= 1 && trace == Word(p, k) && Progress(p, initial, handle, concerns, trace, arts, k)
    requires SentBack(p, arts, concerns, k)
    requires checked == ChecksUpTo(p, k, |p.core|) && forall y :: 0 <= y < checked ==> !cancelled(y)
    ensures Progress(p, initial, handle, concerns, trace', arts', k) && trace' <= Before(p, k + 1)
    ensures SentBack(p, arts', concerns, k)
    ensures forall y :: 0 <= y < checks ==> !cancelled(y)
    ensures stop.None? ==> trace' == Before(p, k + 1) && checks == ChecksBefore(p, k + 1)
    ensures stop.Some? ==>
              StoppedReplanning(p, registered, handle, cancelled, trace', arts', k, checks, stop.value)
  {
    BeforeSteps(p, k);
    assert p.core[..|p.core|] == p.core;
    stop, trace', arts', checks := None, trace, arts, checked;
    if p.replan != [] {
      stop, trace', arts', checks := CallStage(p, p.replan[0], initial, registered, handle, concerns, cancelled,
                                               trace, arts, k, checked);
      GateKept(p, arts, arts', concerns, k);
    }
  }

  ghost predicate AllGood(stages: seq<Stage>, registered: string -> bool,
                          handle: (string, Artifacts, nat) -> Option<Artifacts>, cancelled: nat -> bool)
  {
    && (forall s :: s in stages ==> registered(s.handler))
    && (forall h, a, n :: registered(h) ==> handle(h, a, n).Some?)
    && (forall n :: !cancelled(n))
  }

  /** After the core stages of iteration `j` the artifact `review_text`, empty if there is none, raises a
      concern or not. */
  ghost predicate ReviewedAt(p: Pipeline, arts: seq<Artifacts>, concerns: string -> bool, j: nat, raised: bool) {
    && |Word(p, j)| < |arts|
    && var texts := arts[|Word(p, j)|].texts;
    && concerns(if "review_text" in texts then texts["review_text"] else "") == raised
  }

  /** Every gate passed judged the review: those before sent the run back, and the last one did not if the run
      completed below the limit. */
  lemma GatesAreReviews(p: Pipeline, registered: string -> bool,
                        handle: (string, Artifacts, nat) -> Option<Artifacts>, concerns: string -> bool,
                        cancelled: nat -> bool, maxIterations: nat,
                        trace: seq<Letter>, arts: seq<Artifacts>, k: nat, checks: nat, outcome: Outcome)
    requires 1 <= k && |arts| == |trace| + 1 && Before(p, k) <= trace
    requires forall j :: 1 <= j < k ==> SentBack(p, arts, concerns, j)
    requires EndsWell(p, registered, handle, concerns, cancelled, maxIterations, trace, arts, k, checks, outcome)
    ensures forall j :: 1 <= j < k ==> ReviewedAt(p, arts, concerns, j, true)
    ensures |trace| > |Word(p, k)| ==> k < maxIterations && ReviewedAt(p, arts, concerns, k, true)
    ensures outcome.Completed? && k < maxIterations ==> ReviewedAt(p, arts, concerns, k, false)
  {
    forall j | 1 <= j < k ensures ReviewedAt(p, arts, concerns, j, true) {
      WordsGrow(p, j, k);
      assert SentBack(p, arts, concerns, j);
    }
    if n :| 0 <= n < |p.core| && StoppedInCore(p, registered, handle, cancelled, trace, arts, k, checks, outcome, n) {
      CoreSoFar(p, k, trace, n);
      CoreSoFar(p, k, trace, n + 1);
    }
  }

  /** Wherever a run ends, what it has called is a prefix of the word for the limit. */
  lemma EndsInWord(stages: seq<Stage>, maxIterations: nat, registered: string -> bool,
                   handle: (string, Artifacts, nat) -> Option<Artifacts>, concerns: string -> bool,
                   cancelled: nat -> bool, trace: seq<Letter>, arts: seq<Artifacts>, k: nat, checks: nat,
                   outcome: Outcome)
    requires |arts| == |trace| + 1 && 1 <= k <= maxIterations
    requires EndsWell(Separate(stages), registered, handle, concerns, cancelled, maxIterations,
                      trace, arts, k, checks, outcome)
    ensures trace <= Word(Separate(stages), maxIterations)
    ensures AllGood(stages, registered, handle, cancelled) ==> outcome.Completed?
  {
    var p := Separate(stages);
    BeforeSteps(p, k);
    if k < maxIterations {
      WordsGrow(p, k, maxIterations);
      WordsNest(p, k + 1, maxIterations);
    }
    if n :| 0 <= n < |p.core| && StoppedInCore(p, registered, handle, cancelled, trace, arts, k, checks, outcome, n) {
      CoreSoFar(p, k, trace, n);
      CoreSoFar(p, k, trace, n + 1);
    }
    if AllGood(stages, registered, handle, cancelled) {
      NothingWrongCompletes(stages, maxIterations, registered, handle, concerns, cancelled,
                            trace, arts, k, checks, outcome);
    }
  }

  lemma WordsNest(p: Pipeline, j: nat, k: nat)
    requires 1 <= j <= k
    ensures Before(p, j) <= Word(p, k)
  {
    if j < k {
      WordsGrow(p, j, k);
    }
  }

  /** What ends well completes if handlers are registered and do not raise and nobody cancels. */
  lemma NothingWrongCompletes(stages: seq<Stage>, maxIterations: nat, registered: string -> bool,
                              handle: (string, Artifacts, nat) -> Option<Artifacts>, concerns: string -> bool,
                              cancelled: nat -> bool, trace: seq<Letter>, arts: seq<Artifacts>, k: nat, checks: nat,
                              outcome: Outcome)
    requires |arts| == |trace| + 1 && AllGood(stages, registered, handle, cancelled)
    requires EndsWell(Separate(stages), registered, handle, concerns, cancelled, maxIterations,
                      trace, arts, k, checks, outcome)
    ensures outcome.Completed? && trace == Word(Separate(stages), k)
    ensures k < maxIterations ==> !concerns(ReviewText(Separate(stages), arts, k))
  {
    CoreIsWithin(stages);
  }

  // ---------------------------------------------------------------- the built-in workflows

  const GENERATE_CODE: seq<Stage> := [
    Stage("design", true, true), Stage("implementation", false, true), Stage("testing", false, true),
    Stage("review", false, true), Stage("chronicle", false, true), Stage(REPLANNING, false, true)]

  const LEARNING: seq<Stage> := [Stage("chronicle", false, false)]

  /** The artifact each built-in handler writes: the answer to its model call. */
  function Product(handler: string): string {
    match handler
    case "design" => "design_text"
    case "implementation" => "implementation_text"
    case "testing" => "test_text"
    case "review" => "review_text"
    case "replanning" => "plan_text"
    case "chronicle" => "lesson_text"
    case _ => ""
  }

  /** The artifacts each built-in handler reads for its model call. */
  function Reads(handler: string): seq<string> {
    match handler
    case "design" => ["plan_text", "context_text"]
    case "implementation" => ["plan_text", "design_text", "context_text"]
    case "testing" => ["plan_text", "design_text", "implementation_text"]
    case "review" => ["plan_text", "design_text", "implementation_text", "test_text"]
    case "replanning" => ["run_prompt", "review_text"]
    case "chronicle" =>
      ["plan_text", "design_text", "implementation_text", "test_text", "review_text", "result_text"]
    case _ => []
  }

  function Values(a: Artifacts, keys: seq<string>): seq<string> {
    seq(|keys|, i requires 0 <= i < |keys| => Text(a, keys[i]))
  }

  /** The model's answer to the n-th call, made by a handler from the values it reads. */
  type Model = (string, seq<string>, nat) -> string

  /** The built-in handlers: each stores the model's answer to what it reads, and touches nothing else. */
  function BuiltIn(model: Model): (string, Artifacts, nat) -> Option<Artifacts> {
    (handler: string, a: Artifacts, n: nat) =>
      if Product(handler) == "" then None
      else Some(a.(texts := a.texts[Product(handler) := model(handler, Values(a, Reads(handler)), n)]))
  }

  /** The handlers that save `review_iterations` with their artifact. */
  predicate SavesIteration(handler: string) {
    handler in {"design", "implementation", "testing", "review", "chronicle"}
  }

  /** The run's `review_iterations` column after the calls of `trace`. */
  function SavedIterations(trace: seq<Letter>): nat {
    if trace == [] then 0
    else if SavesIteration(trace[|trace| - 1].0) then trace[|trace| - 1].1
    else SavedIterations(trace[..|trace| - 1])
  }

  /** A built-in workflow that ran in full has saved the number of its last iteration. */
  lemma CompletedSavesIterations(stages: seq<Stage>, k: nat)
    requires stages == GENERATE_CODE || stages == LEARNING
    ensures SavedIterations(Word(Separate(stages), k)) == k
  {
    GenerateCodeStages();
    assert Core(LEARNING) == [LEARNING[0]] + Core(LEARNING[1..]);
    var core := Core(stages);
    PickFrom(Before(Separate(stages), k), Letters(core, k), |Before(Separate(stages), k)| + |core| - 1);
  }

  lemma Split<T>(a: seq<T>, b: seq<T>)
    requires a != []
    ensures a[0] in a && (a + b)[0] == a[0] && (a + b)[1..] == a[1..] + b && a + b == [a[0]] + (a[1..] + b)
  {
  }

  lemma {:induction false} CoreAppend(a: seq<Stage>, b: seq<Stage>)
    requires forall s :: s in a ==> s.handler != REPLANNING
    ensures Core(a + b) == a + Core(b) && Replan(a + b) == Replan(b)
  {
    if a == [] {
      assert a + b == b;
    } else {
      CoreAppend(a[1..], b);
      Split(a, b);
      Split(a, Core(b));
      assert a[0].handler != REPLANNING;
      assert Core(a + b) == [a[0]] + Core(a[1..] + b);
    }
  }

  lemma GenerateCodeStages()
    ensures Core(GENERATE_CODE) == GENERATE_CODE[..5]
    ensures Replan(GENERATE_CODE) == GENERATE_CODE[5..]
  {
    var g := GENERATE_CODE;
    assert g == g[..5] + g[5..] && g[5..] == [g[5]] && g[5..][1..] == [];
    CoreAppend(g[..5], g[5..]);
  }

  /** The shape of generate_code: five core stages and a replanning. */
  predicate FiveAndOne(p: Pipeline) {
    |p.core| == 5 && |p.replan| == 1
  }

  function StageAt(p: Pipeline, n: nat): Stage
    requires FiveAndOne(p) && n < 6
  {
    if n < 5 then p.core[n] else p.replan[0]
  }

  lemma {:induction false} SixPerIteration(p: Pipeline, k: nat)
    requires FiveAndOne(p) && 1 <= k
    ensures |Before(p, k)| == 6 * (k - 1) && |Word(p, k)| == 6 * (k - 1) + 5
  {
    if k > 1 {
      SixPerIteration(p, k - 1);
    }
  }

  lemma PickFrom<T>(a: seq<T>, b: seq<T>, m: nat)
    requires m < |a| + |b|
    ensures (a + b)[m] == if m < |a| then a[m] else b[m - |a|]
  {
  }

  lemma CoreLetter(p: Pipeline, k: nat, n: nat)
    requires FiveAndOne(p) && 1 <= k && n < 5
    ensures |Word(p, k)| == 6 * (k - 1) + 5 && Word(p, k)[6 * (k - 1) + n] == (p.core[n].handler, k)
  {
    SixPerIteration(p, k);
    PickFrom(Before(p, k), Letters(p.core, k), 6 * (k - 1) + n);
  }

  lemma EarlierLetter(p: Pipeline, k: nat, m: nat)
    requires FiveAndOne(p) && 1 <= k && m <= 6 * (k - 1) + 5
    ensures |Word(p, k)| == 6 * (k - 1) + 5 && |Word(p, k + 1)| == 6 * k + 5
    ensures Word(p, k + 1)[m] == if m < 6 * (k - 1) + 5 then Word(p, k)[m] else (p.replan[0].handler, k)
  {
    SixPerIteration(p, k);
    SixPerIteration(p, k + 1);
    BeforeSteps(p, k);
    PickFrom(Before(p, k + 1), Letters(p.core, k + 1), m);
    PickFrom(Word(p, k), Letters(p.replan, k), m);
  }

  /** Stage `n` of iteration `q + 1` is letter `6 * q + n`. */
  lemma {:induction false} LetterAt(p: Pipeline, k: nat, q: nat, n: nat)
    requires FiveAndOne(p) && 1 <= k && n < 6 && 6 * q + n < |Word(p, k)|
    ensures Word(p, k)[6 * q + n] == (StageAt(p, n).handler, q + 1)
    decreases k
  {
    SixPerIteration(p, k);
    if q == k - 1 {
      CoreLetter(p, k, n);
    } else {
      EarlierLetter(p, k - 1, 6 * q + n);
      if q < k - 2 || n < 5 {
        LetterAt(p, k - 1, q, n);
      }
    }
  }

  /** The built-in handlers of generate_code, in stage order. */
  function Name(p: nat): string
    requires p < 6
  {
    GENERATE_CODE[p].handler
  }

  lemma GenerateCodeLetter(k: nat, m: nat)
    requires 1 <= k && m < |Word(Separate(GENERATE_CODE), k)|
    ensures Word(Separate(GENERATE_CODE), k)[m] == (Name(m % 6), m / 6 + 1)
  {
    var p := Separate(GENERATE_CODE);
    GenerateCodeStages();
    LetterAt(p, k, m / 6, m % 6);
    assert StageAt(p, m % 6) == GENERATE_CODE[m % 6];
  }

  /** Every letter is the generate_code stage its position says. */
  ghost predicate InStageOrder(trace: seq<Letter>) {
    forall m :: 0 <= m < |trace| ==> trace[m] == (Name(m % 6), m / 6 + 1)
  }

  lemma WordInStageOrder(trace: seq<Letter>, k: nat)
    requires 1 <= k && trace <= Word(Separate(GENERATE_CODE), k)
    ensures InStageOrder(trace)
  {
    forall m | 0 <= m < |trace| ensures trace[m] == (Name(m % 6), m / 6 + 1) {
      GenerateCodeLetter(k, m);
    }
  }

  /** The answer to call `m`. */
  function Answer(arts: seq<Artifacts>, model: Model, m: nat): string
    requires m < |arts|
  {
    model(Name(m % 6), Values(arts[m], Reads(Name(m % 6))), m)
  }

  lemma CallStores(trace: seq<Letter>, arts: seq<Artifacts>, model: Model, m: nat, key: string)
    requires InStageOrder(trace) && Threaded(trace, arts, BuiltIn(model)) && m < |trace|
    ensures Text(arts[m + 1], key)
            == if key == Product(Name(m % 6)) then Answer(arts, model, m) else Text(arts[m], key)
  {
    assert StepOf(trace, arts, BuiltIn(model), m);
    var a := arts[m].(iteration := trace[m].1);
    assert Values(a, Reads(Name(m % 6))) == Values(arts[m], Reads(Name(m % 6)));
    assert arts[m + 1].texts == arts[m].texts[Product(Name(m % 6)) := Answer(arts, model, m)];
  }

  /** None of the calls from `i` up to `j` writes `key`. */
  ghost predicate Unwritten(i: nat, j: nat, key: string) {
    forall q: nat :: i <= q < j ==> Product(Name(q % 6)) != key
  }

  lemma {:induction false} TextStays(trace: seq<Letter>, arts: seq<Artifacts>, model: Model, i: nat, j: nat,
                                     key: string)
    requires InStageOrder(trace) && Threaded(trace, arts, BuiltIn(model)) && i <= j <= |trace|
    requires Unwritten(i, j, key)
    ensures Text(arts[j], key) == Text(arts[i], key)
  {
    if i < j {
      TextStays(trace, arts, model, i, j - 1, key);
      CallStores(trace, arts, model, j - 1, key);
    }
  }

  /** The stage of an iteration that writes `key`. */
  function Position(key: string): Option<nat> {
    match key
    case "design_text" => Some(0)
    case "implementation_text" => Some(1)
    case "test_text" => Some(2)
    case "review_text" => Some(3)
    case "lesson_text" => Some(4)
    case "plan_text" => Some(5)
    case _ => None
  }

  lemma WritesAt(p: nat, key: string)
    requires p < 6
    ensures Product(Name(p)) == key <==> Position(key) == Some(p)
  {
    assert p == 0 || p == 1 || p == 2 || p == 3 || p == 4 || p == 5;
  }

  /** What a stage reads was written earlier in its iteration, but for the plan and what the run began with. */
  lemma ReadsEarlier(p: nat, key: string)
    requires p < 6 && key in Reads(Name(p))
    ensures key == "plan_text" || Position(key).None? || Position(key).value < p
  {
    assert p == 0 || p == 1 || p == 2 || p == 3 || p == 4 || p == 5;
  }

  /** The last call before call `m` that writes `key`: in its iteration or in the one before. */
  function Origin(m: nat, key: string): Option<nat> {
    var start := m - m % 6;
    match Position(key)
    case None => None
    case Some(w) =>
      if w < m % 6 then Some(start + w) else if start == 0 then None else Some(start - 6 + w)
  }

  lemma SixApart(c: nat, q: nat)
    requires c < q < c + 6
    ensures q % 6 != c % 6
  {
  }

  lemma StageOf(start: nat, w: nat)
    requires start % 6 == 0 && w < 6
    ensures (start + w) % 6 == w && (start + w) / 6 == start / 6
  {
  }

  lemma OriginWrites(m: nat, key: string)
    ensures match Origin(m, key)
            case None => Unwritten(0, m, key)
            case Some(c) => c < m <= c + 6 && Position(key) == Some(c % 6) && Unwritten(c + 1, m, key)
  {
    var origin, start := Origin(m, key), m - m % 6;
    if origin.Some? {
      var w := Position(key).value;
      StageOf(if w < m % 6 then start else start - 6, w);
    }
    var from := if origin.Some? then origin.value + 1 else 0;
    forall q: nat | from <= q < m ensures Product(Name(q % 6)) != key {
      WritesAt(q % 6, key);
      if origin.Some? {
        SixApart(origin.value, q);
      }
    }
  }

  /** Where the value of `key` that call `m` sees comes from: from what the run began with, which for the plan
      is so in the first iteration, or from the answer of a call: for the plan of the replanning just before
      the iteration, else of an earlier stage of the iteration itself. */
  ghost predicate FreshAt(trace: seq<Letter>, arts: seq<Artifacts>, model: Model, m: nat, key: string)
    requires m < |trace| && |arts| == |trace| + 1
  {
    match Origin(m, key)
    case None => Text(arts[m], key) == Text(arts[0], key) && (key == "plan_text" ==> trace[m].1 == 1)
    case Some(c) =>
      && c < m && Product(trace[c].0) == key && Text(arts[m], key) == Answer(arts, model, c)
      && if key == "plan_text" then trace[c].0 == REPLANNING && trace[c].1 + 1 == trace[m].1
         else trace[c].1 == trace[m].1
  }

  lemma OriginIteration(m: nat, key: string)
    requires key in Reads(Name(m % 6))
    ensures match Origin(m, key)
            case None => key == "plan_text" ==> m / 6 == 0
            case Some(c) => if key == "plan_text" then c % 6 == 5 && c / 6 + 1 == m / 6 else c / 6 == m / 6
  {
    ReadsEarlier(m % 6, key);
    var start := m - m % 6;
    if Origin(m, key).Some? {
      StageOf(if key == "plan_text" then start - 6 else start, Position(key).value);
    }
  }

  /** Freshness: whatever part of a generate_code run has been executed with the built-in handlers, every
      value a call reads is fresh in that sense. */
  lemma ArtifactsAreFresh(trace: seq<Letter>, arts: seq<Artifacts>, model: Model, k: nat, m: nat, key: string)
    requires 1 <= k && trace <= Word(Separate(GENERATE_CODE), k)
    requires Threaded(trace, arts, BuiltIn(model)) && m < |trace| && key in Reads(Name(m % 6))
    ensures trace[m] == (Name(m % 6), m / 6 + 1) && FreshAt(trace, arts, model, m, key)
  {
    WordInStageOrder(trace, k);
    OriginIteration(m, key);
    LastWritten(trace, arts, model, m, key);
  }

  /** Any artifact holds the answer of the last call that writes it. */
  lemma LastWritten(trace: seq<Letter>, arts: seq<Artifacts>, model: Model, m: nat, key: string)
    requires InStageOrder(trace) && Threaded(trace, arts, BuiltIn(model)) && m <= |trace|
    ensures match Origin(m, key)
            case None => Text(arts[m], key) == Text(arts[0], key)
            case Some(c) => c < m && Product(trace[c].0) == key && Text(arts[m], key) == Answer(arts, model, c)
  {
    OriginWrites(m, key);
    match Origin(m, key)
    case None => TextStays(trace, arts, model, 0, m, key);
    case Some(c) =>
      WritesAt(c % 6, key);
      CallStores(trace, arts, model, c, key);
      TextStays(trace, arts, model, c + 1, m, key);
  }

  // ---------------------------------------------------------------- the data flow of one iteration

  lemma ValuesAre(a: Artifacts, keys: seq<string>, values: seq<string>)
    requires |keys| == |values| && forall i :: 0 <= i < |keys| ==> Text(a, keys[i]) == values[i]
    ensures Values(a, keys) == values
  {
  }

  /** Stage `p` of iteration `q + 1` stores its answer. */
  lemma Stored(trace: seq<Letter>, arts: seq<Artifacts>, model: Model, q: nat, p: nat, handler: string)
    requires InStageOrder(trace) && Threaded(trace, arts, BuiltIn(model)) && p < 6 && 6 * q + p < |trace|
    requires handler == Name(p)
    ensures Text(arts[6 * q + p + 1], Product(handler))
            == model(handler, Values(arts[6 * q + p], Reads(handler)), 6 * q + p)
  {
    var m := 6 * q + p;
    assert m % 6 == p by { StageOf(6 * q, p); }
    CallStores(trace, arts, model, m, Product(handler));
    assert Answer(arts, model, m) == model(handler, Values(arts[m], Reads(handler)), m);
  }

  /** Stages `p` up to `r` leave a key alone that none of them writes. */
  lemma {:induction false} Kept(trace: seq<Letter>, arts: seq<Artifacts>, model: Model, q: nat, p: nat, r: nat,
                                key: string)
    requires InStageOrder(trace) && Threaded(trace, arts, BuiltIn(model)) && p <= r < 6 && 6 * q + r <= |trace|
    requires Position(key).None? || Position(key).value < p || r <= Position(key).value
    ensures Text(arts[6 * q + r], key) == Text(arts[6 * q + p], key)
    decreases r
  {
    if p < r {
      Kept(trace, arts, model, q, p, r - 1, key);
      KeptOnce(trace, arts, model, q, r - 1, key);
    }
  }

  lemma KeptOnce(trace: seq<Letter>, arts: seq<Artifacts>, model: Model, q: nat, p: nat, key: string)
    requires InStageOrder(trace) && Threaded(trace, arts, BuiltIn(model)) && p < 6 && 6 * q + p < |trace|
    requires Position(key) != Some(p)
    ensures Text(arts[6 * q + p + 1], key) == Text(arts[6 * q + p], key)
  {
    StageOf(6 * q, p);
    WritesAt(p, key);
    CallStores(trace, arts, model, 6 * q + p, key);
  }

  lemma DesignStage()
    ensures Name(0) == "design" && Product("design") == "design_text"
    ensures Reads("design") == ["plan_text", "context_text"]
  {
  }

  /** The design answers the plan its iteration begins with, and the context. */
  lemma DesignFlow(trace: seq<Letter>, arts: seq<Artifacts>, model: Model, q: nat)
    requires InStageOrder(trace) && Threaded(trace, arts, BuiltIn(model)) && 6 * q + 0 < |trace|
    ensures Text(arts[6 * q + 1], "design_text")
            == model("design",
                     [Text(arts[6 * q], "plan_text"),
                      Text(arts[6 * q], "context_text")],
                     6 * q + 0)
  {
    DesignStage();
    ValuesAre(arts[6 * q + 0], ["plan_text", "context_text"],
              [Text(arts[6 * q], "plan_text"),
               Text(arts[6 * q], "context_text")]);
    Stored(trace, arts, model, q, 0, "design");
  }

  lemma ImplementationStage()
    ensures Name(1) == "implementation" && Product("implementation") == "implementation_text"
    ensures Reads("implementation") == ["plan_text", "design_text", "context_text"]
  {
  }

  /** The code answers the plan, the design just made, and the context. */
  lemma ImplementationFlow(trace: seq<Letter>, arts: seq<Artifacts>, model: Model, q: nat)
    requires InStageOrder(trace) && Threaded(trace, arts, BuiltIn(model)) && 6 * q + 1 < |trace|
    ensures Text(arts[6 * q + 2], "implementation_text")
            == model("implementation",
                     [Text(arts[6 * q], "plan_text"),
                      Text(arts[6 * q + 1], "design_text"),
                      Text(arts[6 * q], "context_text")],
                     6 * q + 1)
  {
    ImplementationStage();
    Kept(trace, arts, model, q, 0, 1, "plan_text");
    Kept(trace, arts, model, q, 0, 1, "context_text");
    ValuesAre(arts[6 * q + 1], ["plan_text", "design_text", "context_text"],
              [Text(arts[6 * q], "plan_text"),
               Text(arts[6 * q + 1], "design_text"),
               Text(arts[6 * q], "context_text")]);
    Stored(trace, arts, model, q, 1, "implementation");
  }

  lemma TestingStage()
    ensures Name(2) == "testing" && Product("testing") == "test_text"
    ensures Reads("testing") == ["plan_text", "design_text", "implementation_text"]
  {
  }

  /** The tests answer the plan, that design and the code just made. */
  lemma TestingFlow(trace: seq<Letter>, arts: seq<Artifacts>, model: Model, q: nat)
    requires InStageOrder(trace) && Threaded(trace, arts, BuiltIn(model)) && 6 * q + 2 < |trace|
    ensures Text(arts[6 * q + 3], "test_text")
            == model("testing",
                     [Text(arts[6 * q], "plan_text"),
                      Text(arts[6 * q + 1], "design_text"),
                      Text(arts[6 * q + 2], "implementation_text")],
                     6 * q + 2)
  {
    TestingStage();
    Kept(trace, arts, model, q, 0, 2, "plan_text");
    Kept(trace, arts, model, q, 1, 2, "design_text");
    ValuesAre(arts[6 * q + 2], ["plan_text", "design_text", "implementation_text"],
              [Text(arts[6 * q], "plan_text"),
               Text(arts[6 * q + 1], "design_text"),
               Text(arts[6 * q + 2], "implementation_text")]);
    Stored(trace, arts, model, q, 2, "testing");
  }

  lemma ReviewStage()
    ensures Name(3) == "review" && Product("review") == "review_text"
    ensures Reads("review") == ["plan_text", "design_text", "implementation_text", "test_text"]
  {
  }

  /** The review answers the plan, the design, the code and the tests of its own iteration. */
  lemma ReviewFlow(trace: seq<Letter>, arts: seq<Artifacts>, model: Model, q: nat)
    requires InStageOrder(trace) && Threaded(trace, arts, BuiltIn(model)) && 6 * q + 3 < |trace|
    ensures Text(arts[6 * q + 4], "review_text")
            == model("review",
                     [Text(arts[6 * q], "plan_text"),
                      Text(arts[6 * q + 1], "design_text"),
                      Text(arts[6 * q + 2], "implementation_text"),
                      Text(arts[6 * q + 3], "test_text")],
                     6 * q + 3)
  {
    ReviewStage();
    Kept(trace, arts, model, q, 0, 3, "plan_text");
    Kept(trace, arts, model, q, 1, 3, "design_text");
    Kept(trace, arts, model, q, 2, 3, "implementation_text");
    ValuesAre(arts[6 * q + 3], ["plan_text", "design_text", "implementation_text", "test_text"],
              [Text(arts[6 * q], "plan_text"),
               Text(arts[6 * q + 1], "design_text"),
               Text(arts[6 * q + 2], "implementation_text"),
               Text(arts[6 * q + 3], "test_text")]);
    Stored(trace, arts, model, q, 3, "review");
  }

  lemma ReplanningStage()
    ensures Name(5) == "replanning" && Product("replanning") == "plan_text"
    ensures Reads("replanning") == ["run_prompt", "review_text"]
  {
  }

  /** The plan the next iteration begins with answers the prompt and that review. */
  lemma ReplanningFlow(trace: seq<Letter>, arts: seq<Artifacts>, model: Model, q: nat)
    requires InStageOrder(trace) && Threaded(trace, arts, BuiltIn(model)) && 6 * q + 5 < |trace|
    ensures Text(arts[6 * q + 6], "plan_text")
            == model("replanning",
                     [Text(arts[6 * q], "run_prompt"),
                      Text(arts[6 * q + 4], "review_text")],
                     6 * q + 5)
  {
    ReplanningStage();
    Kept(trace, arts, model, q, 0, 5, "run_prompt");
    Kept(trace, arts, model, q, 4, 5, "review_text");
    ValuesAre(arts[6 * q + 5], ["run_prompt", "review_text"],
              [Text(arts[6 * q], "run_prompt"),
               Text(arts[6 * q + 4], "review_text")]);
    Stored(trace, arts, model, q, 5, "replanning");
  }

  // ---------------------------------------------------------------- the gate of generate_code

  lemma ReviewPosition(q: nat)
    ensures Origin(6 * q + 5, "review_text") == Some(6 * q + 3)
    ensures (6 * q + 3) % 6 == 3 && (6 * q + 3) / 6 == q
  {
    StageOf(6 * q, 5);
    StageOf(6 * q, 3);
  }

  lemma GateReads(p: Pipeline, arts: seq<Artifacts>, concerns: string -> bool, maxIterations: nat, k: nat)
    requires |Word(p, k)| < |arts|
    ensures GoesBack(p, arts, concerns, maxIterations, k)
            <==> k < maxIterations && concerns(Text(arts[|Word(p, k)|], "review_text"))
  {
  }

  /** In generate_code the gate of iteration `k` sends the run back if and only if `k` is below the limit and
      the answer of that iteration's review call raises a concern. */
  lemma GateJudgesReview(trace: seq<Letter>, arts: seq<Artifacts>, model: Model, concerns: string -> bool,
                         maxIterations: nat, n: nat, k: nat)
    requires 1 <= k && 1 <= n && trace <= Word(Separate(GENERATE_CODE), n)
    requires Threaded(trace, arts, BuiltIn(model)) && |Word(Separate(GENERATE_CODE), k)| <= |trace|
    ensures 6 * (k - 1) + 3 < |trace| && trace[6 * (k - 1) + 3] == ("review", k)
    ensures GoesBack(Separate(GENERATE_CODE), arts, concerns, maxIterations, k)
            <==> k < maxIterations && concerns(Answer(arts, model, 6 * (k - 1) + 3))
  {
    GenerateCodeStages();
    SixPerIteration(Separate(GENERATE_CODE), k);
    WordInStageOrder(trace, n);
    GateAnswer(Separate(GENERATE_CODE), trace, arts, model, concerns, maxIterations, k);
  }

  lemma GateAnswer(p: Pipeline, trace: seq<Letter>, arts: seq<Artifacts>, model: Model, concerns: string -> bool,
                   maxIterations: nat, k: nat)
    requires 1 <= k && |Word(p, k)| == 6 * (k - 1) + 5 <= |trace|
    requires InStageOrder(trace) && Threaded(trace, arts, BuiltIn(model))
    ensures trace[6 * (k - 1) + 3] == ("review", k)
    ensures GoesBack(p, arts, concerns, maxIterations, k)
            <==> k < maxIterations && concerns(Answer(arts, model, 6 * (k - 1) + 3))
  {
    var m: nat := 6 * (k - 1) + 5;
    ReviewPosition(k - 1);
    LastWritten(trace, arts, model, m, "review_text");
    GateReads(p, arts, concerns, maxIterations, k);
    ReviewLetter(trace, k - 1);
  }

  lemma ReviewLetter(trace: seq<Letter>, q: nat)
    requires InStageOrder(trace) && 6 * q + 3 < |trace|
    ensures trace[6 * q + 3] == ("review", q + 1)
  {
    StageOf(6 * q, 3);
    var m: nat := 6 * q + 3;
    assert trace[m] == (Name(m % 6), m / 6 + 1);
  }

  /** A completed generate_code run of `k` iterations has found nothing in seven checks of each: two with the
      design, one after each later stage and each replanning, and the last one at the end. */
  lemma {:induction false} GenerateCodeChecks(k: nat)
    requires 1 <= k
    ensures |Separate(GENERATE_CODE).core| == 5 && ChecksUpTo(Separate(GENERATE_CODE), k, 5) == 7 * k - 1
  {
    var p := Separate(GENERATE_CODE);
    GenerateCodeStages();
    assert p.core[..5] == p.core;
    CoreChecks(p);
    ChecksGrow(p, k);
  }

  lemma CoreChecks(p: Pipeline)
    requires p.core == GENERATE_CODE[..5]
    ensures ChecksOf(p.core) == 6
  {
    var c := p.core;
    assert ChecksOf(c[..0]) == 0;
    assert c[..1][..0] == c[..0] && c[..2][..1] == c[..1] && c[..3][..2] == c[..2];
    assert c[..4][..3] == c[..3] && c[..5][..4] == c[..4] && c[..5] == c;
    assert ChecksOf(c[..1]) == 2;
    assert ChecksOf(c[..2]) == 3;
    assert ChecksOf(c[..3]) == 4;
    assert ChecksOf(c[..4]) == 5;
  }

  lemma {:induction false} ChecksGrow(p: Pipeline, k: nat)
    requires 1 <= k && ChecksOf(p.core) == 6 && p.replan != [] && p.replan[0].checksAfter
    ensures ChecksBefore(p, k) == 7 * (k - 1)
  {
    if k > 1 {
      ChecksGrow(p, k - 1);
    }
  }
}
