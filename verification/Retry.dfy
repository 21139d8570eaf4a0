/** Retrying a provider call: the shared sliding-window budget and the retry loop
    (src/mergemate/infrastructure/llm/gateway.py). Times are seconds on a monotone clock. */
module Retry {
  import opened Wrappers

  // ---------------------------------------------------------------- the budget, as a value

  /** `list` is what the budget keeps; `history` is every retry ever recorded; `clock` is the last time
      any caller looked at. */
  datatype Budget = Budget(list: seq<real>, history: seq<real>, clock: real)

  /** What any caller can do in one uninterrupted piece of the event loop. */
  datatype Op =
    | Look(now: real)                          // retry_count, or can_retry without a record
    | Attempt(checked: real, recorded: real)   // can_retry, and record if it said yes

  function Pruned(list: seq<real>, cutoff: real): seq<real> {
    if list != [] && list[0] < cutoff then Pruned(list[1..], cutoff) else list
  }

  function Swept(b: Budget, now: real, window: nat): Budget {
    Budget(Pruned(b.list, now - window as real), b.history, now)
  }

  function Apply(b: Budget, op: Op, window: nat, maxRetries: nat): Budget {
    match op
    case Look(now) => Swept(b, now, window)
    case Attempt(checked, recorded) =>
      var s := Swept(b, checked, window);
      if |s.list| < maxRetries then Budget(s.list + [recorded], s.history + [recorded], recorded) else s
  }

  ghost predicate Forward(b: Budget, op: Op) {
    match op
    case Look(now) => b.clock <= now
    case Attempt(checked, recorded) => b.clock <= checked <= recorded
  }

  /** The budget after `ops`, by any number of interleaved callers. */
  function RunOf(ops: seq<Op>, start: real, window: nat, maxRetries: nat): Budget
    decreases |ops|
  {
    if ops == [] then Budget([], [], start)
    else Apply(RunOf(ops[..|ops| - 1], start, window, maxRetries), ops[|ops| - 1], window, maxRetries)
  }

  ghost predicate MonotoneClock(ops: seq<Op>, start: real, window: nat, maxRetries: nat)
    decreases |ops|
  {
    ops == [] || (
      && MonotoneClock(ops[..|ops| - 1], start, window, maxRetries)
      && Forward(RunOf(ops[..|ops| - 1], start, window, maxRetries), ops[|ops| - 1]))
  }

  // ---------------------------------------------------------------- its invariant

  ghost predicate Sorted(h: seq<real>) {
    forall i, j :: 0 <= i < j < |h| ==> h[i] <= h[j]
  }

  /** The list is the part of the history not swept yet; what is gone is older than the window. */
  ghost predicate KeepsSuffix(b: Budget, window: nat) {
    && |b.list| <= |b.history|
    && b.list == b.history[|b.history| - |b.list|..]
    && (forall i :: 0 <= i < |b.history| - |b.list| ==> b.history[i] < b.clock - window as real)
  }

  /** Any `maxRetries + 1` consecutive records span more than the window. */
  ghost predicate Spread(h: seq<real>, window: nat, maxRetries: nat) {
    forall i, j :: 0 <= i && j == i + maxRetries < |h| ==> h[j] - h[i] > window as real
  }

  ghost predicate Inv(b: Budget, window: nat, maxRetries: nat) {
    && Sorted(b.history)
    && (forall i :: 0 <= i < |b.history| ==> b.history[i] <= b.clock)
    && KeepsSuffix(b, window)
    && Spread(b.history, window, maxRetries)
  }

  lemma {:induction false} PrunedIsSuffix(list: seq<real>, cutoff: real)
    ensures |Pruned(list, cutoff)| <= |list|
    ensures Pruned(list, cutoff) == list[|list| - |Pruned(list, cutoff)|..]
    ensures forall i :: 0 <= i < |list| - |Pruned(list, cutoff)| ==> list[i] < cutoff
    ensures Pruned(list, cutoff) != [] ==> Pruned(list, cutoff)[0] >= cutoff
  {
    if list != [] && list[0] < cutoff {
      PrunedIsSuffix(list[1..], cutoff);
      assert forall i :: 1 <= i < |list| ==> list[i] == list[1..][i - 1];
    }
  }

  lemma SweepKeepsInv(b: Budget, now: real, window: nat, maxRetries: nat)
    requires Inv(b, window, maxRetries) && b.clock <= now
    ensures Inv(Swept(b, now, window), window, maxRetries)
  {
    PrunedIsSuffix(b.list, now - window as real);
    var s := Swept(b, now, window);
    var gone := |b.history| - |b.list|;
    forall i | 0 <= i < |s.history| - |s.list|
      ensures s.history[i] < now - window as real
    {
      if i >= gone {
        assert b.history[i] == b.list[i - gone];
      }
    }
  }

  lemma RecordKeepsInv(s: Budget, at: real, window: nat, maxRetries: nat)
    requires Inv(s, window, maxRetries) && s.clock <= at && |s.list| < maxRetries
    ensures Inv(Budget(s.list + [at], s.history + [at], at), window, maxRetries)
  {
    var h := s.history + [at];
    forall i, j | 0 <= i && j == i + maxRetries < |h|
      ensures h[j] - h[i] > window as real
    {
      if j == |s.history| {
        assert i < |s.history| - |s.list|;
      }
    }
  }

  lemma {:induction false} InvOfRun(ops: seq<Op>, start: real, window: nat, maxRetries: nat)
    requires MonotoneClock(ops, start, window, maxRetries)
    ensures Inv(RunOf(ops, start, window, maxRetries), window, maxRetries)
    decreases |ops|
  {
    if ops != [] {
      InvOfRun(ops[..|ops| - 1], start, window, maxRetries);
      var b, op := RunOf(ops[..|ops| - 1], start, window, maxRetries), ops[|ops| - 1];
      match op
      case Look(now) => SweepKeepsInv(b, now, window, maxRetries);
      case Attempt(checked, recorded) =>
        SweepKeepsInv(b, checked, window, maxRetries);
        var s := Swept(b, checked, window);
        if |s.list| < maxRetries {
          RecordKeepsInv(s, recorded, window, maxRetries);
        }
    }
  }

  // ---------------------------------------------------------------- the bound over the full history

  /** How many entries of `h` lie in the closed interval from `lo` to `hi`. */
  function CountIn(h: seq<real>, lo: real, hi: real): nat {
    if h == [] then 0 else CountIn(h[1..], lo, hi) + if lo <= h[0] <= hi then 1 else 0
  }

  lemma {:induction false} CountWhenFirstInside(h: seq<real>, lo: real, hi: real)
    requires Sorted(h) && h != [] && lo <= h[0]
    ensures 0 <= CountIn(h, lo, hi) <= |h|
    ensures CountIn(h, lo, hi) > 0 ==> h[CountIn(h, lo, hi) - 1] <= hi
    decreases |h|
  {
    if |h| > 1 {
      CountWhenFirstInside(h[1..], lo, hi);
    } else {
      assert h[1..] == [];
    }
  }

  lemma {:induction false} SpreadBoundsCount(h: seq<real>, lo: real, window: nat, maxRetries: nat)
    requires Sorted(h) && Spread(h, window, maxRetries)
    ensures CountIn(h, lo, lo + window as real) <= maxRetries
    decreases |h|
  {
    if h == [] {
    } else if h[0] < lo {
      assert forall i :: 0 <= i < |h[1..]| ==> h[1..][i] == h[i + 1];
      SpreadBoundsCount(h[1..], lo, window, maxRetries);
    } else {
      CountWhenFirstInside(h, lo, lo + window as real);
      assert |h| > maxRetries ==> h[0 + maxRetries] - h[0] > window as real;
    }
  }

  lemma {:induction false} CountAppends(a: seq<real>, b: seq<real>, lo: real, hi: real)
    ensures CountIn(a + b, lo, hi) == CountIn(a, lo, hi) + CountIn(b, lo, hi)
  {
    if a == [] {
      assert a + b == b;
    } else {
      assert (a + b)[0] == a[0] && (a + b)[1..] == a[1..] + b;
      CountAppends(a[1..], b, lo, hi);
    }
  }

  lemma {:induction false} CountUniform(h: seq<real>, lo: real, hi: real, inside: bool)
    requires forall i :: 0 <= i < |h| ==> (lo <= h[i] <= hi) == inside
    ensures CountIn(h, lo, hi) == if inside then |h| else 0
  {
    if h != [] {
      assert forall i :: 0 <= i < |h[1..]| ==> h[1..][i] == h[i + 1];
      CountUniform(h[1..], lo, hi, inside);
    }
  }

  lemma SuffixCounts(h: seq<real>, n: nat, lo: real, hi: real)
    requires n <= |h|
    requires forall i :: 0 <= i < n ==> h[i] < lo
    requires forall i :: n <= i < |h| ==> lo <= h[i] <= hi
    ensures CountIn(h, lo, hi) == |h| - n
  {
    CountUniform(h[..n], lo, hi, false);
    CountUniform(h[n..], lo, hi, true);
    CountAppends(h[..n], h[n..], lo, hi);
    assert h == h[..n] + h[n..];
  }

  /** What a sweep keeps is not older than the cutoff. */
  lemma SweptIsRecent(b: Budget, now: real, window: nat, maxRetries: nat, i: nat)
    requires Inv(b, window, maxRetries) && b.clock <= now
    requires |b.history| - |Swept(b, now, window).list| <= i < |b.history|
    ensures now - window as real <= b.history[i] <= now
  {
    var list, cutoff := b.list, now - window as real;
    PrunedIsSuffix(list, cutoff);
    var kept := Pruned(list, cutoff);
    var first := |b.history| - |kept|;
    assert kept[0] == list[|list| - |kept|] == b.history[first];
    assert b.history[first] <= b.history[i];
  }

  /** After a sweep the list holds as many entries as the whole history has in the window up to now. */
  lemma SweptCounts(b: Budget, now: real, window: nat, maxRetries: nat)
    requires Inv(b, window, maxRetries) && b.clock <= now
    ensures |Swept(b, now, window).list| == CountIn(b.history, now - window as real, now)
  {
    SweepKeepsInv(b, now, window, maxRetries);
    var gone := |b.history| - |Swept(b, now, window).list|;
    forall i | gone <= i < |b.history| ensures now - window as real <= b.history[i] <= now {
      SweptIsRecent(b, now, window, maxRetries, i);
    }
    SuffixCounts(b.history, gone, now - window as real, now);
  }

  /** In any monotone run a caller's retry is granted, and recorded, if and only if fewer than `maxRetries` of
      all the retries ever recorded lie in the window up to its check. */
  lemma GrantedIff(ops: seq<Op>, start: real, window: nat, maxRetries: nat, checked: real, recorded: real)
    requires MonotoneClock(ops, start, window, maxRetries)
    requires Forward(RunOf(ops, start, window, maxRetries), Attempt(checked, recorded))
    ensures var before := RunOf(ops, start, window, maxRetries).history;
            var after := RunOf(ops + [Attempt(checked, recorded)], start, window, maxRetries).history;
            after == if CountIn(before, checked - window as real, checked) < maxRetries then before + [recorded]
                     else before
  {
    InvOfRun(ops, start, window, maxRetries);
    SweptCounts(RunOf(ops, start, window, maxRetries), checked, window, maxRetries);
    var more := ops + [Attempt(checked, recorded)];
    assert more[..|more| - 1] == ops && more[|more| - 1] == Attempt(checked, recorded);
  }

  /** However many callers interleave, every closed interval as long as the window holds at most
      `maxRetries` of all the retries ever recorded, and the pruned list is what remains of that history. */
  lemma WindowBound(ops: seq<Op>, start: real, window: nat, maxRetries: nat, lo: real)
    requires MonotoneClock(ops, start, window, maxRetries)
    ensures var b := RunOf(ops, start, window, maxRetries);
            CountIn(b.history, lo, lo + window as real) <= maxRetries && KeepsSuffix(b, window)
  {
    InvOfRun(ops, start, window, maxRetries);
    SpreadBoundsCount(RunOf(ops, start, window, maxRetries).history, lo, window, maxRetries);
  }

  /** The shared budget object. */
  class RetryBudget {
    const windowSeconds: nat
    const maxRetries: nat
    var timestamps: seq<real>
    ghost var history: seq<real>
    ghost var clock: real

    ghost function State(): Budget
      reads this
    {
      Budget(timestamps, history, clock)
    }

    ghost predicate Valid()
      reads this
    {
      Inv(State(), windowSeconds, maxRetries)
    }

    constructor (windowSeconds: nat, maxRetries: nat, ghost start: real)
      ensures Valid() && State() == RunOf([], start, windowSeconds, maxRetries)
      ensures this.windowSeconds == windowSeconds && this.maxRetries == maxRetries
    {
      this.windowSeconds, this.maxRetries := windowSeconds, maxRetries;
      timestamps, history, clock := [], [], start;
    }

    method Sweep(now: real)
      requires Valid() && clock <= now
      modifies this
      ensures Valid() && State() == Swept(old(State()), now, windowSeconds)
    {
      var cutoff := now - windowSeconds as real;
      ghost var before := State();
      while timestamps != [] && timestamps[0] < cutoff
        invariant Pruned(timestamps, cutoff) == Pruned(before.list, cutoff)
        invariant history == before.history
        decreases |timestamps|
      {
        timestamps := timestamps[1..];
      }
      clock := now;
      SweepKeepsInv(before, now, windowSeconds, maxRetries);
    }

    method CanRetry(now: real) returns (yes: bool)
      requires Valid() && clock <= now
      modifies this
      ensures Valid() && State() == Swept(old(State()), now, windowSeconds)
      ensures yes <==> |timestamps| < maxRetries
      ensures yes <==> CountIn(old(history), now - windowSeconds as real, now) < maxRetries
      ensures history == old(history)
    {
      SweptCounts(State(), now, windowSeconds, maxRetries);
      Sweep(now);
      yes := |timestamps| < maxRetries;
    }

    /** with_retry's use of the budget: ask, and record at once if allowed. */
    method TryRecord(checked: real, recorded: real) returns (yes: bool)
      requires Valid() && clock <= checked <= recorded
      modifies this
      ensures Valid() && State() == Apply(old(State()), Attempt(checked, recorded), windowSeconds, maxRetries)
      ensures yes <==> CountIn(old(history), checked - windowSeconds as real, checked) < maxRetries
      ensures history == if yes then old(history) + [recorded] else old(history)
    {
      yes := CanRetry(checked);
      if yes {
        RecordKeepsInv(State(), recorded, windowSeconds, maxRetries);
        timestamps := timestamps + [recorded];
        history, clock := history + [recorded], recorded;
      }
    }
  }

  // ---------------------------------------------------------------- the retry loop

  datatype Failure =
    | RateLimited(retryAfter: Option<real>)   // HTTP 429
    | Transient                               // any other retryable error
    | Fatal                                   // not retryable

  datatype Outcome = Success(text: string) | Failed(error: Failure)

  datatype Result =
    | Returned(text: string)
    | Reraised         // the last error was not retryable
    | Exhausted        // all attempts used
    | CircuitOpen      // the budget refused

  /** A sleep before the next call. */
  datatype Sleep = Honoured(seconds: real) | BackOff(seconds: real)

  function Pow2(n: nat): nat {
    if n == 0 then 1 else 2 * Pow2(n - 1)
  }

  function Min(a: real, b: real): real {
    if a <= b then a else b
  }

  function Cap(attempt: nat, baseDelay: real, maxDelay: real): real {
    Min(maxDelay, baseDelay * Pow2(attempt) as real)
  }

  /** `random.uniform(0, cap)`, where `fraction` is the draw from the unit interval. */
  function FullJitterDelay(attempt: nat, baseDelay: real, maxDelay: real, fraction: real): (d: real)
    requires baseDelay > 0.0 && maxDelay > 0.0 && 0.0 <= fraction <= 1.0
    ensures 0.0 <= d <= Cap(attempt, baseDelay, maxDelay)
  {
    CapPositive(attempt, baseDelay, maxDelay);
    FractionFits(Cap(attempt, baseDelay, maxDelay), fraction);
    Cap(attempt, baseDelay, maxDelay) * fraction
  }

  /** The draw decides where between zero and the cap: every delay there has one. */
  lemma JitterReaches(attempt: nat, baseDelay: real, maxDelay: real, delay: real)
    requires baseDelay > 0.0 && maxDelay > 0.0 && 0.0 <= delay <= Cap(attempt, baseDelay, maxDelay)
    ensures exists fraction ::
              0.0 <= fraction <= 1.0 && FullJitterDelay(attempt, baseDelay, maxDelay, fraction) == delay
  {
    CapPositive(attempt, baseDelay, maxDelay);
    var cap := Cap(attempt, baseDelay, maxDelay);
    var fraction := delay / cap;
    assert cap * fraction == delay;
    assert 0.0 <= fraction <= 1.0;
    assert FullJitterDelay(attempt, baseDelay, maxDelay, fraction) == delay;
  }

  /** The cap starts at the base delay and doubles with every attempt, up to the maximum. */
  lemma CapDoubles(attempt: nat, baseDelay: real, maxDelay: real)
    requires baseDelay > 0.0 && maxDelay > 0.0
    ensures Cap(0, baseDelay, maxDelay) == if baseDelay <= maxDelay then baseDelay else maxDelay
    ensures var doubled := 2.0 * Cap(attempt, baseDelay, maxDelay);
            Cap(attempt + 1, baseDelay, maxDelay) == if doubled <= maxDelay then doubled else maxDelay
  {
    var p := Pow2(attempt) as real;
    PowPositive(attempt);
    assert Pow2(attempt + 1) as real == 2.0 * p;
    assert baseDelay * (2.0 * p) == 2.0 * (baseDelay * p);
  }

  lemma FractionFits(cap: real, fraction: real)
    requires cap > 0.0 && 0.0 <= fraction <= 1.0
    ensures 0.0 <= cap * fraction <= cap
  {
  }

  predicate Retryable(o: Outcome) {
    o.Failed? && !o.error.Fatal?
  }

  predicate HonoursHeader(o: Outcome) {
    o.Failed? && o.error.RateLimited? && o.error.retryAfter.Some?
  }

  /** The call of attempt `k` is followed by another one. */
  predicate GoesOn(call: nat -> Outcome, grant: nat -> bool, maxRetries: nat, k: nat) {
    Retryable(call(k)) && k < maxRetries && (HonoursHeader(call(k)) || grant(k))
  }

  predicate SleepFits(call: nat -> Outcome, grant: nat -> bool, baseDelay: real, maxDelay: real, k: nat, sleep: Sleep) {
    match sleep
    case Honoured(d) => HonoursHeader(call(k)) && d == call(k).error.retryAfter.value
    case BackOff(d) => !HonoursHeader(call(k)) && grant(k) && 0.0 <= d <= Cap(k, baseDelay, maxDelay)
  }

  /** `call(k)` is how the k-th call ends, `grant(k)` what the budget answers then, `draw(k)` the random
      fraction of the back-off. */
  method WithRetry(call: nat -> Outcome, grant: nat -> bool, draw: nat -> real,
                   maxRetries: nat, baseDelay: real, maxDelay: real)
    returns (result: Result, calls: nat, sleeps: seq<Sleep>)
    requires baseDelay > 0.0 && maxDelay > 0.0 && forall k :: 0.0 <= draw(k) <= 1.0
    ensures 1 <= calls <= maxRetries + 1 && |sleeps| == calls - 1
    ensures forall k :: 0 <= k < calls - 1 ==>
              && call(k).Failed? && !call(k).error.Fatal?
              && if call(k).error.RateLimited? && call(k).error.retryAfter.Some?
                 then sleeps[k] == Honoured(call(k).error.retryAfter.value)
                 else grant(k) && sleeps[k] == BackOff(FullJitterDelay(k, baseDelay, maxDelay, draw(k)))
    ensures match result
            case Returned(text) => call(calls - 1) == Success(text)
            case Reraised => call(calls - 1) == Failed(Fatal)
            case Exhausted =>
              call(calls - 1).Failed? && !call(calls - 1).error.Fatal? && calls == maxRetries + 1
            case CircuitOpen =>
              && call(calls - 1).Failed? && !call(calls - 1).error.Fatal? && calls <= maxRetries
              && !grant(calls - 1)
              && (call(calls - 1).error.RateLimited? ==> call(calls - 1).error.retryAfter.None?)
    ensures forall k :: 0 <= k < calls - 1 ==> GoesOn(call, grant, maxRetries, k)
                                               && SleepFits(call, grant, baseDelay, maxDelay, k, sleeps[k])
    ensures !GoesOn(call, grant, maxRetries, calls - 1) && WithinCaps(sleeps, baseDelay, maxDelay)
  {
    var attempt := 0;
    sleeps := [];
    while true
      invariant 0 <= attempt <= maxRetries && |sleeps| == attempt
      invariant forall k :: 0 <= k < attempt ==> GoesOn(call, grant, maxRetries, k)
                                                 && SleepFits(call, grant, baseDelay, maxDelay, k, sleeps[k])
      invariant forall k :: 0 <= k < attempt ==>
                  && call(k).Failed? && !call(k).error.Fatal?
                  && if call(k).error.RateLimited? && call(k).error.retryAfter.Some?
                     then sleeps[k] == Honoured(call(k).error.retryAfter.value)
                     else grant(k) && sleeps[k] == BackOff(FullJitterDelay(k, baseDelay, maxDelay, draw(k)))
      decreases maxRetries - attempt
    {
      calls := attempt + 1;
      var outcome := call(attempt);
      if outcome.Success? {
        return Returned(outcome.text), calls, sleeps;
      }
      if !Retryable(outcome) {
        return Reraised, calls, sleeps;
      }
      if attempt >= maxRetries {
        return Exhausted, calls, sleeps;
      }
      if HonoursHeader(outcome) {
        sleeps := sleeps + [Honoured(outcome.error.retryAfter.value)];
      } else {
        if !grant(attempt) {
          return CircuitOpen, calls, sleeps;
        }
        sleeps := sleeps + [BackOff(FullJitterDelay(attempt, baseDelay, maxDelay, draw(attempt)))];
      }
      attempt := attempt + 1;
    }
  }

  lemma {:induction false} PowPositive(n: nat)
    ensures Pow2(n) >= 1
  {
    if n > 0 {
      PowPositive(n - 1);
    }
  }

  lemma CapPositive(attempt: nat, baseDelay: real, maxDelay: real)
    requires baseDelay > 0.0 && maxDelay > 0.0
    ensures Cap(attempt, baseDelay, maxDelay) > 0.0
  {
    PowPositive(attempt);
    assert baseDelay * Pow2(attempt) as real >= baseDelay;
  }

  ghost predicate FirstSuccessAt(call: nat -> Outcome, grant: nat -> bool, maxRetries: nat, n: nat) {
    call(n).Success? && forall k :: 0 <= k < n ==> GoesOn(call, grant, maxRetries, k)
  }

  /** The loop refines "first success": it returns a text exactly if some call within the attempts
      succeeds and every call before it failed in a way the loop goes on from. */
  lemma {:induction false} FirstSuccess(call: nat -> Outcome, grant: nat -> bool, maxRetries: nat, calls: nat)
    requires 1 <= calls <= maxRetries + 1 && !GoesOn(call, grant, maxRetries, calls - 1)
    requires forall k :: 0 <= k < calls - 1 ==> GoesOn(call, grant, maxRetries, k)
    ensures call(calls - 1).Success? <==>
              exists n: nat :: n <= maxRetries && FirstSuccessAt(call, grant, maxRetries, n)
    ensures forall n: nat :: n <= maxRetries && FirstSuccessAt(call, grant, maxRetries, n) ==> n == calls - 1
  {
    var last: nat := calls - 1;
    assert !GoesOn(call, grant, maxRetries, last);
    forall n: nat | n <= maxRetries && FirstSuccessAt(call, grant, maxRetries, n)
      ensures n == last
    {
      assert n < last ==> GoesOn(call, grant, maxRetries, n);
    }
    assert call(last).Success? ==> FirstSuccessAt(call, grant, maxRetries, last);
  }

  // ---------------------------------------------------------------- how long the loop sleeps

  function BackOffs(sleeps: seq<Sleep>): nat {
    if sleeps == [] then 0
    else BackOffs(sleeps[..|sleeps| - 1]) + if sleeps[|sleeps| - 1].BackOff? then 1 else 0
  }

  function BackOffTime(sleeps: seq<Sleep>): real {
    if sleeps == [] then 0.0
    else BackOffTime(sleeps[..|sleeps| - 1]) + BackedOff(sleeps[|sleeps| - 1])
  }

  function BackedOff(sleep: Sleep): real {
    if sleep.BackOff? then sleep.seconds else 0.0
  }

  /** The time is that of the back-offs alone, one after the other. */
  lemma {:induction false} BackOffTimeAppends(a: seq<Sleep>, b: seq<Sleep>)
    ensures BackOffTime(a + b) == BackOffTime(a) + BackOffTime(b)
    ensures BackOffs(a + b) == BackOffs(a) + BackOffs(b)
    decreases |b|
  {
    if b == [] {
      assert a + b == a;
    } else {
      BackOffTimeAppends(a, b[..|b| - 1]);
      assert (a + b)[..|a + b| - 1] == a + b[..|b| - 1];
    }
  }

  lemma BackOffTimeOfOne(seconds: real)
    ensures BackOffTime([BackOff(seconds)]) == seconds && BackOffs([BackOff(seconds)]) == 1
    ensures BackOffTime([Honoured(seconds)]) == 0.0 && BackOffs([Honoured(seconds)]) == 0
  {
    assert [BackOff(seconds)][..0] == [] && [Honoured(seconds)][..0] == [];
  }

  ghost predicate WithinCaps(sleeps: seq<Sleep>, baseDelay: real, maxDelay: real) {
    forall k :: 0 <= k < |sleeps| && sleeps[k].BackOff? ==> sleeps[k].seconds <= Cap(k, baseDelay, maxDelay)
  }

  lemma {:induction false} EachAtMost(sleeps: seq<Sleep>, delay: real)
    requires forall k :: 0 <= k < |sleeps| && sleeps[k].BackOff? ==> sleeps[k].seconds <= delay
    ensures BackOffTime(sleeps) <= Times(BackOffs(sleeps), delay)
  {
    if sleeps != [] {
      EachAtMost(sleeps[..|sleeps| - 1], delay);
    }
  }

  /** Total back-off is at most `maxDelay` for each budgeted retry. */
  lemma {:induction false} BackOffPerRetry(sleeps: seq<Sleep>, baseDelay: real, maxDelay: real)
    requires WithinCaps(sleeps, baseDelay, maxDelay)
    ensures BackOffTime(sleeps) <= BackOffs(sleeps) as real * maxDelay
  {
    EachAtMost(sleeps, maxDelay);
    TimesIsProduct(BackOffs(sleeps), maxDelay);
  }

  function Times(n: nat, delay: real): real {
    if n == 0 then 0.0 else Times(n - 1, delay) + delay
  }

  lemma {:induction false} TimesIsProduct(n: nat, delay: real)
    ensures Times(n, delay) == n as real * delay
  {
    if n > 0 {
      TimesIsProduct(n - 1, delay);
      assert n as real == (n - 1) as real + 1.0;
      assert ((n - 1) as real + 1.0) * delay == (n - 1) as real * delay + delay;
    }
  }

  /** A bound for the n-th sleep, by its position, adds up to a bound for all of them. */
  function SumOf(bound: nat -> real, n: nat): real {
    if n == 0 then 0.0 else SumOf(bound, n - 1) + bound(n - 1)
  }

  ghost predicate AllWithin(sleeps: seq<Sleep>, bound: nat -> real) {
    forall k :: 0 <= k < |sleeps| ==> BackedOff(sleeps[k]) <= bound(k)
  }

  lemma {:induction false} EachWithin(sleeps: seq<Sleep>, bound: nat -> real)
    requires AllWithin(sleeps, bound)
    ensures BackOffTime(sleeps) <= SumOf(bound, |sleeps|)
  {
    if sleeps != [] {
      EachWithin(sleeps[..|sleeps| - 1], bound);
    }
  }

  function Exponential(baseDelay: real): nat -> real {
    (k: nat) => baseDelay * Pow2(k) as real
  }

  lemma {:induction false} ExponentialSum(baseDelay: real, n: nat)
    ensures SumOf(Exponential(baseDelay), n) == baseDelay * (Pow2(n) as real - 1.0)
  {
    if n > 0 {
      ExponentialSum(baseDelay, n - 1);
      Doubling(baseDelay, Pow2(n - 1) as real);
    }
  }

  lemma Doubling(base: real, p: real)
    ensures base * (p - 1.0) + base * p == base * (2.0 * p - 1.0)
  {
  }

  lemma BackedOffWithin(sleeps: seq<Sleep>, k: nat, baseDelay: real, maxDelay: real)
    requires baseDelay > 0.0 && k < |sleeps| && WithinCaps(sleeps, baseDelay, maxDelay)
    ensures BackedOff(sleeps[k]) <= Exponential(baseDelay)(k)
  {
    PowPositive(k);
    assert 0.0 <= baseDelay * Pow2(k) as real;
  }

  lemma CapsWithin(sleeps: seq<Sleep>, baseDelay: real, maxDelay: real)
    requires baseDelay > 0.0 && WithinCaps(sleeps, baseDelay, maxDelay)
    ensures AllWithin(sleeps, Exponential(baseDelay))
  {
    forall k | 0 <= k < |sleeps| ensures BackedOff(sleeps[k]) <= Exponential(baseDelay)(k) {
      BackedOffWithin(sleeps, k, baseDelay, maxDelay);
    }
  }

  /** Total back-off over `m` sleeps is at most `base * (2^m - 1)`. */
  lemma {:induction false} BackOffGeometric(sleeps: seq<Sleep>, baseDelay: real, maxDelay: real)
    requires baseDelay > 0.0 && maxDelay > 0.0 && WithinCaps(sleeps, baseDelay, maxDelay)
    ensures BackOffTime(sleeps) <= baseDelay * (Pow2(|sleeps|) as real - 1.0)
  {
    CapsWithin(sleeps, baseDelay, maxDelay);
    EachWithin(sleeps, Exponential(baseDelay));
    ExponentialSum(baseDelay, |sleeps|);
  }
}
