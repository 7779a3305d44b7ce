/** The durable call slot and its retry policy (src/core/call/slot.ts, src/core/call/retry.ts). */
module CallSlot {
  import opened Prelude

  // ---- Retry policy ----

  datatype BackoffStrategy = Fibonacci | Exponential(factor: real) | Fixed

  datatype RetryPolicy = RetryPolicy(maxAttempts: int, initialDelayMs: real, maxDelayMs: real,
                                     strategy: BackoffStrategy)

  method FibonacciOf(n: int) returns (b: nat)
    ensures b == Fib(n)
  {
    if n <= 2 {
      return 1;
    }
    var a := 1;
    b := 1;
    var i := 3;
    while i <= n
      invariant 3 <= i <= n + 1
      invariant a == Fib(i - 2) && b == Fib(i - 1)
    {
      var c := a + b;
      a := b;
      b := c;
      i := i + 1;
    }
  }

  function Power(x: real, n: nat): real {
    if n == 0 then 1.0 else x * Power(x, n - 1)
  }

  function RawDelay(p: RetryPolicy, attempt: int): real {
    match p.strategy
    case Fibonacci => Fib(attempt) as real * p.initialDelayMs
    case Exponential(factor) => if attempt < 1 then 0.0 else p.initialDelayMs * Power(factor, attempt - 1)
    case Fixed => p.initialDelayMs
  }

  function DelayFor(p: RetryPolicy, attempt: int): real {
    if attempt < 1 then 0.0 else
      var raw := RawDelay(p, attempt);
      if p.maxDelayMs < raw then p.maxDelayMs else raw
  }

  method Delay(p: RetryPolicy, attempt: int) returns (delay: real)
    ensures delay == DelayFor(p, attempt)
  {
    if attempt < 1 {
      return 0.0;
    }
    var raw;
    match p.strategy {
      case Fibonacci =>
        var f := FibonacciOf(attempt);
        raw := f as real * p.initialDelayMs;
      case Exponential(factor) =>
        raw := p.initialDelayMs * Power(factor, attempt - 1);
      case Fixed =>
        raw := p.initialDelayMs;
    }
    delay := if p.maxDelayMs < raw then p.maxDelayMs else raw;
  }

  lemma {:induction false} FibGrows(n: int)
    requires n >= 1
    ensures 1 <= Fib(n) <= Fib(n + 1)
  {
    if n > 2 {
      FibGrows(n - 1);
      FibGrows(n - 2);
    }
  }

  lemma Scaled(a: real, b: real, x: real)
    requires a <= b && x >= 0.0
    ensures a * x <= b * x
  {
  }

  lemma {:induction false} PowerGrows(x: real, n: nat)
    requires x >= 1.0
    ensures 1.0 <= Power(x, n) <= Power(x, n + 1)
  {
    if n > 0 {
      PowerGrows(x, n - 1);
    }
    Scaled(1.0, x, Power(x, n));
  }

  lemma RawDelaysGrow(p: RetryPolicy, attempt: int)
    requires attempt >= 1 && p.initialDelayMs >= 0.0
    requires p.strategy.Exponential? ==> p.strategy.factor >= 1.0
    ensures RawDelay(p, attempt) <= RawDelay(p, attempt + 1)
  {
    match p.strategy
    case Fibonacci =>
      FibGrows(attempt);
      Scaled(Fib(attempt) as real, Fib(attempt + 1) as real, p.initialDelayMs);
    case Exponential(factor) =>
      PowerGrows(factor, attempt - 1);
      Scaled(Power(factor, attempt - 1), Power(factor, attempt), p.initialDelayMs);
    case Fixed =>
  }

  /** Delays never exceed the cap and, for non-negative initial delays, never shrink: always for Fibonacci
      and fixed backoff, for exponential backoff when the factor is at least 1. */
  lemma DelaysGrowToCap(p: RetryPolicy, attempt: int)
    requires attempt >= 1 && p.initialDelayMs >= 0.0
    requires p.strategy.Exponential? ==> p.strategy.factor >= 1.0
    ensures DelayFor(p, attempt) <= DelayFor(p, attempt + 1) <= p.maxDelayMs
  {
    RawDelaysGrow(p, attempt);
  }

  lemma SumScales(a: real, b: real, x: real)
    ensures (a + b) * x == a * x + b * x
  {
  }

  lemma PowerScales(x: real, factor: real, n: nat)
    ensures x * Power(factor, n + 1) == factor * (x * Power(factor, n))
  {
    assert x * (factor * Power(factor, n)) == factor * (x * Power(factor, n));
  }

  lemma FibonacciRecurs(p: RetryPolicy, attempt: int)
    requires attempt >= 1 && p.strategy.Fibonacci?
    ensures RawDelay(p, attempt + 2) == RawDelay(p, attempt) + RawDelay(p, attempt + 1)
  {
    assert Fib(attempt + 2) == Fib(attempt) + Fib(attempt + 1);
    SumScales(Fib(attempt) as real, Fib(attempt + 1) as real, p.initialDelayMs);
  }

  lemma ExponentialRecurs(p: RetryPolicy, attempt: int)
    requires attempt >= 1 && p.strategy.Exponential?
    ensures RawDelay(p, attempt + 1) == p.strategy.factor * RawDelay(p, attempt)
    ensures RawDelay(p, 1) == p.initialDelayMs
  {
    PowerScales(p.initialDelayMs, p.strategy.factor, attempt - 1);
    FirstPowers(p.strategy.factor);
    assert p.initialDelayMs * 1.0 == p.initialDelayMs;
  }

  lemma FirstFibonacci(p: RetryPolicy)
    requires p.strategy.Fibonacci?
    ensures RawDelay(p, 1) == p.initialDelayMs
  {
    assert 1.0 * p.initialDelayMs == p.initialDelayMs;
  }

  /** How a delay follows from the ones before it, up to the cap: their sum, a multiple, or the same again. */
  lemma DelaysRecur(p: RetryPolicy, attempt: int)
    requires attempt >= 1
    ensures p.strategy.Fibonacci? && DelayFor(p, attempt) < p.maxDelayMs && DelayFor(p, attempt + 1) < p.maxDelayMs ==>
              DelayFor(p, attempt + 2) == Min(DelayFor(p, attempt) + DelayFor(p, attempt + 1), p.maxDelayMs)
    ensures p.strategy.Exponential? && DelayFor(p, attempt) < p.maxDelayMs ==>
              DelayFor(p, attempt + 1) == Min(p.strategy.factor * DelayFor(p, attempt), p.maxDelayMs)
    ensures p.strategy.Fixed? ==> DelayFor(p, attempt + 1) == DelayFor(p, attempt)
    ensures attempt == 1 ==> DelayFor(p, attempt) == Min(p.initialDelayMs, p.maxDelayMs)
    ensures forall none | none < 1 :: DelayFor(p, none) == 0.0
  {
    match p.strategy
    case Fibonacci =>
      FibonacciRecurs(p, attempt);
      FirstFibonacci(p);
    case Exponential(_) => ExponentialRecurs(p, attempt);
    case Fixed =>
  }

  function Min(a: real, b: real): real {
    if b < a then b else a
  }

  lemma FirstDelayShrinks(factor: real, initial: real)
    requires factor < 1.0 && initial > 0.0
    ensures initial * factor < initial
  {
  }

  lemma FirstPowers(x: real)
    ensures Power(x, 0) == 1.0 && Power(x, 1) == x
  {
    assert Power(x, 1) == x * Power(x, 0);
  }

  lemma FirstRawDelays(p: RetryPolicy)
    requires p.strategy.Exponential?
    ensures RawDelay(p, 1) == p.initialDelayMs && RawDelay(p, 2) == p.initialDelayMs * p.strategy.factor
  {
    FirstPowers(p.strategy.factor);
    assert p.initialDelayMs * 1.0 == p.initialDelayMs;
  }

  lemma Shrinks(p: RetryPolicy, first: real, second: real)
    requires RawDelay(p, 1) == first && RawDelay(p, 2) == second && second < first <= p.maxDelayMs
    ensures DelayFor(p, 2) < DelayFor(p, 1)
  {
  }

  lemma SecondDelayIsSmaller(p: RetryPolicy)
    requires p.strategy.Exponential? && p.strategy.factor < 1.0 && 0.0 < p.initialDelayMs <= p.maxDelayMs
    ensures DelayFor(p, 2) < DelayFor(p, 1)
  {
    FirstDelayShrinks(p.strategy.factor, p.initialDelayMs);
    FirstRawDelays(p);
    Shrinks(p, p.initialDelayMs, p.initialDelayMs * p.strategy.factor);
  }

  /** Uncapped at first, exponential backoff grows exactly for factors of at least 1. */
  lemma ExponentialGrowsIff(p: RetryPolicy)
    requires p.strategy.Exponential? && 0.0 < p.initialDelayMs <= p.maxDelayMs
    ensures (forall attempt | attempt >= 1 :: DelayFor(p, attempt) <= DelayFor(p, attempt + 1))
            <==> p.strategy.factor >= 1.0
  {
    if p.strategy.factor >= 1.0 {
      forall attempt | attempt >= 1 ensures DelayFor(p, attempt) <= DelayFor(p, attempt + 1) {
        DelaysGrowToCap(p, attempt);
      }
    } else {
      SecondDelayIsSmaller(p);
      assert !(DelayFor(p, 1) <= DelayFor(p, 1 + 1));
    }
  }

  // ---- The slot ----

  type CallId = nat
  type Response(==, !new)
  type CallError(==, !new)

  datatype Phase =
    | Idle
    | Pending(callId: CallId, attempt: int, startedAt: real)
    | RetryScheduled(callId: CallId, attempt: int, nextAt: real)
    | Succeeded(response: Response, completedAt: real)
    | PermanentFailure(error: CallError)
    | Exhausted(lastError: CallError, totalAttempts: int)

  datatype Event =
    | CallInitiated(callId: CallId, attempt: int, at: real)
    | CallSucceeded(callId: CallId, response: Response, attempt: int, at: real)
    | CallFailed(callId: CallId, error: CallError, attempt: int, nextRetryAt: Option<real>)
    | CallExhausted(callId: CallId, lastError: CallError, totalAttempts: int)

  /** The attempt a result reports is not compared with the pending one. */
  datatype Result = Success(response: Response, attempt: int) | Failure(error: CallError, attempt: int)

  /** A call's policy and which of its errors may be retried. */
  datatype Call = Call(policy: RetryPolicy, retryable: CallError -> bool)

  /** Some attempt is under way, due, or still to be made. */
  predicate IsOpen(phase: Phase) {
    phase.Idle? || phase.Pending? || phase.RetryScheduled?
  }

  function Initiate(callId: CallId, now: real): seq<Event> {
    [CallInitiated(callId, 1, now)]
  }

  function HandleCallback(call: Call, phase: Phase, result: Result, now: real): seq<Event> {
    if !phase.Pending? then []
    else if result.Success? then [CallSucceeded(phase.callId, result.response, phase.attempt, now)]
    else if call.retryable(result.error) && phase.attempt < call.policy.maxAttempts then
      [CallFailed(phase.callId, result.error, phase.attempt, Some(now + DelayFor(call.policy, phase.attempt)))]
    else if !call.retryable(result.error) then [CallFailed(phase.callId, result.error, phase.attempt, None)]
    else [CallExhausted(phase.callId, result.error, phase.attempt)]
  }

  function HandleRetry(phase: Phase, now: real): seq<Event> {
    if !phase.RetryScheduled? then [] else [CallInitiated(phase.callId, phase.attempt + 1, now)]
  }

  function ApplyEvent(phase: Phase, ev: Event): Phase {
    match ev
    case CallInitiated(callId, attempt, at) => Pending(callId, attempt, at)
    case CallSucceeded(_, response, _, at) => Succeeded(response, at)
    case CallFailed(callId, error, attempt, nextRetryAt) =>
      if nextRetryAt.Some? then
        var id := if phase.Pending? || phase.RetryScheduled? then phase.callId else callId;
        RetryScheduled(id, attempt, nextRetryAt.value)
      else PermanentFailure(error)
    case CallExhausted(_, lastError, totalAttempts) => Exhausted(lastError, totalAttempts)
  }

  function ApplyEvents(phase: Phase, events: seq<Event>): Phase {
    if events == [] then phase else ApplyEvent(ApplyEvents(phase, events[..|events| - 1]), events[|events| - 1])
  }

  // ---- Runs ----

  /** The aggregate's events and the phase in memory. */
  datatype Slot = Slot(phase: Phase, log: seq<Event>)

  /** Callbacks may be late, repeated or of any attempt; ticks may come at any time; recovering folds the log. */
  datatype Step = Initiates(callId: CallId, now: real) | Calls(result: Result, now: real) | Ticks(now: real) | Recovers

  function Emitting(call: Call, s: Slot, step: Step): seq<Event> {
    match step
    case Initiates(callId, now) => if s.phase.Idle? then Initiate(callId, now) else []
    case Calls(result, now) => HandleCallback(call, s.phase, result, now)
    case Ticks(now) => HandleRetry(s.phase, now)
    case Recovers => []
  }

  function Stepped(call: Call, s: Slot, step: Step): Slot {
    if step.Recovers? then s.(phase := ApplyEvents(Idle, s.log)) else
      var events := Emitting(call, s, step);
      Slot(ApplyEvents(s.phase, events), s.log + events)
  }

  function Initiated(log: seq<Event>): nat {
    if log == [] then 0 else Initiated(log[..|log| - 1]) + if log[|log| - 1].CallInitiated? then 1 else 0
  }

  /** How many events a slot can still emit; it falls with every event. */
  function Left(call: Call, phase: Phase): int {
    match phase
    case Idle => 2 * call.policy.maxAttempts
    case Pending(_, attempt, _) => 2 * (call.policy.maxAttempts - attempt) + 1
    case RetryScheduled(_, attempt, _) => 2 * (call.policy.maxAttempts - attempt)
    case _ => 0
  }

  function CallOf(phase: Phase): Option<CallId> {
    if phase.Pending? || phase.RetryScheduled? then Some(phase.callId) else None
  }

  ghost predicate PhaseOk(call: Call, phase: Phase, initiated: nat) {
    match phase
    case Idle => initiated == 0
    case Pending(_, attempt, _) => 1 <= attempt == initiated <= call.policy.maxAttempts
    case RetryScheduled(_, attempt, _) => 1 <= attempt == initiated < call.policy.maxAttempts
    case Exhausted(_, totalAttempts) => totalAttempts == initiated == call.policy.maxAttempts
    case _ => 1 <= initiated <= call.policy.maxAttempts
  }

  /** All events carry one call id, that of the first. */
  ghost predicate OneCall(s: Slot) {
    && (forall i | 0 <= i < |s.log| :: s.log[i].callId == s.log[0].callId)
    && (CallOf(s.phase).Some? ==> s.log != [] && CallOf(s.phase) == Some(s.log[0].callId))
    && (s.phase.Idle? <==> s.log == [])
  }

  ghost predicate Inv(call: Call, s: Slot) {
    && call.policy.maxAttempts >= 1
    && s.phase == ApplyEvents(Idle, s.log)
    && PhaseOk(call, s.phase, Initiated(s.log))
    && OneCall(s)
    && |s.log| + Left(call, s.phase) <= 2 * call.policy.maxAttempts
  }

  lemma OneMoreEvent(call: Call, s: Slot, ev: Event)
    ensures ApplyEvents(s.phase, [ev]) == ApplyEvent(s.phase, ev)
    ensures ApplyEvents(Idle, s.log + [ev]) == ApplyEvent(ApplyEvents(Idle, s.log), ev)
    ensures Initiated(s.log + [ev]) == Initiated(s.log) + if ev.CallInitiated? then 1 else 0
  {
    assert (s.log + [ev])[..|s.log|] == s.log && [ev][..0] == [];
  }

  /** Every event brings the end nearer. */
  lemma EventsLower(call: Call, s: Slot, step: Step)
    requires Inv(call, s)
    ensures Emitting(call, s, step) != [] ==> 0 <= Left(call, Stepped(call, s, step).phase) < Left(call, s.phase)
    ensures |Emitting(call, s, step)| <= 1
  {
    var events := Emitting(call, s, step);
    if events != [] {
      assert events == [events[0]];
      OneMoreEvent(call, s, events[0]);
    }
  }

  lemma EventKeepsPhaseOk(call: Call, s: Slot, step: Step, ev: Event)
    requires Inv(call, s) && Emitting(call, s, step) == [ev]
    ensures PhaseOk(call, ApplyEvent(s.phase, ev), Initiated(s.log) + if ev.CallInitiated? then 1 else 0)
    ensures Left(call, ApplyEvent(s.phase, ev)) < Left(call, s.phase)
  {
  }

  lemma EventKeepsOneCall(call: Call, s: Slot, step: Step, ev: Event)
    requires OneCall(s) && Emitting(call, s, step) == [ev]
    ensures OneCall(Slot(ApplyEvent(s.phase, ev), s.log + [ev]))
  {
    var log' := s.log + [ev];
    assert s.log != [] ==> log'[0] == s.log[0] && ev.callId == s.log[0].callId;
  }

  lemma StepKeeps(call: Call, s: Slot, step: Step)
    requires Inv(call, s)
    ensures Inv(call, Stepped(call, s, step))
  {
    var events := Emitting(call, s, step);
    EventsLower(call, s, step);
    if events != [] {
      var ev := events[0];
      assert events == [ev];
      OneMoreEvent(call, s, ev);
      EventKeepsPhaseOk(call, s, step, ev);
      EventKeepsOneCall(call, s, step, ev);
    } else {
      assert s.log + [] == s.log;
    }
  }

  /** Where the result of a pending call leads: success ends it, an error that may not be retried fails it for good,
      any other error schedules a retry while attempts are left and exhausts it after the last. */
  lemma CallbackDecides(call: Call, s: Slot, result: Result, now: real)
    requires Inv(call, s) && s.phase.Pending?
    ensures var s', made := Stepped(call, s, Calls(result, now)), Initiated(s.log);
            && |s'.log| == |s.log| + 1
            && s'.phase == if result.Success? then Succeeded(result.response, now)
                           else if !call.retryable(result.error) then PermanentFailure(result.error)
                           else if made < call.policy.maxAttempts
                           then RetryScheduled(s.phase.callId, made, now + DelayFor(call.policy, made))
                           else Exhausted(result.error, made)
  {
    var events := Emitting(call, s, Calls(result, now));
    assert events == [events[0]];
    OneMoreEvent(call, s, events[0]);
  }

  /** An attempt is begun from idle, as the first, and from a scheduled retry, as the next, and then awaits its result;
      nothing else that comes does anything. */
  lemma AttemptsBegin(call: Call, s: Slot, step: Step)
    requires Inv(call, s) && !step.Recovers?
    ensures var s', made := Stepped(call, s, step), Initiated(s.log);
            && (step.Initiates? && s.phase.Idle? ==>
                  s'.phase == Pending(step.callId, 1, step.now) && |s'.log| == |s.log| + 1)
            && (step.Ticks? && s.phase.RetryScheduled? ==>
                  s'.phase == Pending(s.phase.callId, made + 1, step.now) && |s'.log| == |s.log| + 1)
            && (|| (step.Initiates? && s.phase.Idle?) || (step.Ticks? && s.phase.RetryScheduled?)
                || (step.Calls? && s.phase.Pending?) || s' == s)
  {
    var events := Emitting(call, s, step);
    if events != [] {
      assert events == [events[0]];
      OneMoreEvent(call, s, events[0]);
    } else {
      assert s.log + [] == s.log;
    }
  }

  /** `n` attempts of a call, each failing; `at` tells the time of each failure. */
  function Failing(callId: CallId, error: CallError, at: nat -> real, n: nat): seq<Step> {
    if n == 0 then [] else
      var begin := if n == 1 then Initiates(callId, at(0)) else Ticks(at(n - 1));
      Failing(callId, error, at, n - 1) + [begin, Calls(Failure(error, n), at(n))]
  }

  /** The `n`-th attempt has failed at `now`: the next one is due after its delay, or the call is exhausted. */
  predicate HasFailed(call: Call, s: Slot, callId: CallId, error: CallError, n: nat, now: real) {
    && Initiated(s.log) == n
    && s.phase == if n < call.policy.maxAttempts then RetryScheduled(callId, n, now + DelayFor(call.policy, n))
                  else Exhausted(error, n)
  }

  lemma TwoMoreSteps(call: Call, steps: seq<Step>, a: Step, b: Step)
    ensures Run(call, steps + [a, b]) == Stepped(call, Stepped(call, Run(call, steps), a), b)
  {
    assert (steps + [a, b])[..|steps| + 1] == steps + [a] && (steps + [a])[..|steps|] == steps;
  }

  /** A call that keeps failing with an error that may be retried is retried after each delay of the policy, and
      exhausted after exactly the maximum of attempts. */
  lemma {:induction false} FailuresExhaust(call: Call, callId: CallId, error: CallError, at: nat -> real, n: nat)
    requires 1 <= n <= call.policy.maxAttempts && call.retryable(error)
    ensures HasFailed(call, Run(call, Failing(callId, error, at, n)), callId, error, n, at(n))
  {
    var begin := if n == 1 then Initiates(callId, at(0)) else Ticks(at(n - 1));
    var before := Failing(callId, error, at, n - 1);
    if n > 1 {
      FailuresExhaust(call, callId, error, at, n - 1);
    }
    TwoMoreSteps(call, before, begin, Calls(Failure(error, n), at(n)));
    RunKeeps(call, before);
    assert n == 1 ==> Run(call, before) == Slot(Idle, []);
    AttemptFails(call, Run(call, before), begin, callId, error, n, at(n));
  }

  lemma AttemptFails(call: Call, s: Slot, begin: Step, callId: CallId, error: CallError, n: nat, now: real)
    requires Inv(call, s) && call.retryable(error) && Initiated(s.log) == n - 1 && n >= 1
    requires || (s.phase.Idle? && begin.Initiates? && begin.callId == callId)
             || (s.phase.RetryScheduled? && begin.Ticks? && s.phase.callId == callId)
    ensures HasFailed(call, Stepped(call, Stepped(call, s, begin), Calls(Failure(error, n), now)), callId, error, n,
                      now)
  {
    var begun := Stepped(call, s, begin);
    AttemptsBegin(call, s, begin);
    StepKeeps(call, s, begin);
    CallbackDecides(call, begun, Failure(error, n), now);
    StepKeeps(call, begun, Calls(Failure(error, n), now));
  }

  function Run(call: Call, steps: seq<Step>): Slot {
    if steps == [] then Slot(Idle, []) else Stepped(call, Run(call, steps[..|steps| - 1]), steps[|steps| - 1])
  }

  lemma {:induction false} RunKeeps(call: Call, steps: seq<Step>)
    requires call.policy.maxAttempts >= 1
    ensures Inv(call, Run(call, steps))
  {
    if steps != [] {
      RunKeeps(call, steps[..|steps| - 1]);
      StepKeeps(call, Run(call, steps[..|steps| - 1]), steps[|steps| - 1]);
    }
  }

  /** From idle, under any interleaving: at most `maxAttempts` initiations, all of one call; a scheduled retry
      has attempts left; exhausted means exactly `maxAttempts`; and the log is bounded. */
  lemma AttemptsAreBounded(call: Call, steps: seq<Step>)
    requires call.policy.maxAttempts >= 1
    ensures var s := Run(call, steps);
            && Initiated(s.log) <= call.policy.maxAttempts && |s.log| <= 2 * call.policy.maxAttempts
            && (forall i, j | 0 <= i < j < |s.log| :: s.log[i].callId == s.log[j].callId)
            && (s.phase.RetryScheduled? ==> s.phase.attempt < call.policy.maxAttempts)
            && (s.phase.Exhausted? ==> s.phase.totalAttempts == Initiated(s.log) == call.policy.maxAttempts)
  {
    RunKeeps(call, steps);
  }

  /** Once a slot has an outcome, nothing that ever arrives changes it. */
  lemma {:induction false} OutcomeStays(call: Call, steps: seq<Step>, more: seq<Step>)
    requires call.policy.maxAttempts >= 1 && !IsOpen(Run(call, steps).phase)
    ensures Run(call, steps + more) == Run(call, steps)
  {
    if more == [] {
      assert steps + more == steps;
    } else {
      var front := more[..|more| - 1];
      OutcomeStays(call, steps, front);
      assert (steps + more)[..|steps + more| - 1] == steps + front;
      RunKeeps(call, steps);
      var s := Run(call, steps);
      assert s.log + [] == s.log;
    }
  }

  /** The result of an attempt, at its place in the log. */
  predicate IsResult(ev: Event, attempt: int, isLast: bool) {
    && !ev.CallInitiated?
    && (ev.CallExhausted? ==> ev.totalAttempts == attempt)
    && (!ev.CallExhausted? ==> ev.attempt == attempt)
    && (!isLast ==> ev.CallFailed? && ev.nextRetryAt.Some?)
  }

  predicate InTurn(log: seq<Event>, i: nat)
    requires i < |log|
  {
    if i % 2 == 0 then log[i].CallInitiated? && log[i].attempt == i / 2 + 1
    else IsResult(log[i], i / 2 + 1, i == |log| - 1)
  }

  /** Attempt, result, attempt, result: the k-th attempt is numbered k and follows a failure that scheduled it. */
  ghost predicate TakesTurns(log: seq<Event>) {
    forall i | 0 <= i < |log| :: InTurn(log, i)
  }

  /** Where a log that takes turns leaves the slot. */
  ghost predicate Follows(s: Slot) {
    && TakesTurns(s.log)
    && (s.phase.Idle? <==> s.log == [])
    && (s.phase.Pending? <==> |s.log| % 2 == 1) && (s.phase.Pending? ==> s.phase.attempt == |s.log| / 2 + 1)
    && (s.phase.RetryScheduled? ==> s.phase.attempt == |s.log| / 2 && s.log[|s.log| - 1].CallFailed?
                                    && s.log[|s.log| - 1].nextRetryAt.Some?)
  }

  lemma TurnKeeps(call: Call, s: Slot, step: Step, ev: Event)
    requires Follows(s) && Emitting(call, s, step) == [ev]
    ensures Follows(Slot(ApplyEvent(s.phase, ev), s.log + [ev]))
  {
    var log := s.log + [ev];
    forall i | 0 <= i < |log| ensures InTurn(log, i) {
      if i < |s.log| {
        assert log[i] == s.log[i] && InTurn(s.log, i);
      }
    }
  }

  /** However late or repeated callbacks and ticks come, attempts and results take turns in the log: no attempt starts
      before the result of the one before it, none without a failure that scheduled it, and no result is taken
      twice. */
  lemma {:induction false} AttemptsTakeTurns(call: Call, steps: seq<Step>)
    requires call.policy.maxAttempts >= 1
    ensures Follows(Run(call, steps))
  {
    if steps != [] {
      var front, step := steps[..|steps| - 1], steps[|steps| - 1];
      AttemptsTakeTurns(call, front);
      RunKeeps(call, front);
      var s := Run(call, front);
      EventsLower(call, s, step);
      if Emitting(call, s, step) != [] {
        var ev := Emitting(call, s, step)[0];
        assert Emitting(call, s, step) == [ev];
        OneMoreEvent(call, s, ev);
        TurnKeeps(call, s, step, ev);
      } else {
        assert s.log + [] == s.log;
      }
    }
  }

  /** Crashing and recovering at any point changes nothing. */
  lemma RecoveryIsNeutral(call: Call, steps: seq<Step>)
    requires call.policy.maxAttempts >= 1
    ensures Stepped(call, Run(call, steps), Recovers) == Run(call, steps)
  {
    RunKeeps(call, steps);
  }
}
