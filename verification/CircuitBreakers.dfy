/** The circuit breaker with overlapping calls (src/core/call/circuit-breaker.ts:66-128). */
module CircuitBreakers {
  import opened Prelude

  datatype Config = Config(maxFailures: int, resetTimeoutMs: int, halfOpenMaxCalls: int)

  datatype Circuit = Closed | Open | HalfOpen

  datatype Breaker = Breaker(
    state: Circuit, consecutiveFailures: nat, totalFailures: nat, totalSuccesses: nat, totalRejections: nat,
    openedAt: int, halfOpenInflight: int)

  const FRESH: Breaker := Breaker(Closed, 0, 0, 0, 0, 0, 0)

  /** An open breaker turns half-open once the reset timeout has passed. */
  function Woken(cfg: Config, b: Breaker, now: int): Breaker {
    if b.state.Open? && now >= b.openedAt + cfg.resetTimeoutMs then b.(state := HalfOpen, halfOpenInflight := 0) else b
  }

  predicate Admits(cfg: Config, b: Breaker, now: int) {
    var w := Woken(cfg, b, now);
    w.state.Closed? || (w.state.HalfOpen? && w.halfOpenInflight < cfg.halfOpenMaxCalls)
  }

  function Acquired(cfg: Config, b: Breaker, now: int): Breaker {
    var w := Woken(cfg, b, now);
    if !Admits(cfg, b, now) then w.(totalRejections := w.totalRejections + 1)
    else if w.state.HalfOpen? then w.(halfOpenInflight := w.halfOpenInflight + 1)
    else w
  }

  function Succeeded(b: Breaker): Breaker {
    var b' := b.(totalSuccesses := b.totalSuccesses + 1, consecutiveFailures := 0);
    if b.state.HalfOpen? then b'.(halfOpenInflight := Max(0, b.halfOpenInflight - 1), state := Closed) else b'
  }

  function Failed(cfg: Config, b: Breaker, now: int): Breaker {
    var b' := b.(totalFailures := b.totalFailures + 1, consecutiveFailures := b.consecutiveFailures + 1);
    if b.state.HalfOpen? then b'.(halfOpenInflight := Max(0, b.halfOpenInflight - 1), state := Open, openedAt := now)
    else if b.state.Closed? && b'.consecutiveFailures >= cfg.maxFailures then b'.(state := Open, openedAt := now)
    else b'
  }

  // ---- Overlapping calls under a monotone clock ----

  /** A call in flight was admitted by a closed breaker, as a trial of an earlier half-open period, or of the latest
      one. */
  datatype Call = Ordinary | EarlierTrial | Trial

  /** The breaker and the calls it has admitted that have not completed. */
  datatype System = System(b: Breaker, clock: int, attempts: nat, ordinary: nat, earlier: nat, trials: nat)

  datatype Step =
    | Attempt(now: int)
    | Success(now: int, call: Call)
    | Failure(now: int, call: Call)
    | Query(now: int)

  function InFlight(s: System): nat {
    s.ordinary + s.earlier + s.trials
  }

  function TrialsInFlight(s: System): nat {
    s.earlier + s.trials
  }

  function Held(s: System, call: Call): nat {
    match call
    case Ordinary => s.ordinary
    case EarlierTrial => s.earlier
    case Trial => s.trials
  }

  function Without(s: System, call: Call): System
    requires Held(s, call) > 0
  {
    match call
    case Ordinary => s.(ordinary := s.ordinary - 1)
    case EarlierTrial => s.(earlier := s.earlier - 1)
    case Trial => s.(trials := s.trials - 1)
  }

  predicate Wakes(cfg: Config, s: System, now: int) {
    s.b.state.Open? && now >= s.b.openedAt + cfg.resetTimeoutMs
  }

  /** With a new half-open period the trials still in flight become earlier ones. */
  function Awake(cfg: Config, s: System, now: int): System {
    var w := s.(b := Woken(cfg, s.b, now), clock := now);
    if Wakes(cfg, s, now) then w.(earlier := s.earlier + s.trials, trials := 0) else w
  }

  function Attempted(cfg: Config, s: System, now: int): System {
    var w := Awake(cfg, s, now).(b := Acquired(cfg, s.b, now), attempts := s.attempts + 1);
    if !Admits(cfg, s.b, now) then w
    else if w.b.state.HalfOpen? then w.(trials := w.trials + 1)
    else w.(ordinary := w.ordinary + 1)
  }

  /** A call in flight completes at any later time, in any order. */
  ghost predicate Next(cfg: Config, s: System, step: Step, s': System) {
    && step.now >= s.clock
    && match step
       case Attempt(now) => s' == Attempted(cfg, s, now)
       case Success(now, call) => Held(s, call) > 0 && s' == Without(s, call).(b := Succeeded(s.b), clock := now)
       case Failure(now, call) => Held(s, call) > 0 && s' == Without(s, call).(b := Failed(cfg, s.b, now), clock := now)
       case Query(now) => s' == Awake(cfg, s, now)
  }

  /** Attempts are successes, failures, calls in flight and rejections; closed means fewer failures in a row than the
      limit; the half-open counter counts the latest trials in flight and stays within its limit. */
  ghost predicate Inv(cfg: Config, s: System) {
    && s.attempts == s.b.totalSuccesses + s.b.totalFailures + InFlight(s) + s.b.totalRejections
    && (s.b.state.Closed? ==> s.b.consecutiveFailures < Max(1, cfg.maxFailures))
    && 0 <= s.b.halfOpenInflight <= Max(0, cfg.halfOpenMaxCalls) && s.trials <= Max(0, cfg.halfOpenMaxCalls)
    && (s.b.state.HalfOpen? ==> s.b.halfOpenInflight == s.trials)
    && (s.b.state.Open? ==> s.b.openedAt <= s.clock)
  }

  /** The one mutable state record; `s` is its place in the protocol. */
  class CircuitBreaker {
    const cfg: Config
    var b: Breaker
    ghost var s: System

    constructor (cfg: Config, ghost now: int)
      ensures Valid() && this.cfg == cfg && s == System(FRESH, now, 0, 0, 0, 0)
    {
      this.cfg, b, s := cfg, FRESH, System(FRESH, now, 0, 0, 0, 0);
    }

    ghost predicate Valid()
      reads this
    {
      s.b == b && Inv(cfg, s)
    }

    method MaybeTransitionFromOpen(now: int)
      modifies this`b
      ensures b == Woken(cfg, old(b), now)
    {
      if b.state != Open {
        return;
      }
      if now >= b.openedAt + cfg.resetTimeoutMs {
        b := b.(state := HalfOpen);
        b := b.(halfOpenInflight := 0);
      }
    }

    /** Lets a call through exactly when it then is in flight: never while shut, never beyond the trials allowed. */
    method TryAcquire(now: int) returns (ok: bool)
      requires Valid() && now >= s.clock
      modifies this
      ensures Valid() && Next(cfg, old(s), Attempt(now), s)
      ensures InFlight(s) == InFlight(old(s)) + if ok then 1 else 0
      ensures b.totalRejections == old(b.totalRejections) + if ok then 0 else 1
      ensures old(b.state.Open?) && now < old(b.openedAt) + cfg.resetTimeoutMs ==> !ok && b.state.Open?
      ensures ok && !old(b.state.Closed?) ==> b.state.HalfOpen? && 0 < s.trials <= cfg.halfOpenMaxCalls
      ensures !ok ==> b.state.Open? || (b.state.HalfOpen? && s.trials >= cfg.halfOpenMaxCalls)
    {
      MaybeTransitionFromOpen(now);
      s := Attempted(cfg, s, now);
      if b.state == Open {
        b := b.(totalRejections := b.totalRejections + 1);
        return false;
      }
      if b.state == HalfOpen {
        if b.halfOpenInflight >= cfg.halfOpenMaxCalls {
          b := b.(totalRejections := b.totalRejections + 1);
          return false;
        }
        b := b.(halfOpenInflight := b.halfOpenInflight + 1);
      }
      return true;
    }

    /** Ends a call in flight; it leaves the breaker closed, unless the breaker was open and stays so. */
    method RecordSuccess(ghost now: int, ghost call: Call)
      requires Valid() && now >= s.clock && Held(s, call) > 0
      modifies this
      ensures Valid() && Next(cfg, old(s), Success(now, call), s)
      ensures InFlight(s) == InFlight(old(s)) - 1 && b.totalSuccesses == old(b.totalSuccesses) + 1
      ensures b.consecutiveFailures == 0
      ensures b.state == if old(b.state.Open?) then Open else Closed
    {
      s := Without(s, call).(b := Succeeded(s.b), clock := now);
      b := b.(totalSuccesses := b.totalSuccesses + 1);
      b := b.(consecutiveFailures := 0);
      if b.state == HalfOpen {
        b := b.(halfOpenInflight := Max(0, b.halfOpenInflight - 1));
        b := b.(state := Closed);
      }
    }

    /** Ends a call in flight; it opens the breaker at once when half-open, at the limit when closed, and a breaker
        that is open keeps the time it opened at. */
    method RecordFailure(now: int, ghost call: Call)
      requires Valid() && now >= s.clock && Held(s, call) > 0
      modifies this
      ensures Valid() && Next(cfg, old(s), Failure(now, call), s)
      ensures InFlight(s) == InFlight(old(s)) - 1 && b.totalFailures == old(b.totalFailures) + 1
      ensures b.state.Closed? <==> old(b.state.Closed?) && old(b.consecutiveFailures) + 1 < cfg.maxFailures
      ensures !b.state.HalfOpen?
      ensures b.state.Open? ==> b.openedAt == if old(b.state.Open?) then old(b.openedAt) else now
    {
      s := Without(s, call).(b := Failed(cfg, s.b, now), clock := now);
      b := b.(totalFailures := b.totalFailures + 1);
      b := b.(consecutiveFailures := b.consecutiveFailures + 1);
      if b.state == HalfOpen {
        b := b.(halfOpenInflight := Max(0, b.halfOpenInflight - 1));
        b := b.(state := Open, openedAt := now);
        return;
      }
      if b.state == Closed && b.consecutiveFailures >= cfg.maxFailures {
        b := b.(state := Open, openedAt := now);
      }
    }
  }

  // ---- Whole runs ----

  ghost predicate StepAt(cfg: Config, run: seq<System>, steps: seq<Step>, i: nat)
    requires |run| == |steps| + 1 && i < |steps|
  {
    Next(cfg, run[i], steps[i], run[i + 1])
  }

  ghost predicate IsPath(cfg: Config, run: seq<System>, steps: seq<Step>) {
    |run| == |steps| + 1 && forall i: nat | i < |steps| :: StepAt(cfg, run, steps, i)
  }

  ghost predicate IsRun(cfg: Config, run: seq<System>, steps: seq<Step>) {
    IsPath(cfg, run, steps) && run[0].b == FRESH && run[0].attempts == 0 && InFlight(run[0]) == 0
  }

  lemma StepKeeps(cfg: Config, s: System, step: Step, s': System)
    requires Inv(cfg, s) && Next(cfg, s, step, s')
    ensures Inv(cfg, s')
  {
  }

  lemma {:induction false} PathKeeps(cfg: Config, run: seq<System>, steps: seq<Step>, i: nat)
    requires IsPath(cfg, run, steps) && Inv(cfg, run[0]) && i <= |steps|
    ensures Inv(cfg, run[i])
  {
    if i > 0 {
      PathKeeps(cfg, run, steps, i - 1);
      assert StepAt(cfg, run, steps, i - 1);
      StepKeeps(cfg, run[i - 1], steps[i - 1], run[i]);
    }
  }

  /** The accounting holds in every state of every run. */
  lemma AttemptsAreAccounted(cfg: Config, run: seq<System>, steps: seq<Step>, i: nat)
    requires IsRun(cfg, run, steps) && i <= |steps|
    ensures Inv(cfg, run[i])
  {
    PathKeeps(cfg, run, steps, i);
  }

  /** When exactly an attempt puts a call in flight: closed, past the timeout with trials allowed at all, or half-open
      with fewer trials of the period in flight than allowed. */
  lemma AdmitsIff(cfg: Config, run: seq<System>, steps: seq<Step>, i: nat)
    requires IsRun(cfg, run, steps) && i < |steps| && steps[i].Attempt?
    ensures InFlight(run[i + 1]) == InFlight(run[i]) + 1 <==>
              || run[i].b.state.Closed?
              || (Wakes(cfg, run[i], steps[i].now) && cfg.halfOpenMaxCalls > 0)
              || (run[i].b.state.HalfOpen? && run[i].trials < cfg.halfOpenMaxCalls)
    ensures run[i + 1].b.totalRejections == run[i].b.totalRejections <==> InFlight(run[i + 1]) == InFlight(run[i]) + 1
  {
    AttemptsAreAccounted(cfg, run, steps, i);
    assert StepAt(cfg, run, steps, i);
  }

  /** Opened at `t` and not yet past the timeout. */
  predicate ShutSince(cfg: Config, s: System, t: int) {
    (s.b.state.Open? && s.b.openedAt == t) || s.clock >= t + cfg.resetTimeoutMs
  }

  lemma {:induction false} StaysShut(cfg: Config, run: seq<System>, steps: seq<Step>, i: nat, j: nat)
    requires IsRun(cfg, run, steps) && i < j <= |steps|
    requires !run[i].b.state.Open? && run[i + 1].b.state.Open?
    ensures ShutSince(cfg, run[j], run[i + 1].b.openedAt)
  {
    assert StepAt(cfg, run, steps, j - 1);
    if j > i + 1 {
      StaysShut(cfg, run, steps, i, j - 1);
    }
  }

  /** Once opened at t, no call is admitted before t plus the reset timeout, whatever late completions arrive. */
  lemma NoEarlyAdmission(cfg: Config, run: seq<System>, steps: seq<Step>, i: nat, j: nat)
    requires IsRun(cfg, run, steps) && i < j < |steps|
    requires !run[i].b.state.Open? && run[i + 1].b.state.Open?
    requires steps[j].Attempt? && Admits(cfg, run[j].b, steps[j].now)
    ensures steps[j].now >= run[i + 1].b.openedAt + cfg.resetTimeoutMs
  {
    StaysShut(cfg, run, steps, i, j);
    assert StepAt(cfg, run, steps, j);
  }

  /** Where a breaker opens, it opens at the time of the failure that opened it. */
  lemma OpensAtFailure(cfg: Config, s: System, step: Step, s': System)
    requires Next(cfg, s, step, s') && !s.b.state.Open? && s'.b.state.Open?
    ensures step.Failure? && s'.b.openedAt == step.now
    ensures s.b.state.HalfOpen? || s.b.consecutiveFailures + 1 >= cfg.maxFailures
  {
  }

  // ---- Half-open periods: how many trials, and who decides ----

  /** From an open state the breaker woke and has been half-open since. */
  ghost predicate IsPeriod(cfg: Config, run: seq<System>, steps: seq<Step>) {
    && IsPath(cfg, run, steps) && Inv(cfg, run[0]) && run[0].b.state.Open?
    && forall i | 1 <= i < |run| :: run[i].b.state.HalfOpen?
  }

  /** During a period no call completes, so what was in flight at waking still is, beside the trials of the period. */
  lemma {:induction false} PeriodHolds(cfg: Config, run: seq<System>, steps: seq<Step>, i: nat)
    requires IsPeriod(cfg, run, steps) && 1 <= i <= |steps|
    ensures run[i].ordinary == run[0].ordinary && run[i].earlier == TrialsInFlight(run[0])
    ensures run[i].trials == run[i].b.halfOpenInflight <= Max(0, cfg.halfOpenMaxCalls)
  {
    PathKeeps(cfg, run, steps, i);
    assert StepAt(cfg, run, steps, i - 1);
    if i > 1 {
      PeriodHolds(cfg, run, steps, i - 1);
    }
  }

  /** However the period goes on, no more trials are in flight than allowed. */
  ghost predicate KeepsLimit(cfg: Config, s: System) {
    forall run, steps | IsPeriod(cfg, run, steps) && run[0] == s ::
        TrialsInFlight(run[|steps|]) <= Max(0, cfg.halfOpenMaxCalls)
  }

  /** `n` attempts at one time that wake the breaker and use up its trials. */
  lemma {:induction false} Probing(cfg: Config, s: System, now: int, n: nat)
      returns (run: seq<System>, steps: seq<Step>)
    requires Inv(cfg, s) && Wakes(cfg, s, now) && now >= s.clock && 1 <= n <= cfg.halfOpenMaxCalls
    ensures IsPeriod(cfg, run, steps) && run[0] == s && |steps| == n
    ensures run[n].clock == now && run[n].trials == n && run[n].earlier == TrialsInFlight(s)
  {
    var last;
    if n == 1 {
      run, steps, last := [s], [], s;
    } else {
      run, steps := Probing(cfg, s, now, n - 1);
      last := run[n - 1];
      PathKeeps(cfg, run, steps, n - 1);
    }
    var run', steps' := run + [Attempted(cfg, last, now)], steps + [Attempt(now)];
    forall i: nat | i < |steps'| ensures StepAt(cfg, run', steps', i) {
      if i < |steps| {
        assert StepAt(cfg, run, steps, i);
      }
    }
    run, steps := run', steps';
  }

  /** From waking on, the trials in flight stay within the limit exactly when no earlier trial is in flight then. */
  lemma TrialsKeepLimitIff(cfg: Config, s: System, now: int)
    requires Inv(cfg, s) && Wakes(cfg, s, now) && now >= s.clock
    ensures KeepsLimit(cfg, s) <==> TrialsInFlight(s) == 0
  {
    if TrialsInFlight(s) == 0 {
      forall run, steps | IsPeriod(cfg, run, steps) && run[0] == s
        ensures TrialsInFlight(run[|steps|]) <= Max(0, cfg.halfOpenMaxCalls)
      {
        if |steps| > 0 {
          PeriodHolds(cfg, run, steps, |steps|);
        }
      }
    } else if cfg.halfOpenMaxCalls >= 1 {
      var run, steps := Probing(cfg, s, now, cfg.halfOpenMaxCalls);
      assert TrialsInFlight(run[|steps|]) > cfg.halfOpenMaxCalls;
    } else {
      var run, steps := [s, Awake(cfg, s, now)], [Query(now)];
      assert StepAt(cfg, run, steps, 0);
      assert IsPeriod(cfg, run, steps) && TrialsInFlight(run[|steps|]) > 0;
    }
  }

  ghost predicate WakesAt(run: seq<System>, i: nat)
    requires i + 1 < |run|
  {
    run[i].b.state.Open? && run[i + 1].b.state.HalfOpen?
  }

  /** Whole runs: when every waking finds no trial in flight, the limit holds in every state. */
  lemma {:induction false} TrialsWithinLimit(cfg: Config, run: seq<System>, steps: seq<Step>, i: nat)
    requires IsRun(cfg, run, steps) && i <= |steps|
    requires forall k: nat | k < i && WakesAt(run, k) :: TrialsInFlight(run[k]) == 0
    ensures TrialsInFlight(run[i]) <= Max(0, cfg.halfOpenMaxCalls)
    ensures run[i].b.state.HalfOpen? ==> run[i].earlier == 0
  {
    AttemptsAreAccounted(cfg, run, steps, i);
    if i > 0 {
      TrialsWithinLimit(cfg, run, steps, i - 1);
      assert StepAt(cfg, run, steps, i - 1);
      assert WakesAt(run, i - 1) ==> TrialsInFlight(run[i - 1]) == 0;
    }
  }

  /** Only trials of the period can close the breaker or open it again. */
  ghost predicate DecidedByTrials(cfg: Config, s: System) {
    forall step, s' | Next(cfg, s, step, s') && !s'.b.state.HalfOpen? ::
        (step.Success? || step.Failure?) && step.call.Trial?
  }

  /** Throughout a period only its own trials decide exactly when no call at all was in flight at waking. */
  lemma DecidedByTrialsIff(cfg: Config, run: seq<System>, steps: seq<Step>, i: nat)
    requires IsPeriod(cfg, run, steps) && 1 <= i <= |steps|
    ensures DecidedByTrials(cfg, run[i]) <==> InFlight(run[0]) == 0
  {
    PeriodHolds(cfg, run, steps, i);
    var s := run[i];
    if InFlight(run[0]) > 0 {
      var call := if s.ordinary > 0 then Ordinary else EarlierTrial;
      var late := Without(s, call).(b := Succeeded(s.b));
      assert Next(cfg, s, Success(s.clock, call), late) && late.b.state.Closed?;
    }
  }

  /** Two ordinary calls, of which one fails and opens the breaker; the reset timeout passes and a trial is admitted. */
  function LateCallSteps(): seq<Step> {
    [Attempt(0), Attempt(0), Failure(0, Ordinary), Attempt(10)]
  }

  function LateCallRun(): seq<System> {
    [System(FRESH, 0, 0, 0, 0, 0),
     System(FRESH, 0, 1, 1, 0, 0),
     System(FRESH, 0, 2, 2, 0, 0),
     System(Breaker(Open, 1, 1, 0, 0, 0, 0), 0, 2, 1, 0, 0),
     System(Breaker(HalfOpen, 1, 1, 0, 0, 0, 1), 10, 3, 1, 0, 1)]
  }

  const ONE_TRIAL := Config(1, 10, 1)

  lemma LateCallRuns()
    ensures IsRun(ONE_TRIAL, LateCallRun(), LateCallSteps())
  {
    var run, steps := LateCallRun(), LateCallSteps();
    forall i: nat | i < |steps| ensures StepAt(ONE_TRIAL, run, steps, i) {
      assert i == 0 || i == 1 || i == 2 || i == 3;
    }
  }

  lemma OneMoreStep(cfg: Config, run: seq<System>, steps: seq<Step>, step: Step, s: System)
    requires IsRun(cfg, run, steps) && Next(cfg, run[|steps|], step, s)
    ensures IsRun(cfg, run + [s], steps + [step])
  {
    forall i: nat | i < |steps + [step]| ensures StepAt(cfg, run + [s], steps + [step], i) {
      if i < |steps| {
        assert StepAt(cfg, run, steps, i);
      }
    }
  }

  /** With one trial allowed, the late failure of the older call reopens the breaker, and the next period's trial
      is admitted while the first is still in flight. */
  lemma TrialsCanOverlap() returns (run: seq<System>, steps: seq<Step>)
    ensures IsRun(ONE_TRIAL, run, steps) && TrialsInFlight(run[|steps|]) == 2 > ONE_TRIAL.halfOpenMaxCalls
  {
    LateCallRuns();
    run, steps := LateCallRun(), LateCallSteps();
    var reopened := System(Breaker(Open, 2, 2, 0, 0, 11, 0), 11, 3, 0, 0, 1);
    OneMoreStep(ONE_TRIAL, run, steps, Failure(11, Ordinary), reopened);
    run, steps := run + [reopened], steps + [Failure(11, Ordinary)];
    var again := System(Breaker(HalfOpen, 2, 2, 0, 0, 11, 1), 21, 4, 0, 1, 1);
    OneMoreStep(ONE_TRIAL, run, steps, Attempt(21), again);
    run, steps := run + [again], steps + [Attempt(21)];
  }

  /** The late success of the older call closes the breaker although its only trial is still in flight. */
  lemma LateSuccessCloses() returns (run: seq<System>, steps: seq<Step>)
    ensures IsRun(ONE_TRIAL, run, steps) && |steps| > 0 && steps[|steps| - 1].Success?
            && steps[|steps| - 1].call.Ordinary?
    ensures run[|steps| - 1].b.state.HalfOpen? && run[|steps|].b.state.Closed? && run[|steps|].trials == 1
  {
    LateCallRuns();
    run, steps := LateCallRun(), LateCallSteps();
    var closed := System(Breaker(Closed, 0, 1, 1, 0, 0, 0), 11, 3, 0, 0, 1);
    OneMoreStep(ONE_TRIAL, run, steps, Success(11, Ordinary), closed);
    run, steps := run + [closed], steps + [Success(11, Ordinary)];
  }
}
