/** Ordered sagas: concurrent step workers (src/saga/tailing.ts:72-153) and the batch runner
    (src/saga/index.ts:77-193). */
module Sagas {
  import opened Prelude

  type EntityId = nat

  datatype Record = Record(entityId: EntityId, sequenceNr: nat)

  /** A successful execution of a step for an entity. */
  datatype Success = Success(entityId: EntityId, step: nat)

  function StepOf(steps: map<EntityId, nat>, e: EntityId): nat {
    if e in steps then steps[e] else 0
  }

  function OffsetOf(offsets: map<(nat, EntityId), nat>, k: nat, e: EntityId): nat {
    if (k, e) in offsets then offsets[(k, e)] else 0
  }

  /** The steps that succeeded for an entity, in order. */
  function Of(log: seq<Success>, e: EntityId): seq<nat> {
    if log == [] then [] else
      var front := Of(log[..|log| - 1], e);
      if log[|log| - 1].entityId == e then front + [log[|log| - 1].step] else front
  }

  function Upto(n: nat): seq<nat> {
    if n == 0 then [] else Upto(n - 1) + [n - 1]
  }

  /** Every step below the counter succeeded at least once, in order, and none above it. */
  ghost predicate InOrder(ks: seq<nat>, counter: nat) {
    && (forall i, j | 0 <= i < j < |ks| :: ks[i] <= ks[j])
    && (forall k: nat | k < counter :: k in ks)
    && forall i | 0 <= i < |ks| :: ks[i] <= counter
  }

  lemma LogOneMore(log: seq<Success>, x: Success, e: EntityId)
    ensures Of(log + [x], e) == if x.entityId == e then Of(log, e) + [x.step] else Of(log, e)
  {
    assert (log + [x])[..|log|] == log;
  }

  // ---- The tailing workers ----

  /** Where a worker stands with the record in hand. */
  datatype Phase =
    | Idle
    | Polling(record: Record)
    | Turned(record: Record, current: nat)
    | Executing(record: Record)
    | Executed(record: Record)
    | Compensating(record: Record)
    | Advancing(record: Record)

  datatype Saga = Saga(workers: seq<Phase>, offsets: map<(nat, EntityId), nat>, steps: map<EntityId, nat>,
                       log: seq<Success>)

  /** The moves of worker `k`; a crash stops all workers and keeps the stores. */
  datatype Move =
    | Delivers(k: nat, record: Record, matches: bool)
    | Polls(k: nat)
    | KeepsWaiting(k: nat)
    | Decides(k: nat)
    | Succeeds(k: nat)
    | Fails(k: nat)
    | SetsStep(k: nat)
    | FailsToSetStep(k: nat)
    | Compensated(k: nat)
    | Advances(k: nat)
    | Crashes

  function At(s: Saga, k: nat, phase: Phase): Saga
    requires k < |s.workers|
  {
    s.(workers := s.workers[k := phase])
  }

  function Step(s: Saga, e: EntityId): nat {
    StepOf(s.steps, e)
  }

  ghost predicate Next(s: Saga, move: Move, s': Saga) {
    match move
    case Delivers(k, r, matches) =>
      && k < |s.workers| && s.workers[k].Idle?
      && s' == (if r.sequenceNr <= OffsetOf(s.offsets, k, r.entityId) then s
                else if !matches then s.(offsets := s.offsets[(k, r.entityId) := r.sequenceNr])
                else At(s, k, Polling(r)))
    case Polls(k) =>
      && k < |s.workers| && s.workers[k].Polling?
      && s' == At(s, k, Turned(s.workers[k].record, Step(s, s.workers[k].record.entityId)))
    case KeepsWaiting(k) =>
      && k < |s.workers| && s.workers[k].Turned? && s.workers[k].current < k
      && s' == At(s, k, Polling(s.workers[k].record))
    case Decides(k) =>
      && k < |s.workers| && s.workers[k].Turned?
      && s' == (if s.workers[k].current == k then At(s, k, Executing(s.workers[k].record))
                else if s.workers[k].current > k then At(s, k, Advancing(s.workers[k].record))
                else At(s, k, Idle))
    case Succeeds(k) =>
      && k < |s.workers| && s.workers[k].Executing?
      && s' == At(s, k, Executed(s.workers[k].record)).(log := s.log + [Success(s.workers[k].record.entityId, k)])
    case Fails(k) =>
      && k < |s.workers| && s.workers[k].Executing?
      && s' == At(s, k, Compensating(s.workers[k].record))
    case SetsStep(k) =>
      && k < |s.workers| && s.workers[k].Executed?
      && s' == At(s, k, Advancing(s.workers[k].record)).(steps := s.steps[s.workers[k].record.entityId := k + 1])
    case FailsToSetStep(k) =>
      && k < |s.workers| && s.workers[k].Executed?
      && s' == At(s, k, Compensating(s.workers[k].record))
    case Compensated(k) =>
      && k < |s.workers| && s.workers[k].Compensating?
      && s' == At(s, k, Advancing(s.workers[k].record))
    case Advances(k) =>
      && k < |s.workers| && s.workers[k].Advancing?
      && var r := s.workers[k].record;
         s' == At(s, k, Idle).(offsets := s.offsets[(k, r.entityId) := r.sequenceNr])
    case Crashes => s' == s.(workers := seq(|s.workers|, _ => Idle))
  }

  /** A worker that has taken its turn holds it: nobody else moves the counter from its step. */
  predicate HoldsTurn(s: Saga, k: nat)
    requires k < |s.workers|
  {
    match s.workers[k]
    case Turned(r, current) => current <= Step(s, r.entityId) && (current == k ==> Step(s, r.entityId) == k)
    case Executing(r) => Step(s, r.entityId) == k
    case Executed(r) => Step(s, r.entityId) == k && k in Of(s.log, r.entityId)
    case _ => true
  }

  ghost predicate Inv(s: Saga) {
    && (forall k: nat | k < |s.workers| :: HoldsTurn(s, k))
    && forall e: EntityId :: InOrder(Of(s.log, e), Step(s, e))
  }

  lemma SuccessKeeps(s: Saga, k: nat, s': Saga)
    requires Inv(s) && Next(s, Succeeds(k), s')
    ensures Inv(s')
  {
    var r := s.workers[k].record;
    assert HoldsTurn(s, k);
    forall e: EntityId ensures InOrder(Of(s'.log, e), Step(s', e)) && forall x | x in Of(s.log, e) :: x in Of(s'.log, e)
    {
      LogOneMore(s.log, Success(r.entityId, k), e);
      assert InOrder(Of(s.log, e), Step(s, e));
      if e == r.entityId {
        OneMoreInOrder(Of(s.log, e), k);
      }
    }
    forall j: nat | j < |s'.workers| ensures HoldsTurn(s', j) {
      assert HoldsTurn(s, j);
      LogOneMore(s.log, Success(r.entityId, k), r.entityId);
    }
  }

  lemma OneMoreInOrder(ks: seq<nat>, counter: nat)
    requires InOrder(ks, counter)
    ensures InOrder(ks + [counter], counter)
  {
    forall k: nat | k < counter ensures k in ks + [counter] {
      assert k in ks;
    }
  }

  /** Setting the step: the other workers cannot hold a turn for the same entity. */
  lemma SetStepKeeps(s: Saga, k: nat, s': Saga)
    requires Inv(s) && Next(s, SetsStep(k), s')
    ensures Inv(s')
  {
    var e := s.workers[k].record.entityId;
    assert HoldsTurn(s, k);
    forall j: nat | j < |s'.workers| ensures HoldsTurn(s', j) {
      assert HoldsTurn(s, j);
    }
    forall x: EntityId ensures InOrder(Of(s'.log, x), Step(s', x)) {
      assert InOrder(Of(s.log, x), Step(s, x));
    }
  }

  /** A move that only changes the phase of one worker, and offsets. */
  lemma PhaseKeeps(s: Saga, k: nat, s': Saga)
    requires Inv(s) && k < |s.workers| && |s'.workers| == |s.workers| && s'.steps == s.steps && s'.log == s.log
    requires HoldsTurn(s', k) && forall j: nat | j < |s.workers| && j != k :: s'.workers[j] == s.workers[j]
    ensures Inv(s')
  {
    forall j: nat | j < |s'.workers| ensures HoldsTurn(s', j) {
      assert HoldsTurn(s, j);
    }
    forall e: EntityId ensures InOrder(Of(s'.log, e), Step(s', e)) {
      assert InOrder(Of(s.log, e), Step(s, e));
    }
  }

  lemma CrashKeeps(s: Saga, s': Saga)
    requires Inv(s) && Next(s, Crashes, s')
    ensures Inv(s')
  {
    forall e: EntityId ensures InOrder(Of(s'.log, e), Step(s', e)) {
      assert InOrder(Of(s.log, e), Step(s, e));
    }
  }

  lemma MoveKeeps(s: Saga, move: Move, s': Saga)
    requires Inv(s) && Next(s, move, s')
    ensures Inv(s') && |s'.workers| == |s.workers|
  {
    if move.Succeeds? {
      SuccessKeeps(s, move.k, s');
    } else if move.SetsStep? {
      SetStepKeeps(s, move.k, s');
    } else if move.Crashes? {
      CrashKeeps(s, s');
    } else {
      assert HoldsTurn(s, move.k);
      PhaseKeeps(s, move.k, s');
    }
  }

  /** The counter of an entity moves only from k to k + 1, and only by worker k after step k succeeded. */
  lemma CounterMoves(s: Saga, move: Move, s': Saga, e: EntityId)
    requires Inv(s) && Next(s, move, s') && Step(s', e) != Step(s, e)
    ensures move.SetsStep? && Step(s, e) == move.k && Step(s', e) == move.k + 1
    ensures s.workers[move.k].Executed? && s.workers[move.k].record.entityId == e && move.k in Of(s.log, e)
  {
    assert HoldsTurn(s, move.k);
  }

  ghost predicate MoveAt(run: seq<Saga>, moves: seq<Move>, i: nat)
    requires |run| == |moves| + 1 && i < |moves|
  {
    Next(run[i], moves[i], run[i + 1])
  }

  predicate AllIdle(s: Saga) {
    forall k | 0 <= k < |s.workers| :: s.workers[k].Idle?
  }

  /** A run from empty stores. */
  ghost predicate IsRun(run: seq<Saga>, moves: seq<Move>) {
    && |run| == |moves| + 1 && AllIdle(run[0]) && run[0].steps == map[] && run[0].log == []
    && forall i: nat | i < |moves| :: MoveAt(run, moves, i)
  }

  /** Under any interleaving and any crashes, the steps of an entity succeed in order, none is skipped,
      and one is repeated only while the counter still points at it. */
  lemma {:induction false} StepsInOrder(run: seq<Saga>, moves: seq<Move>, i: nat)
    requires IsRun(run, moves) && i <= |moves|
    ensures Inv(run[i])
  {
    if i > 0 {
      StepsInOrder(run, moves, i - 1);
      assert MoveAt(run, moves, i - 1);
      MoveKeeps(run[i - 1], moves[i - 1], run[i]);
    }
  }

  // ---- Exactly once while every success is recorded ----

  /** Some worker has executed a step that the counter does not show yet. */
  predicate Unrecorded(s: Saga, e: EntityId) {
    var k := Step(s, e);
    k < |s.workers| && s.workers[k].Executed? && s.workers[k].record.entityId == e
  }

  ghost predicate ExactlyOnce(s: Saga, e: EntityId) {
    Of(s.log, e) == Upto(Step(s, e) + if Unrecorded(s, e) then 1 else 0)
  }

  lemma SuccessKeepsExactness(s: Saga, k: nat, s': Saga, e: EntityId)
    requires Inv(s) && Next(s, Succeeds(k), s') && ExactlyOnce(s, e)
    ensures ExactlyOnce(s', e)
  {
    var r := s.workers[k].record;
    assert HoldsTurn(s, k);
    LogOneMore(s.log, Success(r.entityId, k), e);
    if r.entityId == e {
      assert !Unrecorded(s, e) && Unrecorded(s', e);
      assert Upto(k + 1) == Upto(k) + [k];
    } else {
      assert Unrecorded(s', e) <==> Unrecorded(s, e);
    }
  }

  lemma SetStepKeepsExactness(s: Saga, k: nat, s': Saga, e: EntityId)
    requires Inv(s) && Next(s, SetsStep(k), s') && ExactlyOnce(s, e)
    ensures ExactlyOnce(s', e)
  {
    assert HoldsTurn(s, k);
    var k' := Step(s', e);
    if k' < |s.workers| {
      assert HoldsTurn(s, k');
    }
  }

  /** A success of the entity goes unrecorded: a crash falls in between, or recording it throws. */
  predicate LosesSuccess(s: Saga, move: Move, e: EntityId) {
    || (move.Crashes? && Unrecorded(s, e))
    || (move.FailsToSetStep? && move.k < |s.workers| && s.workers[move.k].Executed?
        && s.workers[move.k].record.entityId == e)
  }

  lemma {:induction false} UptoLength(n: nat)
    ensures |Upto(n)| == n
  {
    if n > 0 {
      UptoLength(n - 1);
    }
  }

  lemma LossBreaksExactness(s: Saga, move: Move, s': Saga, e: EntityId)
    requires Inv(s) && Next(s, move, s') && ExactlyOnce(s, e) && LosesSuccess(s, move, e)
    ensures !ExactlyOnce(s', e)
  {
    if move.FailsToSetStep? {
      assert HoldsTurn(s, move.k);
    }
    UptoLength(Step(s, e));
    UptoLength(Step(s, e) + 1);
    assert Unrecorded(s, e) && !Unrecorded(s', e);
  }

  lemma MoveKeepsExactnessIff(s: Saga, move: Move, s': Saga, e: EntityId)
    requires Inv(s) && Next(s, move, s') && ExactlyOnce(s, e)
    ensures ExactlyOnce(s', e) <==> !LosesSuccess(s, move, e)
  {
    if LosesSuccess(s, move, e) {
      LossBreaksExactness(s, move, s', e);
    } else if move.Succeeds? {
      SuccessKeepsExactness(s, move.k, s', e);
    } else if move.SetsStep? {
      SetStepKeepsExactness(s, move.k, s', e);
    } else {
      assert move.FailsToSetStep? ==> HoldsTurn(s, move.k);
      assert Unrecorded(s', e) <==> Unrecorded(s, e);
    }
  }

  /** The successful steps of an entity stay exactly 0 up to the counter, each once, as long as every success is
      recorded, and no longer. */
  lemma {:induction false} StepsExactlyOnce(run: seq<Saga>, moves: seq<Move>, e: EntityId, i: nat)
    requires IsRun(run, moves) && i <= |moves|
    ensures (forall j | 0 <= j <= i :: ExactlyOnce(run[j], e))
            <==> forall j | 0 <= j < i :: !LosesSuccess(run[j], moves[j], e)
  {
    if i > 0 {
      StepsExactlyOnce(run, moves, e, i - 1);
      if ExactlyOnce(run[i - 1], e) {
        StepsInOrder(run, moves, i - 1);
        assert MoveAt(run, moves, i - 1);
        MoveKeepsExactnessIff(run[i - 1], moves[i - 1], run[i], e);
      }
    } else {
      assert ExactlyOnce(run[0], e);
    }
  }

  /** The run goes on with one more move. */
  lemma OneMoreMove(run: seq<Saga>, moves: seq<Move>, move: Move, s: Saga)
    requires IsRun(run, moves) && Next(run[|moves|], move, s)
    ensures IsRun(run + [s], moves + [move])
  {
    var run', moves' := run + [s], moves + [move];
    forall i: nat | i < |moves'| ensures MoveAt(run', moves', i) {
      if i < |moves| {
        assert MoveAt(run, moves, i);
        assert run'[i] == run[i] && run'[i + 1] == run[i + 1];
      }
    }
  }

  /** A worker takes up an event of an entity at its step and executes the step. */
  lemma AttemptMoves(run: seq<Saga>, moves: seq<Move>, r: Record) returns (run': seq<Saga>, moves': seq<Move>)
    requires IsRun(run, moves)
    requires var s := run[|moves|];
             s.workers == [Idle] && Step(s, r.entityId) == 0 && r.sequenceNr > OffsetOf(s.offsets, 0, r.entityId)
    ensures IsRun(run', moves') && |moves'| == |moves| + 4
    ensures var s := run[|moves|];
            run'[|moves'|] == s.(workers := [Executed(r)], log := s.log + [Success(r.entityId, 0)])
  {
    var s := run[|moves|];
    var taken, turned, executing := At(s, 0, Polling(r)), At(s, 0, Turned(r, 0)), At(s, 0, Executing(r));
    OneMoreMove(run, moves, Delivers(0, r, true), taken);
    OneMoreMove(run + [taken], moves + [Delivers(0, r, true)], Polls(0), turned);
    run', moves' := run + [taken] + [turned], moves + [Delivers(0, r, true)] + [Polls(0)];
    OneMoreMove(run', moves', Decides(0), executing);
    run', moves' := run' + [executing], moves' + [Decides(0)];
    var executed := At(s, 0, Executed(r)).(log := s.log + [Success(r.entityId, 0)]);
    OneMoreMove(run', moves', Succeeds(0), executed);
    run', moves' := run' + [executed], moves' + [Succeeds(0)];
  }

  /** The first step of an entity succeeds, recording it throws, and the entity's next event executes it again. */
  lemma UnrecordedRepeats() returns (run: seq<Saga>, moves: seq<Move>)
    ensures IsRun(run, moves) && |moves| == 11 && Of(run[11].log, 0) == [0, 0]
  {
    var a, b, x := Record(0, 1), Record(0, 2), Success(0, 0);
    run, moves := AttemptMoves([Saga([Idle], map[], map[], [])], [], a);
    var s := run[4];
    var lost, compensated := At(s, 0, Compensating(a)), At(s, 0, Advancing(a));
    OneMoreMove(run, moves, FailsToSetStep(0), lost);
    run, moves := run + [lost], moves + [FailsToSetStep(0)];
    OneMoreMove(run, moves, Compensated(0), compensated);
    run, moves := run + [compensated], moves + [Compensated(0)];
    var passed := At(s, 0, Idle).(offsets := s.offsets[(0, 0) := 1]);
    OneMoreMove(run, moves, Advances(0), passed);
    run, moves := run + [passed], moves + [Advances(0)];
    run, moves := AttemptMoves(run, moves, b);
    LogOneMore([], x, 0);
    LogOneMore([x], x, 0);
    assert run[11].log == [x] + [x];
  }

  // ---- The batch runner ----

  ghost predicate AllInOrder(log: seq<Success>, steps: map<EntityId, nat>) {
    forall e: EntityId :: InOrder(Of(log, e), StepOf(steps, e))
  }

  ghost predicate AllExact(log: seq<Success>, steps: map<EntityId, nat>) {
    forall e: EntityId :: Of(log, e) == Upto(StepOf(steps, e))
  }

  /** How executing a step would go, were it its turn: whether it succeeds, whether the success is then recorded, and
      whether the process dies, or compensation throws, before the event is passed. */
  datatype Attempt = Attempt(succeeds: bool, recorded: bool, crashes: bool)

  datatype Delivery = Delivery(record: Record, matches: bool, attempt: Attempt)

  datatype Store = Store(offsets: map<(nat, EntityId), nat>, steps: map<EntityId, nat>, log: seq<Success>)

  predicate IsNew(s: Store, k: nat, r: Record) {
    r.sequenceNr > OffsetOf(s.offsets, k, r.entityId)
  }

  /** The event is new to the step, matches it, and the entity is at the step. */
  predicate TakesTurn(s: Store, k: nat, d: Delivery) {
    IsNew(s, k, d.record) && d.matches && StepOf(s.steps, d.record.entityId) == k
  }

  predicate LosesIn(s: Store, k: nat, d: Delivery) {
    TakesTurn(s, k, d) && d.attempt.succeeds && !d.attempt.recorded
  }

  predicate CrashesIn(s: Store, k: nat, d: Delivery) {
    IsNew(s, k, d.record) && d.attempt.crashes
  }

  function Handled(s: Store, k: nat, d: Delivery): Store {
    if !IsNew(s, k, d.record) then s else
      var e := d.record.entityId;
      var success := TakesTurn(s, k, d) && d.attempt.succeeds;
      Store(
        if d.attempt.crashes then s.offsets else s.offsets[(k, e) := d.record.sequenceNr],
        if success && d.attempt.recorded then s.steps[e := k + 1] else s.steps,
        if success then s.log + [Success(e, k)] else s.log)
  }

  /** The step's successes are those of the attempts whose turn it is; a recorded one moves the counter by one; without
      a crash the event is passed; nothing else changes. */
  ghost predicate Handles(s: Store, s': Store, k: nat, d: Delivery) {
    var e := d.record.entityId;
    && s'.log == s.log + (if d.record.sequenceNr > OffsetOf(s.offsets, k, e) && d.matches && StepOf(s.steps, e) == k
                             && d.attempt.succeeds then [Success(e, k)] else [])
    && (forall x: EntityId ::
          StepOf(s'.steps, x) == StepOf(s.steps, x)
                                 + if x == e && s'.log != s.log && d.attempt.recorded then 1 else 0)
    && (forall j: nat, x: EntityId :: OffsetOf(s'.offsets, j, x)
          == if (j, x) == (k, e) && !d.attempt.crashes then Max(OffsetOf(s.offsets, k, e), d.record.sequenceNr)
             else OffsetOf(s.offsets, j, x))
  }

  lemma HandledHandles(s: Store, k: nat, d: Delivery)
    ensures Handles(s, Handled(s, k, d), k, d)
  {
    if TakesTurn(s, k, d) && d.attempt.succeeds {
      assert |s.log + [Success(d.record.entityId, k)]| == |s.log| + 1;
    }
  }

  lemma HandledKeeps(s: Store, k: nat, d: Delivery)
    requires AllInOrder(s.log, s.steps)
    ensures AllInOrder(Handled(s, k, d).log, Handled(s, k, d).steps)
    ensures AllExact(s.log, s.steps) ==> (AllExact(Handled(s, k, d).log, Handled(s, k, d).steps) <==> !LosesIn(s, k, d))
  {
    if TakesTurn(s, k, d) && d.attempt.succeeds {
      var x := Success(d.record.entityId, k);
      Recorded(s.log, s.steps, x);
      UptoLength(k);
      if AllExact(s.log, s.steps) {
        assert Of(s.log, x.entityId) == Upto(k);
        assert |Of(s.log + [x], x.entityId)| == k + 1;
        if d.attempt.recorded {
          assert Upto(k + 1) == Upto(k) + [k];
        }
      }
    }
  }

  /** The events up to the first crash. */
  function Through(s: Store, k: nat, ds: seq<Delivery>): (r: (Store, bool, bool))
    decreases |ds|
  {
    if ds == [] then (s, false, false) else
      var (before, lost, crashed) := Through(s, k, ds[..|ds| - 1]);
      var d := ds[|ds| - 1];
      if crashed then (before, lost, true)
      else (Handled(before, k, d), lost || LosesIn(before, k, d), CrashesIn(before, k, d))
  }

  /** The steps in order, up to the first crash. */
  function ThroughAll(s: Store, categories: seq<seq<Delivery>>): (Store, bool, bool) {
    if categories == [] then (s, false, false) else
      var k := |categories| - 1;
      var (before, lost, crashed) := ThroughAll(s, categories[..k]);
      if crashed then (before, lost, true) else
        var (after, lostHere, crashedHere) := Through(before, k, categories[k]);
        (after, lost || lostHere, crashedHere)
  }

  predicate Passed(s: Store, k: nat, r: Record) {
    OffsetOf(s.offsets, k, r.entityId) >= r.sequenceNr
  }

  /** Under whatever attempts order is kept, exactness while every success is recorded, offsets only grow, and without a
      crash every event is passed. */
  ghost predicate KeepsPassing(s: Store, s': Store, lost: bool) {
    && AllInOrder(s'.log, s'.steps) && (AllExact(s.log, s.steps) && !lost ==> AllExact(s'.log, s'.steps))
    && forall j: nat, e: EntityId :: OffsetOf(s'.offsets, j, e) >= OffsetOf(s.offsets, j, e)
  }

  lemma {:induction false} ThroughKeeps(s: Store, k: nat, ds: seq<Delivery>)
    requires AllInOrder(s.log, s.steps)
    ensures var (s', lost, crashed) := Through(s, k, ds);
            KeepsPassing(s, s', lost) && (!crashed ==> forall i | 0 <= i < |ds| :: Passed(s', k, ds[i].record))
  {
    if ds != [] {
      ThroughKeeps(s, k, ds[..|ds| - 1]);
      var (before, _, crashed) := Through(s, k, ds[..|ds| - 1]);
      if !crashed {
        HandledKeeps(before, k, ds[|ds| - 1]);
      }
    }
  }

  lemma {:induction false} ThroughAllKeeps(s: Store, categories: seq<seq<Delivery>>)
    requires AllInOrder(s.log, s.steps)
    ensures var (s', lost, crashed) := ThroughAll(s, categories);
            && KeepsPassing(s, s', lost)
            && (!crashed ==> forall k: nat, i: nat | k < |categories| && i < |categories[k]| ::
                               Passed(s', k, categories[k][i].record))
  {
    if categories != [] {
      var k := |categories| - 1;
      ThroughAllKeeps(s, categories[..k]);
      var (before, _, crashed) := ThroughAll(s, categories[..k]);
      if !crashed {
        ThroughKeeps(before, k, categories[k]);
        forall j: nat, i: nat | j < |categories| && i < |categories[j]| && !ThroughAll(s, categories).2
          ensures Passed(ThroughAll(s, categories).0, j, categories[j][i].record)
        {
          if j < k {
            assert Passed(before, j, categories[..k][j][i].record);
          }
        }
      }
    }
  }

  /** The in-memory offset and step store, with the successes of the steps it drives. */
  class SagaStore {
    var offsets: map<(nat, EntityId), nat>
    var steps: map<EntityId, nat>
    var log: seq<Success>

    constructor ()
      ensures State() == Store(map[], map[], [])
    {
      offsets, steps, log := map[], map[], [];
    }

    function State(): Store
      reads this
    {
      Store(offsets, steps, log)
    }

    /** One event for step `k`. */
    method Handle(k: nat, d: Delivery) returns (lost: bool, crashed: bool)
      modifies this
      ensures State() == Handled(old(State()), k, d) && Handles(old(State()), State(), k, d)
      ensures lost == LosesIn(old(State()), k, d) == (log != old(log) && steps == old(steps))
      ensures crashed == CrashesIn(old(State()), k, d)
              == (d.attempt.crashes && d.record.sequenceNr > OffsetOf(old(offsets), k, d.record.entityId))
    {
      HandledHandles(State(), k, d);
      var e := d.record.entityId;
      lost := false;
      if d.record.sequenceNr <= OffsetOf(offsets, k, e) {
        return false, false;
      }
      if d.matches && StepOf(steps, e) == k {
        if d.attempt.succeeds {
          log := log + [Success(e, k)];
          if d.attempt.recorded {
            steps := steps[e := k + 1];
          } else {
            lost := true;
          }
        }
      }
      if d.attempt.crashes {
        return lost, true;
      }
      offsets := offsets[(k, e) := d.record.sequenceNr];
      return lost, false;
    }

    /** All events of one step's category. */
    method RunStep(k: nat, events: seq<Delivery>) returns (lost: bool, crashed: bool)
      modifies this
      ensures (State(), lost, crashed) == Through(old(State()), k, events)
    {
      lost := false;
      var i := 0;
      while i < |events|
        invariant 0 <= i <= |events|
        invariant (State(), lost, false) == Through(old(State()), k, events[..i])
      {
        assert events[..i + 1][..i] == events[..i];
        var lostHere;
        lostHere, crashed := Handle(k, events[i]);
        lost := lost || lostHere;
        i := i + 1;
        if crashed {
          CrashEnds(old(State()), k, events, i);
          return;
        }
      }
      assert events[..i] == events;
      return lost, false;
    }

    /** All steps in order, each over all events of its category. */
    method RunStatefulSaga(categories: seq<seq<Delivery>>) returns (lost: bool, crashed: bool)
      modifies this
      ensures (State(), lost, crashed) == ThroughAll(old(State()), categories)
      ensures AllInOrder(old(log), old(steps)) ==> KeepsPassing(old(State()), State(), lost)
      ensures AllInOrder(old(log), old(steps)) && !crashed ==>
                forall k: nat, i: nat | k < |categories| && i < |categories[k]| ::
                  Passed(State(), k, categories[k][i].record)
    {
      if AllInOrder(log, steps) {
        ThroughAllKeeps(State(), categories);
      }
      lost := false;
      var k := 0;
      while k < |categories|
        invariant 0 <= k <= |categories|
        invariant (State(), lost, false) == ThroughAll(old(State()), categories[..k])
      {
        assert categories[..k + 1][..k] == categories[..k];
        var lostHere;
        lostHere, crashed := RunStep(k, categories[k]);
        lost := lost || lostHere;
        k := k + 1;
        if crashed {
          CrashEndsAll(old(State()), categories, k);
          return;
        }
      }
      assert categories[..k] == categories;
      return lost, false;
    }
  }

  /** Nothing is done after a crash. */
  lemma {:induction false} CrashEnds(s: Store, k: nat, ds: seq<Delivery>, n: nat)
    requires n <= |ds| && Through(s, k, ds[..n]).2
    ensures Through(s, k, ds) == Through(s, k, ds[..n])
    decreases |ds|
  {
    if n == |ds| {
      assert ds[..n] == ds;
    } else {
      assert ds[..|ds| - 1][..n] == ds[..n];
      CrashEnds(s, k, ds[..|ds| - 1], n);
    }
  }

  lemma {:induction false} CrashEndsAll(s: Store, categories: seq<seq<Delivery>>, n: nat)
    requires n <= |categories| && ThroughAll(s, categories[..n]).2
    ensures ThroughAll(s, categories) == ThroughAll(s, categories[..n])
    decreases |categories|
  {
    var front := categories[..|categories| - 1];
    if n == |categories| {
      assert categories[..n] == categories;
    } else {
      assert front[..n] == categories[..n];
      CrashEndsAll(s, front, n);
    }
  }

  /** A success at the counter keeps the order, and completes it for the next counter. */
  lemma EntityRecorded(log: seq<Success>, steps: map<EntityId, nat>, x: Success, e: EntityId)
    requires InOrder(Of(log, e), StepOf(steps, e)) && StepOf(steps, x.entityId) == x.step
    ensures InOrder(Of(log + [x], e), StepOf(steps, e))
            && InOrder(Of(log + [x], e), StepOf(steps[x.entityId := x.step + 1], e))
    ensures Of(log + [x], e) == if e == x.entityId then Of(log, e) + [x.step] else Of(log, e)
  {
    LogOneMore(log, x, e);
    if e == x.entityId {
      OneMoreInOrder(Of(log, e), x.step);
      CounterCatchesUp(Of(log, e), x.step);
    }
  }

  lemma CounterCatchesUp(ks: seq<nat>, counter: nat)
    requires InOrder(ks, counter)
    ensures InOrder(ks + [counter], counter + 1)
  {
    OneMoreInOrder(ks, counter);
    assert (ks + [counter])[|ks|] == counter;
  }

  lemma Recorded(log: seq<Success>, steps: map<EntityId, nat>, x: Success)
    requires AllInOrder(log, steps) && StepOf(steps, x.entityId) == x.step
    ensures AllInOrder(log + [x], steps) && AllInOrder(log + [x], steps[x.entityId := x.step + 1])
    ensures forall e: EntityId :: Of(log + [x], e) == if e == x.entityId then Of(log, e) + [x.step] else Of(log, e)
  {
    forall e: EntityId
      ensures InOrder(Of(log + [x], e), StepOf(steps, e))
              && InOrder(Of(log + [x], e), StepOf(steps[x.entityId := x.step + 1], e))
      ensures Of(log + [x], e) == if e == x.entityId then Of(log, e) + [x.step] else Of(log, e)
    {
      EntityRecorded(log, steps, x, e);
    }
  }
}
