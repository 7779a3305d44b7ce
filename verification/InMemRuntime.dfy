/** One live incarnation per entity (src/inmem/runtime.ts). */
module InMemRuntime {

  type EntityId = nat
  type RunnerId = nat

  /** The module's map, and beside it every runner ever created with its entity. */
  datatype Runners = Runners(entities: map<EntityId, RunnerId>, created: seq<EntityId>, terminated: set<RunnerId>)

  predicate Live(m: Runners, r: RunnerId) {
    r < |m.created| && r !in m.terminated
  }

  /** Every live runner is the one the map holds for its entity. */
  ghost predicate MapHoldsLive(m: Runners) {
    && (forall r: RunnerId | Live(m, r) :: m.created[r] in m.entities && m.entities[m.created[r]] == r)
    && (forall r | r in m.terminated :: r < |m.created|)
    && (forall id | id in m.entities :: m.entities[id] < |m.created| && m.created[m.entities[id]] == id)
  }

  ghost predicate OneLivePerEntity(m: Runners) {
    forall r: RunnerId, s: RunnerId | Live(m, r) && Live(m, s) && m.created[r] == m.created[s] :: r == s
  }

  lemma HeldMeansOne(m: Runners)
    requires MapHoldsLive(m)
    ensures OneLivePerEntity(m)
  {
  }

  function Created(m: Runners, id: EntityId): Runners {
    m.(entities := m.entities[id := |m.created|], created := m.created + [id])
  }

  /** `onTerminate` removes the entry only while it still holds the runner. */
  function Terminated(m: Runners, r: RunnerId): Runners
    requires r < |m.created|
  {
    var m' := m.(terminated := m.terminated + {r});
    if m.created[r] in m.entities && m.entities[m.created[r]] == r then m'.(entities := m.entities - {m.created[r]})
        else m'
  }

  /** One runner is dead, every other as alive as before, and of the map exactly the entries that hold it are gone. */
  ghost predicate EndsOnly(m: Runners, m': Runners, r: RunnerId)
    requires r < |m.created|
  {
    && m'.created == m.created && !Live(m', r)
    && (forall s: RunnerId | s != r :: Live(m', s) <==> Live(m, s))
    && (forall id | id in m'.entities :: id in m.entities && m'.entities[id] == m.entities[id])
    && forall id | id in m.entities :: id in m'.entities <==> !(id == m.created[r] && m.entities[id] == r)
  }

  lemma TerminatedEndsOnly(m: Runners, r: RunnerId)
    requires r < |m.created|
    ensures EndsOnly(m, Terminated(m, r), r) && (MapHoldsLive(m) ==> MapHoldsLive(Terminated(m, r)))
  {
    assert forall s: RunnerId :: Live(Terminated(m, r), s) <==> Live(m, s) && s != r;
  }

  /** The last step of a shutdown, after awaiting the runners it had listed. */
  function Cleared(m: Runners): Runners {
    m.(entities := map[])
  }

  /** Clearing keeps the map complete exactly when no runner was created while the shutdown waited. */
  lemma ClearKeepsIff(m: Runners)
    requires MapHoldsLive(m)
    ensures MapHoldsLive(Cleared(m)) <==> forall r: RunnerId :: !Live(m, r)
  {
    assert forall r: RunnerId :: Live(Cleared(m), r) <==> Live(m, r);
  }

  // ---- Runs with shutdowns ----

  /** The runners a shutdown waits for, and how many there had been when it began. */
  datatype Shutdown = Shutdown(awaited: set<RunnerId>, since: nat)

  datatype System = System(runners: Runners, shutdowns: seq<Shutdown>)

  datatype Step = Sends(id: EntityId) | Terminates(r: RunnerId) | ShutsDown | Clears(k: nat)

  /** The runner a command goes to. */
  function Found(m: Runners, id: EntityId): Runners {
    if id !in m.entities || m.entities[id] in m.terminated then Created(m, id) else m
  }

  /** A shutdown asks every runner of the map to stop, and clears the map when all of these have ended; commands, and so
      new runners, come at any time in between. */
  ghost predicate Next(s: System, step: Step, s': System) {
    match step
    case Sends(id) => s' == s.(runners := Found(s.runners, id))
    case Terminates(r) => Live(s.runners, r) && s' == s.(runners := Terminated(s.runners, r))
    case ShutsDown =>
      var m := s.runners;
      s' == s.(shutdowns := s.shutdowns + [Shutdown(set id | id in m.entities :: m.entities[id], |m.created|)])
    case Clears(k) =>
      && k < |s.shutdowns| && s.shutdowns[k].awaited <= s.runners.terminated
      && s' == System(Cleared(s.runners), s.shutdowns[..k] + s.shutdowns[k + 1..])
  }

  /** Every live runner that is not newer than a shutdown is awaited by it. */
  ghost predicate Inv(s: System) {
    && MapHoldsLive(s.runners)
    && (forall k | 0 <= k < |s.shutdowns| :: s.shutdowns[k].since <= |s.runners.created|)
    && forall k, r: RunnerId | 0 <= k < |s.shutdowns| && Live(s.runners, r) && r < s.shutdowns[k].since ::
        r in s.shutdowns[k].awaited
  }

  lemma FoundKeeps(m: Runners, id: EntityId)
    requires MapHoldsLive(m)
    ensures MapHoldsLive(Found(m, id))
    ensures forall r: RunnerId | r < |m.created| :: Live(Found(m, id), r) <==> Live(m, r)
  {
    if Found(m, id) != m {
      assert forall r: RunnerId :: Live(Created(m, id), r) <==> Live(m, r) || r == |m.created|;
    }
  }

  /** Clearing is the only step that can lose a live runner; what it loses was created while the shutdown waited. */
  lemma StepKeepsIff(s: System, step: Step, s': System)
    requires Inv(s) && Next(s, step, s')
    ensures step.Clears? ==> forall r: RunnerId | Live(s.runners, r) :: r >= s.shutdowns[step.k].since
    ensures Inv(s') <==> (step.Clears? ==> forall r: RunnerId :: !Live(s.runners, r))
  {
    match step
    case Sends(id) =>
      FoundKeeps(s.runners, id);
      SinceStays(s, s');
    case Terminates(r) => assert forall t: RunnerId :: Live(s'.runners, t) <==> Live(s.runners, t) && t != r;
    case ShutsDown =>
      var m, k := s.runners, |s.shutdowns|;
      forall r: RunnerId | Live(m, r) ensures r in s'.shutdowns[k].awaited {
        assert m.created[r] in m.entities && m.entities[m.created[r]] == r;
      }
    case Clears(k) =>
      ClearKeepsIff(s.runners);
      assert forall r: RunnerId :: Live(s'.runners, r) <==> Live(s.runners, r);
      assert forall j | 0 <= j < |s'.shutdowns| :: s'.shutdowns[j] == s.shutdowns[if j < k then j else j + 1];
  }

  lemma SinceStays(s: System, s': System)
    requires Inv(s) && MapHoldsLive(s'.runners) && s'.shutdowns == s.shutdowns
    requires forall r: RunnerId | r < |s.runners.created| :: Live(s'.runners, r) <==> Live(s.runners, r)
    requires |s.runners.created| <= |s'.runners.created|
    ensures Inv(s')
  {
    forall k, r: RunnerId | 0 <= k < |s'.shutdowns| && Live(s'.runners, r) && r < s'.shutdowns[k].since
      ensures r in s'.shutdowns[k].awaited
    {
      assert s.shutdowns[k].since <= |s.runners.created| && Live(s.runners, r);
    }
  }

  ghost predicate StepAt(run: seq<System>, steps: seq<Step>, i: nat)
    requires |run| == |steps| + 1 && i < |steps|
  {
    Next(run[i], steps[i], run[i + 1])
  }

  ghost predicate IsRun(run: seq<System>, steps: seq<Step>) {
    && |run| == |steps| + 1 && run[0] == System(Runners(map[], [], {}), [])
    && forall i: nat | i < |steps| :: StepAt(run, steps, i)
  }

  /** Step `i` does not clear the map under a live runner. */
  ghost predicate ClearsSafely(run: seq<System>, steps: seq<Step>, i: nat)
    requires |run| == |steps| + 1 && i < |steps|
  {
    steps[i].Clears? ==> forall r: RunnerId :: !Live(run[i].runners, r)
  }

  /** As long as no shutdown clears the map under a live runner, each entity has at most one in every state. */
  lemma {:induction false} OneLiveInRuns(run: seq<System>, steps: seq<Step>, i: nat)
    requires IsRun(run, steps) && i < |run| && forall j: nat | j < i :: ClearsSafely(run, steps, j)
    ensures Inv(run[i]) && OneLivePerEntity(run[i].runners)
  {
    if i > 0 {
      OneLiveInRuns(run, steps, i - 1);
      assert StepAt(run, steps, i - 1) && ClearsSafely(run, steps, i - 1);
      StepKeepsIff(run[i - 1], steps[i - 1], run[i]);
    }
    HeldMeansOne(run[i].runners);
  }

  /** The first time one does, the runner was created while the shutdown waited, and the next command for its entity
      brings a second incarnation alive beside it. */
  lemma ClearThenCreateDoubles(run: seq<System>, steps: seq<Step>, i: nat, r: RunnerId, s': System)
    requires IsRun(run, steps) && i < |steps| && (forall j: nat | j < i :: ClearsSafely(run, steps, j))
    requires steps[i].Clears? && steps[i].k < |run[i].shutdowns| && Live(run[i].runners, r)
    requires Next(run[i + 1], Sends(run[i].runners.created[r]), s')
    ensures r >= run[i].shutdowns[steps[i].k].since && !OneLivePerEntity(s'.runners)
  {
    OneLiveInRuns(run, steps, i);
    assert StepAt(run, steps, i);
    StepKeepsIff(run[i], steps[i], run[i + 1]);
    var m := run[i].runners;
    assert s'.runners == Created(Cleared(m), m.created[r]);
    assert Live(s'.runners, r) && Live(s'.runners, |m.created|);
  }

  function DoublingSteps(): seq<Step> {
    [Sends(1), ShutsDown, Terminates(0), Sends(1), Clears(0), Sends(1)]
  }

  function DoublingRun(): seq<System> {
    var awaits := Shutdown({0}, 1);
    [System(Runners(map[], [], {}), []),
     System(Runners(map[1 := 0], [1], {}), []),
     System(Runners(map[1 := 0], [1], {}), [awaits]),
     System(Runners(map[], [1], {0}), [awaits]),
     System(Runners(map[1 := 1], [1, 1], {0}), [awaits]),
     System(Runners(map[], [1, 1], {0}), []),
     System(Runners(map[1 := 2], [1, 1, 1], {0}), [])]
  }

  lemma DoublingStep(i: nat)
    requires i < 6
    ensures StepAt(DoublingRun(), DoublingSteps(), i)
  {
    var m := DoublingRun()[1].runners;
    if i == 1 {
      assert m.entities[1] == 0;
      assert (set id | id in m.entities :: m.entities[id]) == {0};
    } else if i == 2 {
      assert map[1 := 0] - {1} == map[];
    }
  }

  /** One entity, one shutdown and three commands: the second arrives while the shutdown waits. */
  lemma ShutdownDoubles() returns (run: seq<System>, steps: seq<Step>)
    ensures IsRun(run, steps) && |steps| == 6 && !OneLivePerEntity(run[6].runners)
  {
    run, steps := DoublingRun(), DoublingSteps();
    forall i: nat | i < |steps| ensures StepAt(run, steps, i) {
      DoublingStep(i);
    }
    assert Live(run[6].runners, 1) && Live(run[6].runners, 2);
  }

  class Module {
    var runners: Runners

    constructor ()
      ensures Valid() && runners == Runners(map[], [], {})
    {
      runners := Runners(map[], [], {});
    }

    ghost predicate Valid()
      reads this
    {
      MapHoldsLive(runners)
    }

    /** A live runner of the entity: the one in the map, or a new one in place of a terminated one. */
    method GetOrCreate(id: EntityId) returns (r: RunnerId)
      requires Valid()
      modifies this
      ensures Valid() && OneLivePerEntity(runners)
      ensures Live(runners, r) && runners.created[r] == id
      ensures forall s: RunnerId :: Live(old(runners), s) && old(runners).created[s] == id
                                    ==> r == s && runners == old(runners)
      ensures forall s: RunnerId | Live(old(runners), s) :: Live(runners, s)
    {
      if id !in runners.entities || runners.entities[id] in runners.terminated {
        assert forall s: RunnerId :: Live(Created(runners, id), s) <==> Live(runners, s) || s == |runners.created|;
        r := |runners.created|;
        runners := Created(runners, id);
      } else {
        r := runners.entities[id];
      }
      HeldMeansOne(runners);
    }

    /** The runner has ended: its entry goes, another's stays, whether or not the map still knows this one. */
    method OnTerminate(r: RunnerId)
      requires r < |runners.created|
      modifies this
      ensures old(Valid()) ==> Valid()
      ensures runners == Terminated(old(runners), r) && EndsOnly(old(runners), runners, r)
    {
      TerminatedEndsOnly(runners, r);
      runners := Terminated(runners, r);
    }

    /** Shutting down ends with an empty map; one entity keeps one live runner when none is left. */
    method ClearAfterShutdown()
      requires Valid()
      modifies this
      ensures runners == Cleared(old(runners))
      ensures Valid() <==> forall r: RunnerId :: !Live(runners, r)
    {
      ClearKeepsIff(runners);
      assert forall r: RunnerId :: Live(Cleared(runners), r) <==> Live(runners, r);
      runners := Cleared(runners);
    }
  }
}
