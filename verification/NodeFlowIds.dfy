/** What a flow's id decides: definitions registered under the id of a running flow, and flows without a name
    (src/ai/node-flow/aggregate.ts). */
module NodeFlowIds {
  import opened Prelude
  import opened NodeFlowDef
  import opened NodeFlowAggregate
  import opened NodeFlowRuns
  import opened NodeFlowDepartures

  // ---- Definitions that share an id ----

  function TakenOver(s: System, other: FlowDef): System {
    s.(registry := s.registry[other.id := other])
  }

  /** The invariant of a running flow survives a registration exactly when its reports still find its plan. */
  lemma RegistrationKeepsIff(def: FlowDef, s: System, other: FlowDef)
    requires Inv(def, s) && !s.state.status.NotStarted?
    ensures Inv(def, TakenOver(s, other)) <==> Harmless(def, s, other)
  {
  }

  lemma {:induction false} StartsInOrderIff(def: FlowDef, log: seq<Event>, ns: seq<NodeId>)
    requires Distinct(ns) && StartsFollowSuccesses(def, log)
    ensures StartsFollowSuccesses(def, log + Starts(ns))
            <==> forall m, k | k in ns && (m, k) in def.edges :: HasSucceeded(log, m)
  {
    if StartsFollowSuccesses(def, log + Starts(ns)) {
      forall m, k | k in ns && (m, k) in def.edges ensures HasSucceeded(log, m) {
        var i :| 0 <= i < |ns| && ns[i] == k;
        var log' := log + Starts(ns);
        assert log'[|log| + i] == NodeStarted(k);
        assert log'[..|log| + i] == log + Starts(ns[..i]);
        LogStarts(def, log, ns[..i]);
      }
    } else if forall m, k | k in ns && (m, k) in def.edges :: HasSucceeded(log, m) {
      StartsFollow(def, log, ns);
    }
  }

  lemma PrefixFollows(def: FlowDef, a: seq<Event>, b: seq<Event>)
    requires StartsFollowSuccesses(def, a + b)
    ensures StartsFollowSuccesses(def, a)
  {
    forall i, m | 0 <= i < |a| && a[i].NodeStarted? && (m, a[i].nodeId) in def.edges ensures HasSucceeded(a[..i], m) {
      assert (a + b)[i] == a[i] && (a + b)[..i] == a[..i];
    }
  }

  /** Once `n` has succeeded, every terminal has, and there is one. */
  ghost predicate TerminalsDone(def: FlowDef, st: NodeFlowState, n: NodeId) {
    var terminals := CompiledForm(def).terminalNodes;
    terminals != [] && forall t | t in terminals :: t == n || Status(st, t) == Completed
  }

  /** Every dependency of `k` but `n` has completed. */
  ghost predicate DoneBut(def: FlowDef, st: NodeFlowState, n: NodeId, k: NodeId) {
    forall m | (m, k) in def.edges && m != n :: Status(st, m) == Completed
  }

  /** What waits for `n` alone by the other plan waits for nothing else by this one. */
  ghost predicate NoneEarly(def: FlowDef, other: FlowDef, st: NodeFlowState, n: NodeId) {
    forall k | WaitsOnlyFor(other, st, n, k) :: DoneBut(def, st, n, k)
  }

  lemma ReadyWaits(def: FlowDef, st: NodeFlowState, n: NodeId, result: Json)
    requires Status(st, n) == Running
    ensures var ready := ReadyNodes(ApplyEvent(st, NodeSucceeded(n, result)), CompiledForm(def), def.nodes);
            Distinct(ready) && forall k: NodeId :: k in ready <==> WaitsOnlyFor(def, st, n, k)
  {
    var mid := ApplyEvent(st, NodeSucceeded(n, result));
    ReadyNodesHold(mid, def, def.nodes);
    forall k: NodeId ensures DepsDone(def, mid, k) <==> DoneBut(def, st, n, k) {
      assert forall m: NodeId :: Status(mid, m) == if m == n then Completed else Status(st, m);
    }
  }

  lemma AnnouncesIff(def: FlowDef, st: NodeFlowState, n: NodeId, result: Json)
    requires Status(st, n) == Running
    ensures var mid := ApplyEvents(st, SuccessEvents(def, st, n, result));
            Completion(def, mid) == if TerminalsDone(def, st, n) then [FlowCompleted(mid.context)] else []
  {
    SuccessApplied(def, st, n, result);
    ReadyStatuses(def, st, n, result);
    var mid := ApplyEvents(st, SuccessEvents(def, st, n, result));
    var terminals := CompiledForm(def).terminalNodes;
    assert forall m: NodeId :: Status(mid, m) == Completed <==> m == n || Status(st, m) == Completed;
    if AllCompletedIn(mid, terminals) {
      forall t | t in terminals ensures t == n || Status(st, t) == Completed {
        var i :| 0 <= i < |terminals| && terminals[i] == t;
      }
    } else {
      var i :| 0 <= i < |terminals| && Status(mid, terminals[i]) != Completed;
      assert terminals[i] in terminals;
    }
  }

  /** The journal after a success of `n` and the starts of what is ready by `other` then. */
  lemma StartedLogged(def: FlowDef, other: FlowDef, st: NodeFlowState, log: seq<Event>, n: NodeId, result: Json)
    requires Traced(def, st, log) && Status(st, n) == Running
    ensures var ready := ReadyNodes(ApplyEvent(st, NodeSucceeded(n, result)), CompiledForm(other), other.nodes);
            var log' := (log + [NodeSucceeded(n, result)]) + Starts(ready);
            && StartsWaiting(other, st, log, n, log')
            && (StartsFollowSuccesses(def, log') <==> NoneEarly(def, other, st, n))
            && CompletionCount(log') == CompletionCount(log)
  {
    var ready := ReadyNodes(ApplyEvent(st, NodeSucceeded(n, result)), CompiledForm(other), other.nodes);
    var succeeded := log + [NodeSucceeded(n, result)];
    ReadyWaits(other, st, n, result);
    LogOne(def, log, NodeSucceeded(n, result));
    LogStarts(def, succeeded, ready);
    StartsInOrderIff(def, succeeded, ready);
    forall k: NodeId ensures DoneBut(def, st, n, k) <==> forall m | (m, k) in def.edges :: HasSucceeded(succeeded, m) {
    }
  }

  ghost predicate StartsWaiting(other: FlowDef, st: NodeFlowState, log: seq<Event>, n: NodeId, log': seq<Event>) {
    forall k: NodeId :: StartCount(log', k) == StartCount(log, k) + if WaitsOnlyFor(other, st, n, k) then 1 else 0
  }

  /** What a success of `n` that the definition `other` decided adds to the journal. */
  ghost predicate OtherOutcome(def: FlowDef, other: FlowDef, st: NodeFlowState, log: seq<Event>, n: NodeId,
                               log': seq<Event>) {
    && StartsWaiting(other, st, log, n, log')
    && (StartsFollowSuccesses(def, log') <==> NoneEarly(def, other, st, n))
    && CompletionCount(log') == if TerminalsDone(other, st, n) then 1 else 0
  }

  lemma OtherSuccessLogged(def: FlowDef, other: FlowDef, st: NodeFlowState, log: seq<Event>, n: NodeId, result: Json)
    requires Traced(def, st, log) && CompletionCount(log) == 0 && Status(st, n) == Running
    ensures OtherOutcome(def, other, st, log, n, log + CompletedDecision(other, st, n, result).events)
  {
    var succeeded := NodeSucceeded(n, result);
    var ready := ReadyNodes(ApplyEvent(st, succeeded), CompiledForm(other), other.nodes);
    var started := (log + [succeeded]) + Starts(ready);
    var completion := Completion(other, ApplyEvents(st, SuccessEvents(other, st, n, result)));
    SuccessApplied(other, st, n, result);
    assert log + CompletedDecision(other, st, n, result).events == started + completion;
    AnnouncesIff(other, st, n, result);
    StartedLogged(def, other, st, log, n, result);
    AnnouncementLogged(def, started, completion);
  }

  lemma AnnouncementLogged(def: FlowDef, log: seq<Event>, completion: seq<Event>)
    requires completion == [] || (|completion| == 1 && completion[0].FlowCompleted?)
    ensures forall k :: StartCount(log + completion, k) == StartCount(log, k)
    ensures StartsFollowSuccesses(def, log + completion) <==> StartsFollowSuccesses(def, log)
    ensures CompletionCount(log + completion) == CompletionCount(log) + |completion|
  {
    if completion == [] {
      assert log + completion == log;
    } else {
      assert completion == [completion[0]];
      LogOne(def, log, completion[0]);
      if StartsFollowSuccesses(def, log + completion) {
        PrefixFollows(def, log, completion);
      }
    }
  }

  /** After a takeover with nothing cached the next completion starts what is ready by the other plan: a start is early
      exactly when such a node has a dependency of its own flow that has not completed, and completion is announced
      exactly when the other plan's terminals are done, whatever this flow's are. */
  lemma TakeoverBreaksIff(def: FlowDef, s: System, other: FlowDef, n: NodeId, result: Json, s': System)
    requires Inv(def, s) && !s.state.status.NotStarted? && s.state.compiled.None? && n in s.inflight
    requires other.id == def.id && Compiles(other)
    requires Delivers(Reported(TakenOver(s, other), n), ReportCompleted(n, result), s')
    ensures OtherOutcome(def, other, s.state, s.log, n, s'.log)
  {
    assert n in RunningNodes(s.state) && n in def.nodes && !AllDone(def, s.state);
    var cached := s.state.(compiled := Some(CompiledForm(other)));
    ReportDelivers(other, Reported(TakenOver(s, other), n), ReportCompleted(n, result), s');
    CacheKeepsOrder(def, s.state, Some(CompiledForm(other)), s.log);
    OtherSuccessLogged(def, other, cached, s.log, n, result);
    CacheKeepsOutcome(def, other, s.state, cached, s.log, n, s'.log);
  }

  lemma CacheKeepsOutcome(def: FlowDef, other: FlowDef, st: NodeFlowState, st': NodeFlowState, log: seq<Event>,
                          n: NodeId, log': seq<Event>)
    requires st.nodeStatuses == st'.nodeStatuses && OtherOutcome(def, other, st', log, n, log')
    ensures OtherOutcome(def, other, st, log, n, log')
  {
    assert forall m: NodeId :: Status(st', m) == Status(st, m);
    assert forall k: NodeId :: WaitsOnlyFor(other, st', n, k) <==> WaitsOnlyFor(other, st, n, k);
    assert forall k: NodeId :: DoneBut(def, st', n, k) <==> DoneBut(def, st, n, k);
  }

  /** Node 2 depends on the nodes 0 and 1. */
  function Joined(): FlowDef {
    var nodes: NodeIds := [0, 1, 2];
    FlowDef("f", nodes, [(0, 2), (1, 2)], {}, map[])
  }

  /** Another entity's flow of the same id, with no edges. */
  function Loose(): FlowDef {
    var nodes: NodeIds := [0, 1, 2];
    FlowDef("f", nodes, [], {}, map[])
  }

  lemma JoinedCompiles()
    ensures Compiles(Joined()) && Compiles(Loose())
  {
    var def := Joined();
    var order: seq<NodeId> := [2, 0, 1];
    forall i, m | 0 <= i < |order| && (order[i], m) in def.edges ensures m in order[..i] {
      assert i > 0 && m == 2 && order[..i][0] == 2;
    }
    assert EdgesKnown(def);
    FinishOrderIsAcyclic(def, order);
    FinishOrderIsAcyclic(Loose(), order);
  }

  lemma JoinedRoots()
    ensures forall n :: n in CompiledForm(Joined()).rootNodes <==> n == 0 || n == 1
  {
    var def := Joined();
    RootsReady(def, INITIAL_STATE);
    assert (0, 2) in def.edges && !DepsDone(def, INITIAL_STATE, 2);
    assert forall m :: (m, 0) !in def.edges && (m, 1) !in def.edges;
  }

  lemma JoinedStarts() returns (run: seq<System>, steps: seq<Step>)
    ensures IsRun(Joined(), run, steps) && |run| == 2 && Inv(Joined(), run[1])
    ensures run[1].state.status.FlowIsRunning? && run[1].state.flowDefId == Some("f") && run[1].state.compiled.None?
    ensures forall m :: Status(run[1].state, m) == if m == 0 || m == 1 then Running else Pending
  {
    var def := Joined();
    JoinedCompiles();
    JoinedRoots();
    run, steps := StartRun(def);
  }

  lemma StartRun(def: FlowDef) returns (run: seq<System>, steps: seq<Step>)
    requires Compiles(def) && def.id != ""
    ensures IsRun(def, run, steps) && |run| == 2 && Inv(def, run[1])
    ensures run[1].state.status.FlowIsRunning? && run[1].state.compiled.None?
    ensures forall m :: Status(run[1].state, m) == if m in CompiledForm(def).rootNodes then Running else Pending
  {
    FirstStart(def);
    FirstStartKeeps(def);
    RestartKeepsCache(def, INITIAL_STATE, map[]);
    run, steps := [Unstarted(), Started(def, Unstarted(), map[])], [Start(map[])];
    assert StepAt(def, run, steps, 0);
  }

  /** The flow is started, the edgeless one takes over, node 0 completes, and node 2 starts while node 1 runs. */
  lemma TakeoverStartsEarly() returns (run: seq<System>, steps: seq<Step>, s': System)
    ensures IsRun(Joined(), run, steps) && |run| == 2 && Status(run[1].state, 1) == Running
    ensures 0 in run[1].inflight
            && Delivers(Reported(TakenOver(run[1], Loose()), 0), ReportCompleted(0, Null), s')
    ensures StartCount(s'.log, 2) == 1 && !StartsFollowSuccesses(Joined(), s'.log)
  {
    run, steps := JoinedStarts();
    JoinedCompiles();
    s' := LooseReport(run[1]);
    assert 0 in RunningNodes(run[1].state);
    TakeoverBreaksIff(Joined(), run[1], Loose(), 0, Null, s');
    LooseIsEarly(run[1].state);
  }

  lemma LooseIsEarly(st: NodeFlowState)
    requires Status(st, 1) == Running && Status(st, 2) == Pending
    ensures WaitsOnlyFor(Loose(), st, 0, 2) && !NoneEarly(Joined(), Loose(), st, 0)
  {
    assert 2 in Loose().nodes && (1, 2) in Joined().edges;
    assert !DoneBut(Joined(), st, 0, 2);
  }

  lemma LooseReport(s: System) returns (s': System)
    requires s.state.flowDefId == Some("f") && s.state.compiled.None? && Compiles(Loose())
    ensures Delivers(Reported(TakenOver(s, Loose()), 0), ReportCompleted(0, Null), s')
  {
    var t := Reported(TakenOver(s, Loose()), 0);
    var d := CompletedDecision(Loose(), CachedAfter(t.registry, t.state, ReportCompleted(0, Null)), 0, Null);
    assert Decides(t.registry, t.state, ReportCompleted(0, Null), d);
    s' := After(t, ReportCompleted(0, Null), d);
  }

  // ---- Flows without a name ----

  /** The state of a flow that has just been started, with its definition nowhere to be found. */
  ghost predicate AsStarted(def: FlowDef, st: NodeFlowState) {
    var roots := CompiledForm(def).rootNodes;
    && st.flowDefId == Some(def.id) && st.compiled.None? && st.status.FlowIsRunning? && st.activeNodeCount == |roots|
    && forall m :: Status(st, m) == if m in roots then Running else Pending
  }

  ghost predicate NamelessInv(def: FlowDef, s: System) {
    && CompletionCount(s.log) == 0
    && if s.state.status.NotStarted? then s.state == INITIAL_STATE && s.inflight == multiset{}
       else AsStarted(def, s.state)
  }

  /** A report to a flow whose id is empty is answered with an error and changes nothing. */
  lemma NamelessIsRefused(s: System, cmd: Command, s': System)
    requires s.state.flowDefId == Some("") && s.state.compiled.None? && (cmd.ReportCompleted? || cmd.ReportFailed?)
    requires Delivers(s, cmd, s')
    ensures s' == s && Decides(s.registry, s.state, cmd, Decision([], [], Some(Error("no flow running"))))
  {
    var none: seq<NodeId> := [];
    assert multiset(none) == multiset{} && s.log + [] == s.log;
  }

  lemma NamelessStart(def: FlowDef, s: System, context: Context, s': System)
    requires s.state == INITIAL_STATE && CompletionCount(s.log) == 0 && Delivers(s, StartFlow(def, context), s')
    ensures NamelessInv(def, s')
  {
    StartDelivers(def, s, context, s');
    RestartStatuses(def, INITIAL_STATE, context);
    RestartKeepsCache(def, INITIAL_STATE, context);
    var started := FlowStarted(def.id, def.initialContext + context);
    var roots := CompiledForm(def).rootNodes;
    LogOne(def, s.log, started);
    LogStarts(def, s.log + [started], roots);
    assert s'.log == (s.log + [started]) + Starts(roots);
  }

  lemma NamelessStep(def: FlowDef, s: System, step: Step, s': System)
    requires NamelessInv(def, s) && def.id == "" && Next(def, s, step, s')
    ensures NamelessInv(def, s') && (!s.state.status.NotStarted? ==> s'.state == s.state)
  {
    match step
    case Start(context) =>
      if s.state.status.NotStarted? {
        NamelessStart(def, s, context, s');
      } else {
        RejectedKeeps(def, s, StartFlow(def, context), s');
      }
    case Completes(n, result) => NamelessIsRefused(Reported(s, n), ReportCompleted(n, result), s');
    case Fails(n, error) => NamelessIsRefused(Reported(s, n), ReportFailed(n, error), s');
    case ChildDone(id, output) =>
      BystanderDelivers(s, id, output, s');
      LogOne(def, s.log, ChildFlowDone(id, output));
    case Query => RejectedKeeps(def, s, GetState, s');
    case Registers(other) =>
  }

  /** Started under the empty id, a flow never moves: its roots stay running whatever they report, nothing else ever
      starts, and no completion is announced. */
  lemma {:induction false} NamelessNeverMoves(def: FlowDef, run: seq<System>, steps: seq<Step>, i: nat)
    requires IsRun(def, run, steps) && def.id == "" && i < |run|
    ensures NamelessInv(def, run[i])
  {
    if i > 0 {
      NamelessNeverMoves(def, run, steps, i - 1);
      assert StepAt(def, run, steps, i - 1);
      NamelessStep(def, run[i - 1], steps[i - 1], run[i]);
    }
  }

  /** A start and the report of a root: the executor is done, its node stays running. */
  lemma NamelessRun(def: FlowDef) returns (run: seq<System>, steps: seq<Step>)
    requires Compiles(def) && def.nodes != [] && def.id == ""
    ensures IsRun(def, run, steps) && |run| == 3 && steps[1].Completes?
    ensures run[2].state == run[1].state && !IsExact(run[2])
  {
    var order := AcyclicHasFinishOrder(def);
    LastFinishedIsRoot(def, order);
    RootsReady(def, INITIAL_STATE);
    var n := CompiledForm(def).rootNodes[0];
    var s := Started(def, Unstarted(), map[]);
    FirstStart(def);
    RestartKeepsCache(def, INITIAL_STATE, map[]);
    var s' := Reported(s, n);
    NamelessDelivers(s', n);
    run, steps := [Unstarted(), s, s'], [Start(map[]), Completes(n, Null)];
    assert StepAt(def, run, steps, 0) && StepAt(def, run, steps, 1);
    TwoPlainSteps(def, run, steps);
    DistinctMultiset(CompiledForm(def).rootNodes);
    assert n in RunningNodes(s'.state) && s'.inflight[n] == 0;
  }

  lemma NamelessDelivers(s: System, n: NodeId)
    requires s.state.flowDefId == Some("") && s.state.compiled.None?
    ensures Delivers(s, ReportCompleted(n, Null), s)
  {
    var d := Decision([], [], Some(Error("no flow running")));
    assert Decides(s.registry, s.state, ReportCompleted(n, Null), d);
    assert multiset(d.fired) == multiset{} && s.log + [] == s.log;
    assert s == After(s, ReportCompleted(n, Null), d);
  }

  /** Exactly the running nodes have an executor that has not reported, and the counter counts them. */
  ghost predicate IsExact(s: System) {
    s.inflight == multiset(RunningNodes(s.state)) && s.state.activeNodeCount == |s.inflight|
  }

  /** The executors of a flow are accounted for in every state of every run exactly when the flow has a name. */
  lemma NameDecides(def: FlowDef)
    requires Compiles(def) && def.nodes != []
    ensures def.id != "" <==> forall run, steps, i: nat | IsRun(def, run, steps) && i < |run| :: IsExact(run[i])
  {
    if def.id != "" {
      forall run, steps, i: nat | IsRun(def, run, steps) && i < |run| ensures IsExact(run[i]) {
        ActiveCountIsExact(def, run, steps, i);
      }
    } else {
      var run, steps := NamelessRun(def);
      assert !IsExact(run[2]);
    }
  }
}
