/** Whole runs of one flow: a start, then the callbacks of fired executors in any order. */
module NodeFlowRuns {
  import opened Prelude
  import opened NodeFlowDef
  import opened NodeFlowAggregate

  /** The entity, the shared registry, executors that have not reported yet, and the journal. */
  datatype System = System(state: NodeFlowState, registry: map<string, FlowDef>, inflight: multiset<NodeId>,
                           log: seq<Event>)

  ghost function After(s: System, cmd: Command, d: Decision): System
    requires d.Decision?
  {
    System(ApplyEvents(CachedAfter(s.registry, s.state, cmd), d.events), RegistryAfter(s.registry, cmd, d),
           s.inflight + multiset(d.fired), s.log + d.events)
  }

  ghost predicate Delivers(s: System, cmd: Command, s': System) {
    exists d: Decision :: d.Decision? && Decides(s.registry, s.state, cmd, d) && s' == After(s, cmd, d)
  }

  function Reported(s: System, n: NodeId): System {
    s.(inflight := s.inflight - multiset{n})
  }

  datatype Step =
    | Start(context: Context)
    | Completes(n: NodeId, result: Json)
    | Fails(n: NodeId, error: string)
    | ChildDone(id: string, output: Json)
    | Query
    | Registers(other: FlowDef)

  /** Another entity may register its definition, under this flow's id only when that is harmless. */
  ghost predicate Registration(def: FlowDef, s: System, other: FlowDef, s': System) {
    && (!s.state.status.NotStarted? ==> Harmless(def, s, other))
    && s' == s.(registry := s.registry[other.id := other])
  }

  /** The same nodes, edges and skipped nodes, in whatever order. */
  ghost predicate SamePlan(a: FlowDef, b: FlowDef) {
    && (forall n :: n in a.nodes <==> n in b.nodes)
    && (forall m, n :: (m, n) in a.edges <==> (m, n) in b.edges)
    && (forall n | n in a.nodes :: n in a.skip <==> n in b.skip)
  }

  ghost predicate Harmless(def: FlowDef, s: System, other: FlowDef) {
    other.id != def.id || SamePlan(other, def) || s.state.compiled.Some?
  }

  /** One command: a start unless the flow is over, a report of a fired executor, or a bystander. */
  ghost predicate Next(def: FlowDef, s: System, step: Step, s': System) {
    match step
    case Start(context) => (s.state.status.NotStarted? || s.state.status.FlowIsRunning?)
                           && Delivers(s, StartFlow(def, context), s')
    case Completes(n, result) => n in s.inflight && Delivers(Reported(s, n), ReportCompleted(n, result), s')
    case Fails(n, error) => n in s.inflight && n !in def.skip && Delivers(Reported(s, n), ReportFailed(n, error), s')
    case ChildDone(id, output) => Delivers(s, ChildFlowCompleted(id, output), s')
    case Query => Delivers(s, GetState, s')
    case Registers(other) => Registration(def, s, other, s')
  }

  ghost predicate Initial(s: System) {
    s.state == INITIAL_STATE && s.inflight == multiset{} && s.log == []
  }

  ghost predicate IsPath(def: FlowDef, run: seq<System>, steps: seq<Step>) {
    |run| == |steps| + 1 && forall i: nat | i < |steps| :: StepAt(def, run, steps, i)
  }

  ghost predicate StepAt(def: FlowDef, run: seq<System>, steps: seq<Step>, i: nat)
    requires |run| == |steps| + 1 && i < |steps|
  {
    Next(def, run[i], steps[i], run[i + 1])
  }

  ghost predicate IsRun(def: FlowDef, run: seq<System>, steps: seq<Step>) {
    IsPath(def, run, steps) && Initial(run[0])
  }

  // ---- The invariant ----

  function RunningNodes(st: NodeFlowState): set<NodeId> {
    set n | n in st.nodeStatuses && st.nodeStatuses[n] == Running
  }

  /** Nothing was started too early, and the counter counts the running nodes. */
  ghost predicate Orderly(def: FlowDef, st: NodeFlowState) {
    && (forall n | n in st.nodeStatuses :: n in def.nodes)
    && (forall n | n in def.nodes && Status(st, n) != Pending :: DepsDone(def, st, n))
    && st.activeNodeCount == |RunningNodes(st)|
  }

  /** A node is pending exactly while some dependency has not completed; the counter counts the running ones. */
  ghost predicate Scheduled(def: FlowDef, st: NodeFlowState) {
    && (forall n | n in st.nodeStatuses :: n in def.nodes)
    && (forall n | n in def.nodes :: Status(st, n) == Pending <==> !DepsDone(def, st, n))
    && st.activeNodeCount == |RunningNodes(st)|
  }

  predicate Settled(st: NodeFlowState, n: NodeId) {
    Status(st, n) == Completed || Status(st, n) == Failed
  }

  function StartCount(log: seq<Event>, n: NodeId): nat {
    if log == [] then 0 else StartCount(log[..|log| - 1], n) + if log[|log| - 1] == NodeStarted(n) then 1 else 0
  }

  function CompletionCount(log: seq<Event>): nat {
    if log == [] then 0 else CompletionCount(log[..|log| - 1]) + if log[|log| - 1].FlowCompleted? then 1 else 0
  }

  ghost predicate HasSucceeded(log: seq<Event>, n: NodeId) {
    exists i :: 0 <= i < |log| && log[i].NodeSucceeded? && log[i].nodeId == n
  }

  /** Every start comes after the success of each dependency. */
  ghost predicate StartsFollowSuccesses(def: FlowDef, log: seq<Event>) {
    forall i, m | 0 <= i < |log| && log[i].NodeStarted? && (m, log[i].nodeId) in def.edges :: HasSucceeded(log[..i], m)
  }

  ghost predicate AllDone(def: FlowDef, st: NodeFlowState) {
    forall n | n in def.nodes :: Status(st, n) == Completed
  }

  ghost predicate Traced(def: FlowDef, st: NodeFlowState, log: seq<Event>) {
    && (forall n :: StartCount(log, n) == if Status(st, n) == Pending then 0 else 1)
    && (forall n :: Status(st, n) == Completed <==> HasSucceeded(log, n))
    && StartsFollowSuccesses(def, log)
  }

  ghost predicate Logged(def: FlowDef, st: NodeFlowState, log: seq<Event>) {
    && Traced(def, st, log)
    && CompletionCount(log) == (if AllDone(def, st) && def.nodes != [] then 1 else 0)
  }

  /** Reports find a definition with the plan of this flow. */
  ghost predicate Registered(def: FlowDef, s: System) {
    && Compiles(def) && s.state.flowDefId == Some(def.id)
    && KnownFlow(s.registry, s.state).Some? && SamePlan(KnownFlow(s.registry, s.state).value, def)
    && CacheHolds(s.state)
  }

  ghost predicate Inv(def: FlowDef, s: System) {
    && s.inflight == multiset(RunningNodes(s.state))
    && if s.state.status.NotStarted?
       then s.state == INITIAL_STATE && def.id != "" && forall i | 0 <= i < |s.log| :: s.log[i].ChildFlowDone?
       else Registered(def, s) && Scheduled(def, s.state) && Logged(def, s.state, s.log)
  }

  // ---- Applying a batch of starts ----

  lemma {:induction false} ApplyStarts(st: NodeFlowState, ns: seq<NodeId>)
    requires Distinct(ns)
    ensures var r := ApplyEvents(st, Starts(ns));
            && r == st.(nodeStatuses := r.nodeStatuses, activeNodeCount := st.activeNodeCount + |ns|)
            && (forall m :: Status(r, m) == if m in ns then Running else Status(st, m))
            && (forall m :: m in r.nodeStatuses <==> m in st.nodeStatuses || m in ns)
  {
    if ns != [] {
      var front := ns[..|ns| - 1];
      ApplyStarts(st, front);
      assert Starts(ns)[..|ns| - 1] == Starts(front);
      assert ns == front + [ns[|ns| - 1]];
    }
  }

  lemma {:induction false} DistinctMultiset(ns: seq<NodeId>)
    requires Distinct(ns)
    ensures multiset(ns) == multiset(SetOf(ns))
  {
    if ns != [] {
      var front, last := ns[..|ns| - 1], ns[|ns| - 1];
      DistinctMultiset(front);
      assert ns == front + [last];
      assert SetOf(ns) == SetOf(front) + {last};
    }
  }

  lemma StartsRun(st: NodeFlowState, ns: seq<NodeId>)
    requires Distinct(ns) && forall i | 0 <= i < |ns| :: Status(st, ns[i]) == Pending
    ensures var r := ApplyEvents(st, Starts(ns));
            && RunningNodes(r) == RunningNodes(st) + SetOf(ns)
            && |RunningNodes(r)| == |RunningNodes(st)| + |ns|
            && multiset(RunningNodes(r)) == multiset(RunningNodes(st)) + multiset(ns)
  {
    ApplyStarts(st, ns);
    DistinctMultiset(ns);
    DistinctCardinality(ns);
    var r := ApplyEvents(st, Starts(ns));
    forall m ensures m in RunningNodes(r) <==> m in RunningNodes(st) + SetOf(ns) {
      assert Status(r, m) == if m in ns then Running else Status(st, m);
    }
    assert RunningNodes(st) !! SetOf(ns);
  }

  // ---- What each command does to the schedule ----

  /** Starting every ready node of a state leaves no ready node. */
  lemma StartReady(def: FlowDef, st: NodeFlowState, ns: seq<NodeId>)
    requires Distinct(ns)
    requires forall n :: n in ns <==> n in def.nodes && Status(st, n) == Pending && DepsDone(def, st, n)
    requires forall n | n in st.nodeStatuses :: n in def.nodes
    requires forall n | n in def.nodes && Status(st, n) != Pending :: DepsDone(def, st, n)
    requires st.activeNodeCount == |RunningNodes(st)|
    ensures Scheduled(def, ApplyEvents(st, Starts(ns)))
  {
    ApplyStarts(st, ns);
    StartsRun(st, ns);
    var r := ApplyEvents(st, Starts(ns));
    forall n | n in def.nodes ensures Status(r, n) == Pending <==> !DepsDone(def, r, n) {
      assert DepsDone(def, st, n) <==> DepsDone(def, r, n);
    }
  }

  lemma SuccessKeeps(def: FlowDef, st: NodeFlowState, n: NodeId, output: Json)
    requires Orderly(def, st) && Status(st, n) == Running
    ensures var r := ApplyEvent(st, NodeSucceeded(n, output));
            && RunningNodes(r) == RunningNodes(st) - {n} && n in RunningNodes(st)
            && r.activeNodeCount == |RunningNodes(r)|
            && forall m | m in def.nodes && Status(r, m) != Pending :: DepsDone(def, r, m)
  {
    var r := ApplyEvent(st, NodeSucceeded(n, output));
    assert RunningNodes(r) == RunningNodes(st) - {n};
    forall m | m in def.nodes && Status(r, m) != Pending ensures DepsDone(def, r, m) {
      assert Status(st, m) != Pending && DepsDone(def, st, m);
    }
  }

  lemma RemoveOne(s: set<NodeId>, n: NodeId)
    requires n in s
    ensures multiset(s - {n}) == multiset(s) - multiset{n}
  {
  }

  lemma ReadyStart(def: FlowDef, st: NodeFlowState, n: NodeId, output: Json)
    requires Orderly(def, st) && n in def.nodes && Status(st, n) == Running
    ensures var mid := ApplyEvent(st, NodeSucceeded(n, output));
            var ready := ReadyNodes(mid, CompiledForm(def), def.nodes);
            var r := ApplyEvents(mid, Starts(ready));
            && Scheduled(def, r)
            && multiset(RunningNodes(r)) == multiset(RunningNodes(st)) - multiset{n} + multiset(ready)
  {
    var mid := ApplyEvent(st, NodeSucceeded(n, output));
    SuccessKeeps(def, st, n, output);
    var ready := ReadyNodes(mid, CompiledForm(def), def.nodes);
    ReadyNodesHold(mid, def, def.nodes);
    StartReady(def, mid, ready);
    StartsRun(mid, ready);
    RemoveOne(RunningNodes(st), n);
  }

  lemma ReadyStatuses(def: FlowDef, st: NodeFlowState, n: NodeId, output: Json)
    requires Status(st, n) == Running
    ensures var mid := ApplyEvent(st, NodeSucceeded(n, output));
            var ready := ReadyNodes(mid, CompiledForm(def), def.nodes);
            var r := ApplyEvents(mid, Starts(ready));
            && Distinct(ready)
            && (forall m | m in ready :: m != n && Status(st, m) == Pending && DepsDone(def, mid, m))
            && (forall m :: Status(r, m) == if m == n then Completed else if m in ready then Running else Status(st, m))
            && (r.flowDefId, r.compiled, r.status) == (st.flowDefId, st.compiled, st.status)
  {
    var mid := ApplyEvent(st, NodeSucceeded(n, output));
    var ready := ReadyNodes(mid, CompiledForm(def), def.nodes);
    ReadyNodesHold(mid, def, def.nodes);
    ApplyStarts(mid, ready);
    assert forall m :: Status(mid, m) == if m == n then Completed else Status(st, m);
  }

  function SuccessEvents(def: FlowDef, st: NodeFlowState, n: NodeId, result: Json): seq<Event> {
    [NodeSucceeded(n, result)]
        + Starts(ReadyNodes(ApplyEvent(st, NodeSucceeded(n, result)), CompiledForm(def), def.nodes))
  }

  lemma SuccessApplied(def: FlowDef, st: NodeFlowState, n: NodeId, result: Json)
    ensures var mid := ApplyEvent(st, NodeSucceeded(n, result));
            var ready := ReadyNodes(mid, CompiledForm(def), def.nodes);
            var events := SuccessEvents(def, st, n, result);
            && ApplyEvents(st, events) == ApplyEvents(mid, Starts(ready))
            && CompletedDecision(def, st, n, result)
                == Decision(events + Completion(def, ApplyEvents(st, events)), ready, None)
  {
    ApplyOneEvent(st, NodeSucceeded(n, result));
    var ready := ReadyNodes(ApplyEvent(st, NodeSucceeded(n, result)), CompiledForm(def), def.nodes);
    ApplyEventsConcat(st, [NodeSucceeded(n, result)], Starts(ready));
  }

  lemma CompletedStatuses(def: FlowDef, st: NodeFlowState, n: NodeId, result: Json)
    requires Status(st, n) == Running
    ensures var d := CompletedDecision(def, st, n, result);
            var r := ApplyEvents(st, d.events);
            && (forall m :: Status(r, m) == if m == n then Completed
                            else if m in d.fired then Running else Status(st, m))
            && (r.flowDefId, r.compiled) == (st.flowDefId, st.compiled)
            && (r.status == st.status || r.status.FlowIsCompleted?)
  {
    SuccessApplied(def, st, n, result);
    ReadyStatuses(def, st, n, result);
    CompletionKeeps(def, st, SuccessEvents(def, st, n, result));
  }

  lemma CompletedSchedules(def: FlowDef, st: NodeFlowState, n: NodeId, result: Json)
    requires Orderly(def, st) && n in def.nodes && Status(st, n) == Running
    ensures var d := CompletedDecision(def, st, n, result);
            var r := ApplyEvents(st, d.events);
            && Scheduled(def, r)
            && multiset(RunningNodes(r)) == multiset(RunningNodes(st)) - multiset{n} + multiset(d.fired)
  {
    SuccessApplied(def, st, n, result);
    ReadyStart(def, st, n, result);
    CompletionKeeps(def, st, SuccessEvents(def, st, n, result));
  }

  /** Announcing the completion changes neither statuses nor counters. */
  lemma CompletionKeeps(def: FlowDef, st: NodeFlowState, events: seq<Event>)
    ensures var mid := ApplyEvents(st, events);
            var r := ApplyEvents(st, events + Completion(def, mid));
            && r.nodeStatuses == mid.nodeStatuses && r.activeNodeCount == mid.activeNodeCount
            && (r.flowDefId, r.compiled) == (mid.flowDefId, mid.compiled)
            && (forall n :: DepsDone(def, r, n) <==> DepsDone(def, mid, n))
            && (Scheduled(def, mid) ==> Scheduled(def, r))
            && RunningNodes(r) == RunningNodes(mid)
            && (r.status == mid.status || r.status.FlowIsCompleted?)
  {
    var mid := ApplyEvents(st, events);
    ApplyEventsConcat(st, events, Completion(def, mid));
    var r := ApplyEvents(st, events + Completion(def, mid));
    assert Completion(def, mid) == [] || Completion(def, mid)[..0] == [];
    assert r.nodeStatuses == mid.nodeStatuses;
    assert forall n :: Status(r, n) == Status(mid, n);
    assert RunningNodes(r) == RunningNodes(mid);
    assert forall n :: DepsDone(def, r, n) <==> DepsDone(def, mid, n);
  }

  // ---- Terminals decide completion ----

  lemma {:induction false} CompletedUpTo(def: FlowDef, st: NodeFlowState, order: seq<NodeId>, i: nat)
    requires FinishOrder(def, order) && Scheduled(def, st) && i < |order|
    requires forall n | n in CompiledForm(def).terminalNodes :: Status(st, n) == Completed
    ensures Status(st, order[i]) == Completed
    decreases i
  {
    var n := order[i];
    assert n in order;
    var targets := Targets(def.edges, n);
    TargetsHold(def.edges, n);
    EmptyEntriesHold(def.nodes, Dependents(def));
    FirstIsIn(targets);
    if targets != [] {
      var j :| 0 <= j < i && order[..i][j] == targets[0];
      CompletedUpTo(def, st, order, j);
      assert order[j] in order && DepsDone(def, st, order[j]);
    }
  }

  /** Completed terminals mean a completed flow: every node leads to a terminal. */
  lemma TerminalsDecide(def: FlowDef, st: NodeFlowState)
    requires Compiles(def) && Scheduled(def, st)
    ensures Completion(def, st) == if AllDone(def, st) && def.nodes != [] then [FlowCompleted(st.context)] else []
  {
    var terminals := CompiledForm(def).terminalNodes;
    EmptyEntriesHold(def.nodes, Dependents(def));
    FirstIsIn(terminals);
    var order := AcyclicHasFinishOrder(def);
    if AllCompletedIn(st, terminals) && terminals != [] {
      forall n | n in def.nodes ensures Status(st, n) == Completed {
        var i :| 0 <= i < |order| && order[i] == n;
        CompletedUpTo(def, st, order, i);
      }
    }
    if AllDone(def, st) && def.nodes != [] {
      assert def.nodes[0] in order;
      assert order[0] in order;
      TargetsHold(def.edges, order[0]);
      FirstIsIn(Targets(def.edges, order[0]));
      assert order[0] in terminals;
      forall i | 0 <= i < |terminals| ensures Status(st, terminals[i]) == Completed {
        assert terminals[i] in terminals;
      }
    }
  }

  // ---- The journal ----

  lemma LogOne(def: FlowDef, log: seq<Event>, ev: Event)
    ensures forall n :: StartCount(log + [ev], n) == StartCount(log, n) + if ev == NodeStarted(n) then 1 else 0
    ensures forall n :: HasSucceeded(log + [ev], n) <==> HasSucceeded(log, n) || (ev.NodeSucceeded? && ev.nodeId == n)
    ensures CompletionCount(log + [ev]) == CompletionCount(log) + if ev.FlowCompleted? then 1 else 0
    ensures StartsFollowSuccesses(def, log) && (ev.NodeStarted?
                                                ==> forall m | (m, ev.nodeId) in def.edges :: HasSucceeded(log, m))
        ==> StartsFollowSuccesses(def, log + [ev])
  {
    var log' := log + [ev];
    assert log'[..|log'| - 1] == log;
    forall n ensures HasSucceeded(log', n) <==> HasSucceeded(log, n) || (ev.NodeSucceeded? && ev.nodeId == n) {
      if HasSucceeded(log, n) {
        var i :| 0 <= i < |log| && log[i].NodeSucceeded? && log[i].nodeId == n;
        assert log'[i] == log[i];
      }
      if ev.NodeSucceeded? && ev.nodeId == n {
        assert log'[|log|] == ev;
      }
    }
    if StartsFollowSuccesses(def, log)
        && (ev.NodeStarted? ==> forall m | (m, ev.nodeId) in def.edges :: HasSucceeded(log, m))
    {
      forall i, m | 0 <= i < |log'| && log'[i].NodeStarted? && (m, log'[i].nodeId) in def.edges
          ensures HasSucceeded(log'[..i], m)
      {
        if i < |log| {
          assert log'[..i] == log[..i] && log'[i] == log[i];
        }
      }
    }
  }

  lemma {:induction false} LogStarts(def: FlowDef, log: seq<Event>, ns: seq<NodeId>)
    requires Distinct(ns)
    ensures forall n :: StartCount(log + Starts(ns), n) == StartCount(log, n) + if n in ns then 1 else 0
    ensures forall n :: HasSucceeded(log + Starts(ns), n) <==> HasSucceeded(log, n)
    ensures CompletionCount(log + Starts(ns)) == CompletionCount(log)
  {
    if ns == [] {
      assert log + Starts(ns) == log;
    } else {
      var front, last := ns[..|ns| - 1], ns[|ns| - 1];
      LogStarts(def, log, front);
      assert ns == front + [last];
      assert log + Starts(ns) == (log + Starts(front)) + [NodeStarted(last)];
      LogOne(def, log + Starts(front), NodeStarted(last));
    }
  }

  lemma {:induction false} StartsFollow(def: FlowDef, log: seq<Event>, ns: seq<NodeId>)
    requires Distinct(ns) && StartsFollowSuccesses(def, log)
    requires forall m, n | n in ns && (m, n) in def.edges :: HasSucceeded(log, m)
    ensures StartsFollowSuccesses(def, log + Starts(ns))
  {
    if ns == [] {
      assert log + Starts(ns) == log;
    } else {
      var front, last := ns[..|ns| - 1], ns[|ns| - 1];
      StartsFollow(def, log, front);
      LogStarts(def, log, front);
      assert log + Starts(ns) == (log + Starts(front)) + [NodeStarted(last)];
      LogOne(def, log + Starts(front), NodeStarted(last));
    }
  }

  lemma TraceSuccess(def: FlowDef, st: NodeFlowState, log: seq<Event>, n: NodeId, output: Json)
    requires Traced(def, st, log) && Status(st, n) == Running
    ensures Traced(def, ApplyEvent(st, NodeSucceeded(n, output)), log + [NodeSucceeded(n, output)])
  {
    LogOne(def, log, NodeSucceeded(n, output));
    var mid := ApplyEvent(st, NodeSucceeded(n, output));
    assert forall m :: Status(mid, m) == if m == n then Completed else Status(st, m);
  }

  lemma TraceStarts(def: FlowDef, st: NodeFlowState, log: seq<Event>, ns: seq<NodeId>)
    requires Traced(def, st, log) && Distinct(ns)
    requires forall n | n in ns :: Status(st, n) == Pending && DepsDone(def, st, n)
    ensures Traced(def, ApplyEvents(st, Starts(ns)), log + Starts(ns))
  {
    LogStarts(def, log, ns);
    ApplyStarts(st, ns);
    forall m, n | n in ns && (m, n) in def.edges ensures HasSucceeded(log, m) {
      assert DepsDone(def, st, n);
    }
    StartsFollow(def, log, ns);
  }

  /** The journal after a success followed by the starts it enables. */
  lemma TraceReady(def: FlowDef, st: NodeFlowState, log: seq<Event>, n: NodeId, output: Json)
    requires Traced(def, st, log) && Status(st, n) == Running
    ensures var mid := ApplyEvent(st, NodeSucceeded(n, output));
            var ready := ReadyNodes(mid, CompiledForm(def), def.nodes);
            && Traced(def, ApplyEvents(mid, Starts(ready)), (log + [NodeSucceeded(n, output)]) + Starts(ready))
            && CompletionCount((log + [NodeSucceeded(n, output)]) + Starts(ready)) == CompletionCount(log)
  {
    var mid := ApplyEvent(st, NodeSucceeded(n, output));
    var ready := ReadyNodes(mid, CompiledForm(def), def.nodes);
    ReadyNodesHold(mid, def, def.nodes);
    TraceSuccess(def, st, log, n, output);
    TraceStarts(def, mid, log + [NodeSucceeded(n, output)], ready);
    LogOne(def, log, NodeSucceeded(n, output));
    LogStarts(def, log + [NodeSucceeded(n, output)], ready);
  }

  /** Appending the announcement exactly when everything is done. */
  lemma TraceCompletion(def: FlowDef, st: NodeFlowState, events: seq<Event>, log: seq<Event>)
    requires var mid := ApplyEvents(st, events); Compiles(def) && Scheduled(def, mid) && Traced(def, mid, log)
    requires CompletionCount(log) == 0
    ensures var mid := ApplyEvents(st, events);
            Logged(def, ApplyEvents(st, events + Completion(def, mid)), log + Completion(def, mid))
  {
    var mid := ApplyEvents(st, events);
    TerminalsDecide(def, mid);
    CompletionKeeps(def, st, events);
    var r := ApplyEvents(st, events + Completion(def, mid));
    assert forall m :: Status(r, m) == Status(mid, m);
    assert AllDone(def, r) <==> AllDone(def, mid);
    if AllDone(def, mid) && def.nodes != [] {
      LogOne(def, log, FlowCompleted(mid.context));
    } else {
      assert log + Completion(def, mid) == log;
    }
  }

  lemma SuccessTraced(def: FlowDef, st: NodeFlowState, log: seq<Event>, n: NodeId, result: Json)
    requires Orderly(def, st) && Traced(def, st, log) && CompletionCount(log) == 0
    requires Status(st, n) == Running && n in def.nodes
    ensures var events := SuccessEvents(def, st, n, result);
            var mid := ApplyEvents(st, events);
            Scheduled(def, mid) && Traced(def, mid, log + events) && CompletionCount(log + events) == 0
  {
    var succeeded := [NodeSucceeded(n, result)];
    ApplyOneEvent(st, NodeSucceeded(n, result));
    var starts := Starts(ReadyNodes(ApplyEvent(st, NodeSucceeded(n, result)), CompiledForm(def), def.nodes));
    ApplyEventsConcat(st, succeeded, starts);
    TraceReady(def, st, log, n, result);
    ReadyStart(def, st, n, result);
    Regroup(log, succeeded, starts);
  }

  lemma CompletedLogged(def: FlowDef, st: NodeFlowState, log: seq<Event>, n: NodeId, result: Json)
    requires Compiles(def) && Orderly(def, st) && Traced(def, st, log) && CompletionCount(log) == 0
    requires Status(st, n) == Running && n in def.nodes
    ensures var d := CompletedDecision(def, st, n, result);
            Logged(def, ApplyEvents(st, d.events), log + d.events)
  {
    var events := SuccessEvents(def, st, n, result);
    SuccessTraced(def, st, log, n, result);
    TraceCompletion(def, st, events, log + events);
    var completion := Completion(def, ApplyEvents(st, events));
    Regroup(log, events, completion);
    ApplyOneEvent(st, NodeSucceeded(n, result));
  }

  // ---- Every command keeps the invariant ----

  lemma CacheKeeps(def: FlowDef, st: NodeFlowState, compiled: Option<CompiledFlow>, log: seq<Event>)
    ensures Scheduled(def, st) ==> Scheduled(def, st.(compiled := compiled))
    ensures Logged(def, st, log) ==> Logged(def, st.(compiled := compiled), log)
    ensures RunningNodes(st.(compiled := compiled)) == RunningNodes(st)
  {
    var st' := st.(compiled := compiled);
    assert forall n :: Status(st', n) == Status(st, n);
    assert forall n :: DepsDone(def, st', n) <==> DepsDone(def, st, n);
    assert AllDone(def, st') <==> AllDone(def, st);
    assert RunningNodes(st') == RunningNodes(st);
  }

  lemma {:induction false} BystandersLogged(def: FlowDef, log: seq<Event>)
    requires forall i | 0 <= i < |log| :: log[i].ChildFlowDone?
    ensures (forall n :: StartCount(log, n) == 0) && CompletionCount(log) == 0
  {
    if log != [] {
      BystandersLogged(def, log[..|log| - 1]);
    }
  }

  lemma StartSchedules(def: FlowDef, context: Context)
    requires Compiles(def)
    ensures var d := StartDecision(def, context);
            var mid := ApplyEvent(INITIAL_STATE, FlowStarted(def.id, def.initialContext + context));
            var r := ApplyEvents(INITIAL_STATE, d.events);
            && Scheduled(def, r) && r == ApplyEvents(mid, Starts(d.fired))
            && multiset(RunningNodes(r)) == multiset(d.fired)
            && r.flowDefId == Some(def.id) && r.compiled.None? && r.status.FlowIsRunning?
            && (forall m :: Status(r, m) != Completed)
  {
    var roots := CompiledForm(def).rootNodes;
    var started := FlowStarted(def.id, def.initialContext + context);
    var mid := ApplyEvent(INITIAL_STATE, started);
    ApplyOneEvent(INITIAL_STATE, started);
    ApplyEventsConcat(INITIAL_STATE, [started], Starts(roots));
    RootsReady(def, mid);
    StartReady(def, mid, roots);
    StartsRun(mid, roots);
    ApplyStarts(mid, roots);
  }

  lemma StartLogs(def: FlowDef, log: seq<Event>, context: Context)
    requires Compiles(def) && forall i | 0 <= i < |log| :: log[i].ChildFlowDone?
    ensures var mid := ApplyEvent(INITIAL_STATE, FlowStarted(def.id, def.initialContext + context));
            var roots := CompiledForm(def).rootNodes;
            var log' := log + [FlowStarted(def.id, def.initialContext + context)] + Starts(roots);
            Traced(def, ApplyEvents(mid, Starts(roots)), log') && CompletionCount(log') == 0
  {
    var roots := CompiledForm(def).rootNodes;
    var started := FlowStarted(def.id, def.initialContext + context);
    var mid := ApplyEvent(INITIAL_STATE, started);
    RootsReady(def, mid);
    BystandersLogged(def, log);
    LogOne(def, log, started);
    TraceStarts(def, mid, log + [started], roots);
    LogStarts(def, log + [started], roots);
  }

  lemma StartKeeps(def: FlowDef, log: seq<Event>, context: Context)
    requires Compiles(def) && forall i | 0 <= i < |log| :: log[i].ChildFlowDone?
    ensures var d := StartDecision(def, context);
            var r := ApplyEvents(INITIAL_STATE, d.events);
            && Scheduled(def, r) && Logged(def, r, log + d.events)
            && multiset(RunningNodes(r)) == multiset(d.fired)
            && r.flowDefId == Some(def.id) && r.compiled.None? && r.status.FlowIsRunning?
  {
    var d := StartDecision(def, context);
    StartSchedules(def, context);
    StartLogs(def, log, context);
    Regroup(log, [d.events[0]], Starts(d.fired));
    if def.nodes != [] {
      assert def.nodes[0] in def.nodes && Status(ApplyEvents(INITIAL_STATE, d.events), def.nodes[0]) != Completed;
    }
  }

  lemma RootsReady(def: FlowDef, st: NodeFlowState)
    requires st.nodeStatuses == map[]
    ensures var roots := CompiledForm(def).rootNodes;
            && Distinct(roots)
            && forall n :: n in roots <==> n in def.nodes && Status(st, n) == Pending && DepsDone(def, st, n)
  {
    EmptyEntriesHold(def.nodes, Dependencies(def));
    forall n | n in def.nodes ensures n in CompiledForm(def).rootNodes <==> DepsDone(def, st, n) {
      SourcesHold(def.edges, n);
      FirstIsIn(Sources(def.edges, n));
    }
  }

  /** What a report of the running node `n` leaves, with `fired` started. */
  ghost predicate Outcome(def: FlowDef, st: NodeFlowState, n: NodeId, d: Decision, log: seq<Event>)
    requires d.Decision?
  {
    var r := ApplyEvents(st, d.events);
    && Scheduled(def, r) && Logged(def, r, log + d.events)
    && multiset(RunningNodes(r)) == multiset(RunningNodes(st)) - multiset{n} + multiset(d.fired)
    && (r.flowDefId, r.compiled) == (st.flowDefId, st.compiled)
    && (r.status == st.status || r.status.FlowIsCompleted? || r.status.FlowHasFailed?)
  }

  lemma FailedSchedules(def: FlowDef, st: NodeFlowState, n: NodeId, error: string)
    requires Orderly(def, st) && n in def.nodes && Status(st, n) == Running
    ensures var r := ApplyEvents(st, [NodeFailed(n, error), FlowFailed(n, error)]);
            && Orderly(def, r) && (Scheduled(def, st) ==> Scheduled(def, r))
            && RunningNodes(r) == RunningNodes(st) - {n} && n in RunningNodes(st)
            && (forall m :: Status(r, m) == if m == n then Failed else Status(st, m))
            && (r.flowDefId, r.compiled) == (st.flowDefId, st.compiled) && r.status.FlowHasFailed?
  {
    var failed, flowFailed := NodeFailed(n, error), FlowFailed(n, error);
    assert [failed, flowFailed] == [failed] + [flowFailed];
    ApplyEventsConcat(st, [failed], [flowFailed]);
    ApplyOneEvent(st, failed);
    ApplyOneEvent(ApplyEvent(st, failed), flowFailed);
    var r := ApplyEvents(st, [failed, flowFailed]);
    assert forall m :: Status(r, m) == if m == n then Failed else Status(st, m);
    assert forall m :: DepsDone(def, r, m) <==> DepsDone(def, st, m);
    assert RunningNodes(r) == RunningNodes(st) - {n} && n in RunningNodes(st);
  }

  lemma FailedLogged(def: FlowDef, st: NodeFlowState, r: NodeFlowState, log: seq<Event>, n: NodeId, error: string)
    requires Logged(def, st, log) && Status(st, n) == Running && n in def.nodes
    requires forall m :: Status(r, m) == if m == n then Failed else Status(st, m)
    ensures Logged(def, r, log + [NodeFailed(n, error), FlowFailed(n, error)])
  {
    var failed, flowFailed := NodeFailed(n, error), FlowFailed(n, error);
    LogOne(def, log, failed);
    LogOne(def, log + [failed], flowFailed);
    Regroup(log, [failed], [flowFailed]);
    assert [failed, flowFailed] == [failed] + [flowFailed];
  }

  lemma FailedOutcome(def: FlowDef, st: NodeFlowState, log: seq<Event>, n: NodeId, error: string)
    requires Scheduled(def, st) && Logged(def, st, log) && Status(st, n) == Running && n in def.nodes
    ensures Outcome(def, st, n, Decision([NodeFailed(n, error), FlowFailed(n, error)], [], None), log)
  {
    FailedSchedules(def, st, n, error);
    RemoveOne(RunningNodes(st), n);
    FailedLogged(def, st, ApplyEvents(st, [NodeFailed(n, error), FlowFailed(n, error)]), log, n, error);
  }

  lemma CompletedOutcome(def: FlowDef, st: NodeFlowState, log: seq<Event>, n: NodeId, result: Json)
    requires Compiles(def) && Orderly(def, st) && Traced(def, st, log) && CompletionCount(log) == 0
    requires Status(st, n) == Running && n in def.nodes
    ensures Outcome(def, st, n, CompletedDecision(def, st, n, result), log)
  {
    CompletedSchedules(def, st, n, result);
    CompletedStatuses(def, st, n, result);
    CompletedLogged(def, st, log, n, result);
  }

  lemma SamePlanCompiles(a: FlowDef, b: FlowDef)
    requires SamePlan(a, b)
    ensures Compiles(a) <==> Compiles(b)
  {
    assert forall p :: Walk(a.edges, p) <==> Walk(b.edges, p);
    assert forall p :: IsCycle(a.edges, p) <==> IsCycle(b.edges, p);
    if EdgesKnown(a) {
      KnownEndsCarry(a, b);
    }
    if EdgesKnown(b) {
      KnownEndsCarry(b, a);
    }
  }

  lemma KnownEndsCarry(a: FlowDef, b: FlowDef)
    requires SamePlan(a, b) && EdgesKnown(a)
    ensures EdgesKnown(b)
  {
    forall i | 0 <= i < |b.edges| ensures EndsKnown(b, b.edges[i]) {
      assert (b.edges[i].0, b.edges[i].1) in a.edges;
      var j :| 0 <= j < |a.edges| && a.edges[j] == b.edges[i];
      assert EndsKnown(a, a.edges[j]);
    }
  }

  lemma SamePlanSchedules(a: FlowDef, b: FlowDef, st: NodeFlowState)
    requires SamePlan(a, b)
    ensures Scheduled(a, st) <==> Scheduled(b, st)
    ensures Orderly(a, st) <==> Orderly(b, st)
    ensures AllDone(a, st) <==> AllDone(b, st)
    ensures a.nodes == [] <==> b.nodes == []
  {
    assert forall n :: DepsDone(a, st, n) <==> DepsDone(b, st, n);
    assert a.nodes != [] ==> a.nodes[0] in a.nodes;
    assert b.nodes != [] ==> b.nodes[0] in b.nodes;
  }

  lemma SamePlanLogs(a: FlowDef, b: FlowDef, st: NodeFlowState, log: seq<Event>)
    requires SamePlan(a, b)
    ensures Traced(a, st, log) <==> Traced(b, st, log)
    ensures Logged(a, st, log) <==> Logged(b, st, log)
  {
    SamePlanSchedules(a, b, st);
    assert StartsFollowSuccesses(a, log) <==> StartsFollowSuccesses(b, log);
  }

  /** A report is decided by the definition that is known. */
  lemma ReportDelivers(def: FlowDef, s: System, cmd: Command, s': System)
    requires KnownFlow(s.registry, s.state) == Some(def) && Compiles(def) && Delivers(s, cmd, s')
    requires cmd.ReportCompleted? || (cmd.ReportFailed? && cmd.nodeId !in def.skip)
    ensures var cached := s.state.(compiled := Some(CompiledForm(def)));
            s' == After(s, cmd, if cmd.ReportCompleted? then CompletedDecision(def, cached, cmd.nodeId, cmd.result)
                        else FailedDecision(def, cmd.nodeId, cmd.error))
            && CachedAfter(s.registry, s.state, cmd) == cached
  {
  }

  lemma ReportKeeps(def: FlowDef, s: System, n: NodeId, cmd: Command, s': System)
    requires Inv(def, s) && !s.state.status.NotStarted? && Status(s.state, n) == Running
    requires cmd.ReportCompleted? || (cmd.ReportFailed? && n !in def.skip)
    requires cmd.nodeId == n && Delivers(Reported(s, n), cmd, s')
    ensures Inv(def, s')
  {
    var known := KnownPlan(def, s);
    PlanKeeps(def, known, s);
    KnownReportKeeps(known, s, n, cmd, s');
    SamePlanSchedules(known, def, s'.state);
    SamePlanLogs(known, def, s'.state, s'.log);
  }

  lemma KnownPlan(def: FlowDef, s: System) returns (known: FlowDef)
    requires Registered(def, s)
    ensures KnownFlow(s.registry, s.state) == Some(known) && SamePlan(known, def) && Compiles(known)
  {
    known := KnownFlow(s.registry, s.state).value;
    SamePlanCompiles(known, def);
  }

  /** What the reports are decided by is scheduled and logged as well. */
  lemma PlanKeeps(def: FlowDef, known: FlowDef, s: System)
    requires Inv(def, s) && !s.state.status.NotStarted? && SamePlan(known, def)
    ensures Scheduled(known, s.state) && Logged(known, s.state, s.log)
  {
    SamePlanSchedules(known, def, s.state);
    SamePlanLogs(known, def, s.state, s.log);
  }

  lemma KnownReportKeeps(known: FlowDef, s: System, n: NodeId, cmd: Command, s': System)
    requires KnownFlow(s.registry, s.state) == Some(known) && Compiles(known)
    requires Scheduled(known, s.state) && Logged(known, s.state, s.log)
    requires Status(s.state, n) == Running && n in known.nodes && s.inflight == multiset(RunningNodes(s.state))
    requires cmd.ReportCompleted? || (cmd.ReportFailed? && n !in known.skip)
    requires cmd.nodeId == n && Delivers(Reported(s, n), cmd, s')
    ensures Scheduled(known, s'.state) && Logged(known, s'.state, s'.log)
    ensures s'.inflight == multiset(RunningNodes(s'.state)) && s'.registry == s.registry
    ensures s'.state.flowDefId == s.state.flowDefId && s'.state.compiled == Some(CompiledForm(known))
    ensures s'.state.status == s.state.status || s'.state.status.FlowIsCompleted? || s'.state.status.FlowHasFailed?
  {
    var cached := s.state.(compiled := Some(CompiledForm(known)));
    CacheKeeps(known, s.state, Some(CompiledForm(known)), s.log);
    ReportDelivers(known, Reported(s, n), cmd, s');
    if cmd.ReportCompleted? {
      CompletedOutcome(known, cached, s.log, n, cmd.result);
    } else {
      FailedOutcome(known, cached, s.log, n, cmd.error);
    }
  }

  /** A flow that has just been started from `s`. */
  function Started(def: FlowDef, s: System, context: Context): System {
    var d := StartDecision(def, context);
    System(ApplyEvents(s.state, d.events), s.registry[def.id := def], s.inflight + multiset(d.fired), s.log + d.events)
  }

  lemma StartDelivers(def: FlowDef, s: System, context: Context, s': System)
    requires !IsBusy(s.state) && Delivers(s, StartFlow(def, context), s')
    ensures Compiles(def) && s' == Started(def, s, context)
  {
  }

  lemma StartedRegistered(def: FlowDef, s: System, context: Context)
    requires s.state == INITIAL_STATE && Compiles(def) && def.id != ""
    ensures Registered(def, Started(def, s, context))
  {
    StartSchedules(def, context);
    var r := ApplyEvents(s.state, StartDecision(def, context).events);
    assert r.flowDefId == Some(def.id) && r.compiled.None?;
  }

  lemma StartedKeeps(def: FlowDef, s: System, context: Context)
    requires Inv(def, s) && s.state.status.NotStarted? && Compiles(def)
    ensures Inv(def, Started(def, s, context))
  {
    StartKeeps(def, s.log, context);
    assert RunningNodes(INITIAL_STATE) == {};
    StartedRegistered(def, s, context);
  }

  lemma StepKeeps(def: FlowDef, s: System, step: Step, s': System)
    requires Inv(def, s) && Next(def, s, step, s')
    ensures Inv(def, s')
  {
    match step
    case Start(context) =>
      if s.state.status.NotStarted? {
        StartDelivers(def, s, context, s');
        StartedKeeps(def, s, context);
      } else {
        RejectedKeeps(def, s, StartFlow(def, context), s');
      }
    case Completes(n, result) =>
      assert n in RunningNodes(s.state);
      ReportKeeps(def, s, n, ReportCompleted(n, result), s');
    case Fails(n, error) =>
      assert n in RunningNodes(s.state);
      ReportKeeps(def, s, n, ReportFailed(n, error), s');
    case ChildDone(id, output) => BystanderKeeps(def, s, id, output, s');
    case Query => RejectedKeeps(def, s, GetState, s');
    case Registers(other) =>
  }

  lemma RejectedKeeps(def: FlowDef, s: System, cmd: Command, s': System)
    requires Delivers(s, cmd, s')
    requires cmd.GetState? || (cmd.StartFlow? && s.state.status.FlowIsRunning?)
    ensures s' == s
  {
    assert s.log + [] == s.log;
  }

  lemma BystanderLogged(def: FlowDef, st: NodeFlowState, log: seq<Event>, ev: Event)
    requires Logged(def, st, log) && ev.ChildFlowDone?
    ensures Logged(def, st, log + [ev])
  {
    LogOne(def, log, ev);
  }

  lemma BystanderDelivers(s: System, id: string, output: Json, s': System)
    requires Delivers(s, ChildFlowCompleted(id, output), s')
    ensures s' == s.(log := s.log + [ChildFlowDone(id, output)])
  {
    ApplyOneEvent(s.state, ChildFlowDone(id, output));
    assert CachedAfter(s.registry, s.state, ChildFlowCompleted(id, output)) == s.state;
  }

  lemma BystanderKeeps(def: FlowDef, s: System, id: string, output: Json, s': System)
    requires Inv(def, s) && Delivers(s, ChildFlowCompleted(id, output), s')
    ensures Inv(def, s')
  {
    BystanderDelivers(s, id, output, s');
    if !s.state.status.NotStarted? {
      BystanderLogged(def, s.state, s.log, ChildFlowDone(id, output));
    }
  }

  // ---- Theorems over whole runs ----

  /** From any state that meets the invariant, every later state does. */
  lemma {:induction false} PathKeeps(def: FlowDef, run: seq<System>, steps: seq<Step>, i: nat)
    requires IsPath(def, run, steps) && Inv(def, run[0]) && i < |run|
    ensures Inv(def, run[i])
  {
    if i > 0 {
      PathKeeps(def, run, steps, i - 1);
      assert StepAt(def, run, steps, i - 1);
      StepKeeps(def, run[i - 1], steps[i - 1], run[i]);
    }
  }

  lemma RunKeeps(def: FlowDef, run: seq<System>, steps: seq<Step>, i: nat)
    requires IsRun(def, run, steps) && i < |run| && def.id != ""
    ensures Inv(def, run[i])
  {
    assert RunningNodes(INITIAL_STATE) == {};
    PathKeeps(def, run, steps, i);
  }

  /** A node starts at most once, and only after each of its dependencies has succeeded. */
  lemma StartsOnceAfterDependencies(def: FlowDef, run: seq<System>, steps: seq<Step>, i: nat)
    requires IsRun(def, run, steps) && i < |run| && def.id != ""
    ensures forall n :: StartCount(run[i].log, n) <= 1
    ensures StartsFollowSuccesses(def, run[i].log)
  {
    RunKeeps(def, run, steps, i);
    var s := run[i];
    if s.state.status.NotStarted? {
      BystandersLogged(def, s.log);
    }
  }

  /** Executors that have not reported are exactly the running nodes, and the counter counts them. */
  lemma ActiveCountIsExact(def: FlowDef, run: seq<System>, steps: seq<Step>, i: nat)
    requires IsRun(def, run, steps) && i < |run| && def.id != ""
    ensures run[i].inflight == multiset(RunningNodes(run[i].state))
    ensures run[i].state.activeNodeCount == |run[i].inflight|
  {
    RunKeeps(def, run, steps, i);
  }

  /** The completion is announced once, exactly when every node (not only every terminal) is completed. */
  lemma AnnouncedExactlyWhenDone(def: FlowDef, run: seq<System>, steps: seq<Step>, i: nat)
    requires IsRun(def, run, steps) && i < |run| && def.id != ""
    ensures CompletionCount(run[i].log) == if AllDone(def, run[i].state) && def.nodes != [] then 1 else 0
  {
    RunKeeps(def, run, steps, i);
    var s := run[i];
    if s.state.status.NotStarted? {
      BystandersLogged(def, s.log);
      assert def.nodes != [] ==> Status(s.state, def.nodes[0]) == Pending && def.nodes[0] in def.nodes;
    }
  }

  /** `n` failed, or a walk leads to it from a node that failed. */
  ghost predicate BehindFailure(def: FlowDef, st: NodeFlowState, n: NodeId) {
    exists p :: p != [] && Walk(def.edges, p) && p[|p| - 1] == n && Status(st, p[0]) == Failed
  }

  lemma BehindExtends(def: FlowDef, st: NodeFlowState, m: NodeId, n: NodeId)
    requires BehindFailure(def, st, m) && (m, n) in def.edges
    ensures BehindFailure(def, st, n)
  {
    var p :| p != [] && Walk(def.edges, p) && p[|p| - 1] == m && Status(st, p[0]) == Failed;
    WalkExtends(def.edges, p, n);
    var q := p + [n];
    assert q[|q| - 1] == n && q[0] == p[0];
  }

  lemma SourceComesLater(def: FlowDef, order: seq<NodeId>, m: NodeId, i: nat) returns (j: nat)
    requires FinishOrder(def, order) && EdgesKnown(def) && i < |order| && (m, order[i]) in def.edges
    ensures i < j < |order| && order[j] == m
  {
    var k :| 0 <= k < |def.edges| && def.edges[k] == (m, order[i]);
    assert m in order;
    j :| 0 <= j < |order| && order[j] == m;
    assert order[i] in order[..j];
  }

  lemma {:induction false} IdleMeansSettled(def: FlowDef, st: NodeFlowState, order: seq<NodeId>, i: nat)
    requires FinishOrder(def, order) && EdgesKnown(def) && Scheduled(def, st) && RunningNodes(st) == {} && i < |order|
    ensures Status(st, order[i]) == Completed || BehindFailure(def, st, order[i])
    decreases |order| - i
  {
    var n := order[i];
    assert n in order;
    assert Status(st, n) == Running ==> n in RunningNodes(st);
    if Status(st, n) == Failed {
      assert Walk(def.edges, [n]) && [n][|[n]| - 1] == n;
    } else if Status(st, n) == Pending {
      var m :| (m, n) in def.edges && Status(st, m) != Completed;
      var j := SourceComesLater(def, order, m, i);
      IdleMeansSettled(def, st, order, j);
      BehindExtends(def, st, m, n);
    }
  }

  /** No deadlock: an idle started flow has completed everything except what failures cut off. */
  lemma NoDeadlock(def: FlowDef, run: seq<System>, steps: seq<Step>, i: nat)
    requires IsRun(def, run, steps) && i < |run| && def.id != ""
    requires !run[i].state.status.NotStarted? && run[i].inflight == multiset{}
    ensures forall n | n in def.nodes :: Status(run[i].state, n) == Completed || BehindFailure(def, run[i].state, n)
    ensures (forall n :: Status(run[i].state, n) != Failed) && def.nodes != [] ==> CompletionCount(run[i].log) == 1
  {
    RunKeeps(def, run, steps, i);
    AnnouncedExactlyWhenDone(def, run, steps, i);
    var st := run[i].state;
    assert forall n :: n in RunningNodes(st) <==> n in run[i].inflight;
    var order := AcyclicHasFinishOrder(def);
    forall n | n in def.nodes ensures Status(st, n) == Completed || BehindFailure(def, st, n) {
      var j :| 0 <= j < |order| && order[j] == n;
      IdleMeansSettled(def, st, order, j);
    }
  }

  // ---- Every run is finite: reports are conserved ----

  function Unsettled(def: FlowDef, st: NodeFlowState): set<NodeId> {
    set n | n in def.nodes && !Settled(st, n)
  }

  function ReportCount(steps: seq<Step>): nat {
    if steps == [] then 0 else
      ReportCount(steps[..|steps| - 1]) + if steps[|steps| - 1].Completes? || steps[|steps| - 1].Fails? then 1 else 0
  }

  lemma CompletedSettles(def: FlowDef, st: NodeFlowState, n: NodeId, result: Json)
    requires Scheduled(def, st) && Status(st, n) == Running && n in def.nodes
    ensures Unsettled(def, ApplyEvents(st, CompletedDecision(def, st, n, result).events)) == Unsettled(def, st) - {n}
  {
    CompletedStatuses(def, st, n, result);
    CompletedFiresPending(def, st, n, result);
  }

  lemma FailedSettles(def: FlowDef, st: NodeFlowState, n: NodeId, error: string)
    requires Scheduled(def, st) && Status(st, n) == Running && n in def.nodes
    ensures Unsettled(def, ApplyEvents(st, [NodeFailed(n, error), FlowFailed(n, error)])) == Unsettled(def, st) - {n}
  {
    FailedSchedules(def, st, n, error);
  }

  lemma ReportSettles(def: FlowDef, s: System, n: NodeId, cmd: Command, s': System)
    requires Registered(def, s) && Scheduled(def, s.state) && Status(s.state, n) == Running && n in def.nodes
    requires cmd.ReportCompleted? || (cmd.ReportFailed? && n !in def.skip)
    requires cmd.nodeId == n && Delivers(Reported(s, n), cmd, s')
    ensures Unsettled(def, s'.state) == Unsettled(def, s.state) - {n} && n in Unsettled(def, s.state)
  {
    var known := KnownPlan(def, s);
    SamePlanSchedules(known, def, s.state);
    SamePlanUnsettled(known, def, s.state);
    SamePlanUnsettled(known, def, s'.state);
    KnownReportSettles(known, s, n, cmd, s');
  }

  lemma SamePlanUnsettled(a: FlowDef, b: FlowDef, st: NodeFlowState)
    requires SamePlan(a, b)
    ensures Unsettled(a, st) == Unsettled(b, st)
  {
  }

  lemma KnownReportSettles(known: FlowDef, s: System, n: NodeId, cmd: Command, s': System)
    requires KnownFlow(s.registry, s.state) == Some(known) && Compiles(known)
    requires Scheduled(known, s.state) && Status(s.state, n) == Running && n in known.nodes
    requires cmd.ReportCompleted? || (cmd.ReportFailed? && n !in known.skip)
    requires cmd.nodeId == n && Delivers(Reported(s, n), cmd, s')
    ensures Unsettled(known, s'.state) == Unsettled(known, s.state) - {n}
  {
    var cached := s.state.(compiled := Some(CompiledForm(known)));
    CacheKeeps(known, s.state, Some(CompiledForm(known)), s.log);
    ReportDelivers(known, Reported(s, n), cmd, s');
    CacheUnsettled(known, s.state, Some(CompiledForm(known)));
    if cmd.ReportCompleted? {
      CompletedSettles(known, cached, n, cmd.result);
    } else {
      FailedSettles(known, cached, n, cmd.error);
    }
  }

  lemma CacheUnsettled(def: FlowDef, st: NodeFlowState, compiled: Option<CompiledFlow>)
    ensures Unsettled(def, st.(compiled := compiled)) == Unsettled(def, st)
  {
    assert forall n :: Settled(st.(compiled := compiled), n) <==> Settled(st, n);
  }

  lemma CompletedFiresPending(def: FlowDef, st: NodeFlowState, n: NodeId, result: Json)
    requires Status(st, n) == Running
    ensures forall m | m in CompletedDecision(def, st, n, result).fired :: Status(st, m) == Pending
  {
    ApplyOneEvent(st, NodeSucceeded(n, result));
    ReadyStatuses(def, st, n, result);
  }

  /** Each report settles one node for good, so a run delivers at most as many reports as nodes. */
  lemma {:induction false} ReportsAreConserved(def: FlowDef, run: seq<System>, steps: seq<Step>, i: nat)
    requires IsRun(def, run, steps) && i < |run| && def.id != ""
    ensures ReportCount(steps[..i]) + |Unsettled(def, run[i].state)| == |def.nodes|
  {
    if i == 0 {
      assert Unsettled(def, INITIAL_STATE) == SetOf(def.nodes);
      DistinctCardinality(def.nodes);
    } else {
      ReportsAreConserved(def, run, steps, i - 1);
      RunKeeps(def, run, steps, i - 1);
      assert StepAt(def, run, steps, i - 1);
      assert steps[..i][..i - 1] == steps[..i - 1];
      StepConserves(def, run[i - 1], steps[i - 1], run[i]);
    }
  }

  lemma RestartStatuses(def: FlowDef, st: NodeFlowState, context: Context)
    requires Compiles(def)
    ensures var r := ApplyEvents(st, StartDecision(def, context).events);
            var roots := CompiledForm(def).rootNodes;
            && (forall m :: Status(r, m) == if m in roots then Running else Status(st, m))
            && (forall m :: m in r.nodeStatuses <==> m in st.nodeStatuses || m in roots)
            && r.activeNodeCount == |roots| && Distinct(roots) && r.status.FlowIsRunning?
            && (forall n :: n in roots <==> n in def.nodes && DepsDone(def, INITIAL_STATE, n))
  {
    var roots := CompiledForm(def).rootNodes;
    RootsReady(def, INITIAL_STATE);
    var started := FlowStarted(def.id, def.initialContext + context);
    ApplyOneEvent(st, started);
    ApplyEventsConcat(st, [started], Starts(roots));
    ApplyStarts(ApplyEvent(st, started), roots);
    assert forall m :: Status(ApplyEvent(st, started), m) == Status(st, m);
  }

  lemma StartConserves(def: FlowDef, s: System, context: Context, s': System)
    requires s.state == INITIAL_STATE && Delivers(s, StartFlow(def, context), s')
    ensures Unsettled(def, s'.state) == Unsettled(def, s.state)
  {
    StartDelivers(def, s, context, s');
    RestartStatuses(def, INITIAL_STATE, context);
  }

  lemma ReportConserves(def: FlowDef, s: System, n: NodeId, cmd: Command, s': System)
    requires Inv(def, s) && n in s.inflight
    requires cmd.ReportCompleted? || (cmd.ReportFailed? && n !in def.skip)
    requires cmd.nodeId == n && Delivers(Reported(s, n), cmd, s')
    ensures |Unsettled(def, s'.state)| == |Unsettled(def, s.state)| - 1
  {
    assert n in RunningNodes(s.state);
    ReportSettles(def, s, n, cmd, s');
  }

  lemma StepConserves(def: FlowDef, s: System, step: Step, s': System)
    requires Inv(def, s) && Next(def, s, step, s')
    ensures |Unsettled(def, s'.state)| == |Unsettled(def, s.state)| - if step.Completes? || step.Fails? then 1 else 0
  {
    match step
    case Start(context) =>
      if s.state.status.NotStarted? {
        StartConserves(def, s, context, s');
      } else {
        RejectedKeeps(def, s, StartFlow(def, context), s');
      }
    case Completes(n, result) => ReportConserves(def, s, n, ReportCompleted(n, result), s');
    case Fails(n, error) => ReportConserves(def, s, n, ReportFailed(n, error), s');
    case ChildDone(id, output) =>
      BystanderDelivers(s, id, output, s');
    case Query => RejectedKeeps(def, s, GetState, s');
    case Registers(other) =>
  }
}
