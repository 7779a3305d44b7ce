/** The node-flow aggregate: deciding commands, applying events, scheduling nodes
    (src/ai/node-flow/aggregate.ts). */
module NodeFlowAggregate {
  import opened Prelude
  import opened NodeFlowDef

  datatype NodeStatus = Pending | Running | Completed | Failed

  datatype FlowStatus = NotStarted | FlowIsRunning | FlowIsCompleted | FlowHasFailed | WaitsForInput

  /** `compiled` is the runtime-only cache of the compiled definition. */
  datatype NodeFlowState = NodeFlowState(
    flowDefId: Option<string>,
    status: FlowStatus,
    nodeStatuses: map<NodeId, NodeStatus>,
    nodeOutputs: map<NodeId, Json>,
    context: Context,
    activeNodeCount: int,
    waitingNodes: set<NodeId>,
    compiled: Option<CompiledFlow>)

  datatype Command =
    | StartFlow(flowDef: FlowDef, initialContext: Context)
    | ReportCompleted(nodeId: NodeId, result: Json)
    | ReportFailed(nodeId: NodeId, error: string)
    | ChildFlowCompleted(childFlowId: string, output: Json)
    | UserMessage(nodeId: NodeId, message: Json)
    | UserChoice(nodeId: NodeId, choice: int)
    | GetState

  datatype Event =
    | FlowStarted(flowDefId: string, context: Context)
    | NodeStarted(nodeId: NodeId)
    | NodeSucceeded(nodeId: NodeId, output: Json)
    | NodeFailed(nodeId: NodeId, error: string)
    | FlowCompleted(finalContext: Context)
    | FlowFailed(nodeId: NodeId, error: string)
    | WaitingForInput(nodeId: NodeId)
    | ChildFlowStarted(childFlowId: string, parentNodeId: NodeId)
    | ChildFlowDone(childFlowId: string, output: Json)
    | MessageReceived(nodeId: NodeId, message: Json)
    | MessageSent(nodeId: NodeId)

  datatype Reply = Acknowledged(flowId: string) | Snapshot(state: NodeFlowState) | Error(message: string)

  /** Persisted events, the nodes whose executors the effect then runs, and the reply. */
  datatype Decision = Decision(events: seq<Event>, fired: seq<NodeId>, reply: Option<Reply>)
      | Throws(error: CompileError)

  const INITIAL_STATE := NodeFlowState(None, NotStarted, map[], map[], map[], 0, {}, None)

  // ---- Applying events ----

  function ApplyEvent(st: NodeFlowState, ev: Event): NodeFlowState {
    match ev
    case FlowStarted(id, context) =>
      st.(flowDefId := Some(id), status := FlowIsRunning, nodeOutputs := map[], context := context,
          activeNodeCount := 0, waitingNodes := {})
    case NodeStarted(n) =>
      st.(nodeStatuses := st.nodeStatuses[n := Running], activeNodeCount := st.activeNodeCount + 1)
    case NodeSucceeded(n, output) =>
      st.(nodeStatuses := st.nodeStatuses[n := Completed],
          nodeOutputs := st.nodeOutputs[n := output],
          context := if output.Obj? then st.context + output.fields else st.context,
          activeNodeCount := Max(0, st.activeNodeCount - 1))
    case NodeFailed(n, _) =>
      st.(nodeStatuses := st.nodeStatuses[n := Failed], activeNodeCount := Max(0, st.activeNodeCount - 1))
    case FlowCompleted(context) => st.(status := FlowIsCompleted, context := context)
    case FlowFailed(_, _) => st.(status := FlowHasFailed)
    case WaitingForInput(n) => st.(status := WaitsForInput, waitingNodes := st.waitingNodes + {n})
    case MessageReceived(n, _) => st.(waitingNodes := st.waitingNodes - {n})
    case _ => st
  }

  function ApplyEvents(st: NodeFlowState, events: seq<Event>): NodeFlowState {
    if events == [] then st else ApplyEvent(ApplyEvents(st, events[..|events| - 1]), events[|events| - 1])
  }

  lemma ApplyOneEvent(st: NodeFlowState, ev: Event)
    ensures ApplyEvents(st, [ev]) == ApplyEvent(st, ev)
  {
    assert [ev][..0] == [];
    assert ApplyEvents(st, []) == st;
  }

  lemma {:induction false} ApplyEventsConcat(st: NodeFlowState, a: seq<Event>, b: seq<Event>)
    ensures ApplyEvents(st, a + b) == ApplyEvents(ApplyEvents(st, a), b)
  {
    if b == [] {
      assert a + b == a;
    } else {
      ApplyEventsConcat(st, a, b[..|b| - 1]);
      assert (a + b)[..|a + b| - 1] == a + b[..|b| - 1];
    }
  }

  // ---- Scheduling ----

  function Status(st: NodeFlowState, n: NodeId): NodeStatus {
    if n in st.nodeStatuses then st.nodeStatuses[n] else Pending
  }

  ghost predicate DepsDone(def: FlowDef, st: NodeFlowState, n: NodeId) {
    forall m | (m, n) in def.edges :: Status(st, m) == Completed
  }

  predicate AllCompletedIn(st: NodeFlowState, nodes: seq<NodeId>) {
    forall i | 0 <= i < |nodes| :: Status(st, nodes[i]) == Completed
  }

  predicate IsReady(st: NodeFlowState, compiled: CompiledFlow, n: NodeId)
    requires n in compiled.dependencies
  {
    Status(st, n) == Pending && AllCompletedIn(st, compiled.dependencies[n])
  }

  /** The pending nodes of `nodes` whose dependencies have all completed, in order. */
  function ReadyNodes(st: NodeFlowState, compiled: CompiledFlow, nodes: seq<NodeId>): seq<NodeId>
    requires forall i | 0 <= i < |nodes| :: nodes[i] in compiled.dependencies
  {
    if nodes == [] then [] else
      var last, r := nodes[|nodes| - 1], ReadyNodes(st, compiled, nodes[..|nodes| - 1]);
      if IsReady(st, compiled, last) then r + [last] else r
  }

  function Starts(nodes: seq<NodeId>): seq<Event> {
    seq(|nodes|, i requires 0 <= i < |nodes| => NodeStarted(nodes[i]))
  }

  // ---- Deciding ----

  ghost predicate Compiles(def: FlowDef) {
    EdgesKnown(def) && Acyclic(def.edges)
  }

  /** The definition whose compiled form `getCompiled` returns; an empty id counts as none. */
  function KnownFlow(registry: map<string, FlowDef>, st: NodeFlowState): Option<FlowDef> {
    if st.compiled.Some? then Some(st.compiled.value.def)
    else if st.flowDefId.None? || st.flowDefId.value == "" || st.flowDefId.value !in registry then None
    else Some(registry[st.flowDefId.value])
  }

  /** A cache the aggregate filled is the compiled form of a definition that compiles. */
  ghost predicate CacheHolds(st: NodeFlowState) {
    st.compiled.Some? ==> Compiles(st.compiled.value.def) && st.compiled.value == CompiledForm(st.compiled.value.def)
  }

  function Completion(def: FlowDef, st: NodeFlowState): seq<Event> {
    var terminals := CompiledForm(def).terminalNodes;
    if AllCompletedIn(st, terminals) && |terminals| > 0 then [FlowCompleted(st.context)] else []
  }

  function StartDecision(def: FlowDef, initialContext: Context): Decision {
    var roots := CompiledForm(def).rootNodes;
    Decision([FlowStarted(def.id, def.initialContext + initialContext)] + Starts(roots), roots,
             Some(Acknowledged(def.id)))
  }

  function CompletedDecision(def: FlowDef, st: NodeFlowState, n: NodeId, result: Json): Decision {
    var succeeded := [NodeSucceeded(n, result)];
    var ready := ReadyNodes(ApplyEvents(st, succeeded), CompiledForm(def), def.nodes);
    var events := succeeded + Starts(ready);
    Decision(events + Completion(def, ApplyEvents(st, events)), ready, None)
  }

  function FailedDecision(def: FlowDef, n: NodeId, error: string): Decision {
    if n in def.nodes && n in def.skip
    then Decision([NodeSucceeded(n, Null)], [], None)
    else Decision([NodeFailed(n, error), FlowFailed(n, error)], [], None)
  }

  predicate IsBusy(st: NodeFlowState) {
    !st.status.NotStarted? && !st.status.FlowIsCompleted? && !st.status.FlowHasFailed?
  }

  /** What the aggregate decides; a definition that does not compile, started or handed in with the registry, throws. */
  ghost predicate Decides(registry: map<string, FlowDef>, st: NodeFlowState, cmd: Command, d: Decision) {
    match cmd
    case StartFlow(def, initialContext) =>
      if IsBusy(st) then d == Decision([], [], Some(Error("flow already running")))
      else if Compiles(def) then d == StartDecision(def, initialContext)
      else d.Throws? && Justified(def, d.error)
    case ReportCompleted(n, result) =>
      var def := KnownFlow(registry, st);
      if def.None? then d == Decision([], [], Some(Error("no flow running")))
      else if Compiles(def.value) then d == CompletedDecision(def.value, CachedAfter(registry, st, cmd), n, result)
      else d.Throws? && Justified(def.value, d.error)
    case ReportFailed(n, error) =>
      var def := KnownFlow(registry, st);
      if def.None? then d == Decision([], [], Some(Error("no flow running")))
      else if Compiles(def.value) then d == FailedDecision(def.value, n, error)
      else d.Throws? && Justified(def.value, d.error)
    case UserMessage(n, message) => d == Decision([MessageReceived(n, message), NodeSucceeded(n, message)], [], None)
    case UserChoice(n, choice) => d == Decision([NodeSucceeded(n, Obj(map["choice" := Num(choice)]))], [], None)
    case ChildFlowCompleted(id, output) => d == Decision([ChildFlowDone(id, output)], [], None)
    case GetState => d == Decision([], [], Some(Snapshot(st)))
  }

  function RegistryAfter(registry: map<string, FlowDef>, cmd: Command, d: Decision): map<string, FlowDef> {
    if cmd.StartFlow? && d.Decision? && d.events != [] then registry[cmd.flowDef.id := cmd.flowDef] else registry
  }

  ghost function CachedAfter(registry: map<string, FlowDef>, st: NodeFlowState, cmd: Command): NodeFlowState {
    var def := KnownFlow(registry, st);
    if (cmd.ReportCompleted? || cmd.ReportFailed?) && def.Some? && Compiles(def.value)
    then st.(compiled := Some(CompiledForm(def.value))) else st
  }

  /** The registry shared by the entities of one aggregate. */
  class NodeFlowAggregate {
    var registry: map<string, FlowDef>

    constructor (registry: map<string, FlowDef>)
      ensures this.registry == registry
    {
      this.registry := registry;
    }

    /** The compiled form of the flow the state knows, cached on the state; an error when it does not compile. */
    method GetCompiled(st: NodeFlowState)
      returns (compiled: Option<CompiledFlow>, cached: NodeFlowState, error: Option<CompileError>)
      requires CacheHolds(st)
      ensures var def := KnownFlow(registry, st);
              && (compiled.Some? <==> def.Some? && Compiles(def.value))
              && (compiled.Some? ==> compiled.value == CompiledForm(def.value))
              && (error.Some? <==> def.Some? && !Compiles(def.value))
              && (error.Some? ==> Justified(def.value, error.value))
      ensures cached == if compiled.Some? then st.(compiled := compiled) else st
    {
      if st.compiled.Some? {
        return st.compiled, st, None;
      }
      if st.flowDefId.None? || st.flowDefId.value == "" {
        return None, st, None;
      }
      if st.flowDefId.value !in registry {
        return None, st, None;
      }
      var r, _ := Compile(registry[st.flowDefId.value]);
      if r.Rejected? {
        return None, st, Some(r.error);
      }
      return Some(r.flow), st.(compiled := Some(r.flow)), None;
    }

    method NodesReadyToRun(st: NodeFlowState, compiled: CompiledFlow) returns (ready: seq<NodeId>)
      requires compiled == CompiledForm(compiled.def)
      ensures ready == ReadyNodes(st, compiled, compiled.def.nodes)
    {
      ready := [];
      var nodes := compiled.def.nodes;
      var i := 0;
      while i < |nodes|
        invariant 0 <= i <= |nodes|
        invariant ready == ReadyNodes(st, compiled, nodes[..i])
      {
        var id := nodes[i];
        var ok := Status(st, id) == Pending;
        var deps := compiled.dependencies[id];
        var j := 0;
        while ok && j < |deps|
          invariant 0 <= j <= |deps|
          invariant ok ==> Status(st, id) == Pending && AllCompletedIn(st, deps[..j])
          invariant !ok ==> !IsReady(st, compiled, id)
        {
          if Status(st, deps[j]) != Completed {
            ok := false;
          }
          j := j + 1;
        }
        assert ok ==> deps[..j] == deps;
        assert nodes[..i + 1][..i] == nodes[..i];
        if ok {
          ready := ready + [id];
        }
        i := i + 1;
      }
      assert nodes[..i] == nodes;
    }

    /** Appends what firing each node adds to the events and the side effects. */
    method FireNodes(nodes: seq<NodeId>, compiled: CompiledFlow, before: seq<Event>)
        returns (events: seq<Event>, sideEffects: seq<NodeId>)
      requires forall i | 0 <= i < |nodes| :: nodes[i] in compiled.def.nodes
      ensures events == before + Starts(nodes) && sideEffects == nodes
    {
      events, sideEffects := before, [];
      var i := 0;
      while i < |nodes|
        invariant 0 <= i <= |nodes|
        invariant events == before + Starts(nodes[..i]) && sideEffects == nodes[..i]
      {
        events := events + [NodeStarted(nodes[i])];
        sideEffects := sideEffects + [nodes[i]];
        i := i + 1;
      }
      assert nodes[..i] == nodes;
    }

    method AllCompleted(st: NodeFlowState, nodes: seq<NodeId>) returns (all: bool)
      ensures all == AllCompletedIn(st, nodes)
    {
      var i := 0;
      while i < |nodes|
        invariant 0 <= i <= |nodes|
        invariant AllCompletedIn(st, nodes[..i])
      {
        if Status(st, nodes[i]) != Completed {
          return false;
        }
        i := i + 1;
      }
      return true;
    }

    method DecideCompleted(st: NodeFlowState, compiled: CompiledFlow, n: NodeId, result: Json) returns (d: Decision)
      requires compiled == CompiledForm(compiled.def)
      ensures d == CompletedDecision(compiled.def, st, n, result)
    {
      var events := [NodeSucceeded(n, result)];
      var nextReady := NodesReadyToRun(ApplyEvents(st, events), compiled);
      ReadyNodesHold(ApplyEvents(st, events), compiled.def, compiled.def.nodes);
      var sideEffects;
      events, sideEffects := FireNodes(nextReady, compiled, events);
      var projected := ApplyEvents(st, events);
      var allTerminalsDone := AllCompleted(projected, compiled.terminalNodes);
      if allTerminalsDone && |compiled.terminalNodes| > 0 {
        events := events + [FlowCompleted(projected.context)];
      } else {
        assert events + [] == events;
      }
      d := Decision(events, sideEffects, None);
    }

    method DecideStart(st: NodeFlowState, def: FlowDef, initialContext: Context) returns (d: Decision)
      modifies this
      ensures Decides(old(registry), st, StartFlow(def, initialContext), d)
      ensures registry == RegistryAfter(old(registry), StartFlow(def, initialContext), d)
      ensures forall id | id in registry :: (id in old(registry) && registry[id] == old(registry)[id])
                                            || Compiles(registry[id])
    {
      if IsBusy(st) {
        return Decision([], [], Some(Error("flow already running")));
      }
      var r, _ := Compile(def);
      if r.Rejected? {
        return Throws(r.error);
      }
      registry := registry[def.id := def];
      EmptyEntriesHold(def.nodes, r.flow.dependencies);
      var events, sideEffects :=
          FireNodes(r.flow.rootNodes, r.flow, [FlowStarted(def.id, def.initialContext + initialContext)]);
      d := Decision(events, sideEffects, Some(Acknowledged(def.id)));
    }

    method Decide(st: NodeFlowState, cmd: Command) returns (d: Decision, cached: NodeFlowState)
      requires CacheHolds(st)
      modifies this
      ensures Decides(old(registry), st, cmd, d)
      ensures registry == RegistryAfter(old(registry), cmd, d)
      ensures forall id | id in registry :: (id in old(registry) && registry[id] == old(registry)[id])
                                            || Compiles(registry[id])
      ensures cached == CachedAfter(old(registry), st, cmd) && CacheHolds(cached)
    {
      cached := st;
      match cmd
      case StartFlow(def, initialContext) =>
        d := DecideStart(st, def, initialContext);
      case ReportCompleted(n, result) =>
        var compiled, error;
        compiled, cached, error := GetCompiled(st);
        if error.Some? {
          d := Throws(error.value);
        } else if compiled.None? {
          d := Decision([], [], Some(Error("no flow running")));
        } else {
          d := DecideCompleted(cached, compiled.value, n, result);
        }
      case ReportFailed(n, reason) =>
        var compiled, error;
        compiled, cached, error := GetCompiled(st);
        if error.Some? {
          d := Throws(error.value);
        } else if compiled.None? {
          d := Decision([], [], Some(Error("no flow running")));
        } else if n in compiled.value.def.nodes && n in compiled.value.def.skip {
          d := Decision([NodeSucceeded(n, Null)], [], None);
        } else {
          d := Decision([NodeFailed(n, reason), FlowFailed(n, reason)], [], None);
        }
      case UserMessage(n, message) =>
        d := Decision([MessageReceived(n, message), NodeSucceeded(n, message)], [], None);
      case UserChoice(n, choice) =>
        d := Decision([NodeSucceeded(n, Obj(map["choice" := Num(choice)]))], [], None);
      case ChildFlowCompleted(id, output) =>
        d := Decision([ChildFlowDone(id, output)], [], None);
      case GetState =>
        d := Decision([], [], Some(Snapshot(st)));
    }
  }

  lemma {:induction false} ReadyNodesHold(st: NodeFlowState, def: FlowDef, nodes: seq<NodeId>)
    requires forall i | 0 <= i < |nodes| :: nodes[i] in def.nodes
    requires Distinct(nodes)
    ensures forall n :: n in ReadyNodes(st, CompiledForm(def), nodes)
                        <==> n in nodes && Status(st, n) == Pending && DepsDone(def, st, n)
    ensures Distinct(ReadyNodes(st, CompiledForm(def), nodes))
    ensures forall i | 0 <= i < |ReadyNodes(st, CompiledForm(def), nodes)| ::
            ReadyNodes(st, CompiledForm(def), nodes)[i] in def.nodes
  {
    if nodes != [] {
      var front, last := nodes[..|nodes| - 1], nodes[|nodes| - 1];
      ReadyNodesHold(st, def, front);
      assert nodes == front + [last];
      ReadyMeansDepsDone(st, def, last);
    }
  }

  lemma ReadyMeansDepsDone(st: NodeFlowState, def: FlowDef, n: NodeId)
    requires n in def.nodes
    ensures IsReady(st, CompiledForm(def), n) <==> Status(st, n) == Pending && DepsDone(def, st, n)
  {
    var deps := Sources(def.edges, n);
    SourcesHold(def.edges, n);
    if AllCompletedIn(st, deps) {
      forall m | (m, n) in def.edges ensures Status(st, m) == Completed {
        assert m in deps;
      }
    } else {
      var i :| 0 <= i < |deps| && Status(st, deps[i]) != Completed;
      assert deps[i] in deps;
    }
  }
}
