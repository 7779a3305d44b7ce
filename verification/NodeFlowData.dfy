/** What a flow's journal tells about its state: context, outputs, statuses and what is announced
    (src/ai/node-flow/aggregate.ts:152-344). */
module NodeFlowData {
  import opened Prelude
  import opened NodeFlowDef
  import opened NodeFlowAggregate
  import opened NodeFlowRuns
  import opened NodeFlowDepartures

  function Lookup<K, V>(m: map<K, V>, k: K): Option<V> {
    if k in m then Some(m[k]) else None
  }

  // ---- What single events say ----

  function SaidOfContext(key: string): Event -> Option<Option<Json>> {
    (ev: Event) =>
      match ev
      case FlowStarted(_, context) => Some(Lookup(context, key))
      case NodeSucceeded(_, Obj(fields)) => if key in fields then Some(Some(fields[key])) else None
      case _ => None
  }

  function SaidOfOutput(n: NodeId): Event -> Option<Option<Json>> {
    (ev: Event) =>
      match ev
      case FlowStarted(_, _) => Some(None)
      case NodeSucceeded(m, output) => if m == n then Some(Some(output)) else None
      case _ => None
  }

  function SaidOfNode(n: NodeId): Event -> Option<NodeStatus> {
    (ev: Event) =>
      match ev
      case NodeStarted(m) => if m == n then Some(Running) else None
      case NodeSucceeded(m, _) => if m == n then Some(Completed) else None
      case NodeFailed(m, _) => if m == n then Some(Failed) else None
      case _ => None
  }

  function SaidOfFlow(): Event -> Option<FlowStatus> {
    (ev: Event) =>
      match ev
      case FlowStarted(_, _) => Some(FlowIsRunning)
      case FlowCompleted(_) => Some(FlowIsCompleted)
      case FlowFailed(_, _) => Some(FlowHasFailed)
      case WaitingForInput(_) => Some(WaitsForInput)
      case _ => None
  }

  function SaidOfId(): Event -> Option<Option<string>> {
    (ev: Event) => if ev.FlowStarted? then Some(Some(ev.flowDefId)) else None
  }

  function SaidOfWaiting(n: NodeId): Event -> Option<bool> {
    (ev: Event) =>
      match ev
      case FlowStarted(_, _) => Some(false)
      case WaitingForInput(m) => if m == n then Some(true) else None
      case MessageReceived(m, _) => if m == n then Some(false) else None
      case _ => None
  }

  // ---- The latest event that says something decides ----

  ghost predicate Quiet<V(!new)>(log: seq<Event>, said: Event -> Option<V>, from: nat) {
    forall i | from <= i < |log| :: said(log[i]).None?
  }

  /** `v` is what the latest event that says anything says, and `initial` when none does. */
  ghost predicate Told<V(!new)>(log: seq<Event>, said: Event -> Option<V>, initial: V, v: V) {
    || (Quiet(log, said, 0) && v == initial)
    || exists i :: 0 <= i < |log| && said(log[i]) == Some(v) && Quiet(log, said, i + 1)
  }

  lemma ToldOneMore<V(!new)>(log: seq<Event>, ev: Event, said: Event -> Option<V>, initial: V, v: V)
    requires Told(log, said, initial, v)
    ensures Told(log + [ev], said, initial, if said(ev).Some? then said(ev).value else v)
  {
    var log' := log + [ev];
    if said(ev).Some? {
      assert log'[|log|] == ev && Quiet(log', said, |log| + 1);
    } else if !Quiet(log, said, 0) || v != initial {
      var i :| 0 <= i < |log| && said(log[i]) == Some(v) && Quiet(log, said, i + 1);
      assert log'[i] == log[i] && Quiet(log', said, i + 1);
    }
  }

  ghost predicate ContextTold(log: seq<Event>, context: Context) {
    forall key: string :: Told(log, SaidOfContext(key), None, Lookup(context, key))
  }

  ghost predicate NodesTold(log: seq<Event>, st: NodeFlowState) {
    forall n: NodeId :: && Told(log, SaidOfOutput(n), None, Lookup(st.nodeOutputs, n))
                        && Told(log, SaidOfNode(n), Pending, Status(st, n))
                        && Told(log, SaidOfWaiting(n), false, n in st.waitingNodes)
  }

  ghost predicate FlowTold(log: seq<Event>, st: NodeFlowState) {
    Told(log, SaidOfFlow(), NotStarted, st.status) && Told(log, SaidOfId(), None, st.flowDefId)
  }

  /** Every announcement carries the context that the journal before it tells. */
  ghost predicate AnnouncementsTold(log: seq<Event>) {
    forall i | 0 <= i < |log| && log[i].FlowCompleted? :: ContextTold(log[..i], log[i].finalContext)
  }

  ghost predicate AllTold(log: seq<Event>, st: NodeFlowState) {
    ContextTold(log, st.context) && NodesTold(log, st) && FlowTold(log, st) && AnnouncementsTold(log)
  }

  // ---- Every event, every decision, every history ----

  lemma ContextOneMore(log: seq<Event>, st: NodeFlowState, ev: Event)
    requires ContextTold(log, st.context) && (ev.FlowCompleted? ==> ev.finalContext == st.context)
    ensures ContextTold(log + [ev], ApplyEvent(st, ev).context)
  {
    forall key: string
      ensures Told(log + [ev], SaidOfContext(key), None, Lookup(ApplyEvent(st, ev).context, key))
    {
      ToldOneMore(log, ev, SaidOfContext(key), None, Lookup(st.context, key));
    }
  }

  lemma NodesOneMore(log: seq<Event>, st: NodeFlowState, ev: Event)
    requires NodesTold(log, st)
    ensures NodesTold(log + [ev], ApplyEvent(st, ev))
  {
    var st' := ApplyEvent(st, ev);
    forall n: NodeId
      ensures Told(log + [ev], SaidOfOutput(n), None, Lookup(st'.nodeOutputs, n))
      ensures Told(log + [ev], SaidOfNode(n), Pending, Status(st', n))
      ensures Told(log + [ev], SaidOfWaiting(n), false, n in st'.waitingNodes)
    {
      ToldOneMore(log, ev, SaidOfOutput(n), None, Lookup(st.nodeOutputs, n));
      ToldOneMore(log, ev, SaidOfNode(n), Pending, Status(st, n));
      ToldOneMore(log, ev, SaidOfWaiting(n), false, n in st.waitingNodes);
    }
  }

  lemma AnnouncementsOneMore(log: seq<Event>, context: Context, ev: Event)
    requires AnnouncementsTold(log) && ContextTold(log, context) && (ev.FlowCompleted? ==> ev.finalContext == context)
    ensures AnnouncementsTold(log + [ev])
  {
    var log' := log + [ev];
    forall i | 0 <= i < |log'| && log'[i].FlowCompleted? ensures ContextTold(log'[..i], log'[i].finalContext) {
      assert log'[..i] == log[..i];
      assert i == |log| ==> log[..i] == log;
    }
  }

  lemma EventTold(log: seq<Event>, st: NodeFlowState, ev: Event)
    requires AllTold(log, st) && (ev.FlowCompleted? ==> ev.finalContext == st.context)
    ensures AllTold(log + [ev], ApplyEvent(st, ev))
  {
    ContextOneMore(log, st, ev);
    NodesOneMore(log, st, ev);
    ToldOneMore(log, ev, SaidOfFlow(), NotStarted, st.status);
    ToldOneMore(log, ev, SaidOfId(), None, st.flowDefId);
    AnnouncementsOneMore(log, st.context, ev);
  }

  /** Announcements among the events carry the context reached before them. */
  ghost predicate AnnouncesReached(st: NodeFlowState, events: seq<Event>) {
    forall i | 0 <= i < |events| && events[i].FlowCompleted? ::
      events[i].finalContext == ApplyEvents(st, events[..i]).context
  }

  lemma {:induction false} BatchTold(log: seq<Event>, st: NodeFlowState, events: seq<Event>)
    requires AllTold(log, st) && AnnouncesReached(st, events)
    ensures AllTold(log + events, ApplyEvents(st, events))
  {
    if events == [] {
      assert log + events == log;
    } else {
      var front, last := events[..|events| - 1], events[|events| - 1];
      assert forall i | 0 <= i < |front| :: front[..i] == events[..i];
      BatchTold(log, st, front);
      EventTold(log + front, ApplyEvents(st, front), last);
      assert log + events == log + front + [last];
    }
  }

  /** Whatever is decided announces the context it has reached. */
  lemma DecisionAnnounces(registry: map<string, FlowDef>, st: NodeFlowState, cmd: Command, d: Decision)
    requires Decides(registry, st, cmd, d) && d.Decision?
    ensures AnnouncesReached(CachedAfter(registry, st, cmd), d.events)
  {
    if cmd.ReportCompleted? && KnownFlow(registry, st).Some? {
      var def, cached := KnownFlow(registry, st).value, CachedAfter(registry, st, cmd);
      SuccessApplied(def, cached, cmd.nodeId, cmd.result);
      var events := SuccessEvents(def, cached, cmd.nodeId, cmd.result);
      assert d.events == events + Completion(def, ApplyEvents(cached, events));
      assert forall i | 0 <= i < |events| :: !d.events[i].FlowCompleted?;
      assert d.events[..|events|] == events;
    }
  }

  /** One command of any kind under any registry, or something that happens elsewhere. */
  ghost predicate Moves(s: System, s': System) {
    || (s'.state == s.state && s'.log == s.log)
    || exists registry, cmd, d: Decision :: d.Decision? && Decides(registry, s.state, cmd, d)
         && s'.state == ApplyEvents(CachedAfter(registry, s.state, cmd), d.events) && s'.log == s.log + d.events
  }

  ghost predicate MovesAt(run: seq<System>, i: nat)
    requires i + 1 < |run|
  {
    Moves(run[i], run[i + 1])
  }

  ghost predicate IsHistory(run: seq<System>) {
    && run != [] && run[0].state == INITIAL_STATE && run[0].log == []
    && forall i: nat | i + 1 < |run| :: MovesAt(run, i)
  }

  lemma MoveTold(s: System, s': System)
    requires AllTold(s.log, s.state) && Moves(s, s')
    ensures AllTold(s'.log, s'.state)
  {
    if s'.state != s.state || s'.log != s.log {
      var registry, cmd, d: Decision :| d.Decision? && Decides(registry, s.state, cmd, d)
        && s'.state == ApplyEvents(CachedAfter(registry, s.state, cmd), d.events) && s'.log == s.log + d.events;
      DecisionAnnounces(registry, s.state, cmd, d);
      CacheTold(s.log, s.state, CachedAfter(registry, s.state, cmd).compiled);
      BatchTold(s.log, CachedAfter(registry, s.state, cmd), d.events);
    }
  }

  lemma CacheTold(log: seq<Event>, st: NodeFlowState, compiled: Option<CompiledFlow>)
    requires AllTold(log, st)
    ensures AllTold(log, st.(compiled := compiled))
  {
    assert forall n: NodeId :: Status(st.(compiled := compiled), n) == Status(st, n);
  }

  /** Whatever commands come, restarts and takeovers included: each context key holds what the last start or object
      output with that key gave it, each output, status and waiting mark what the last event about it said, and every
      completion announces the context of its time. */
  lemma {:induction false} JournalTellsState(run: seq<System>, i: nat)
    requires IsHistory(run) && i < |run|
    ensures AllTold(run[i].log, run[i].state)
  {
    if i == 0 {
      assert forall n: NodeId :: Told([], SaidOfNode(n), Pending, Status(INITIAL_STATE, n));
    } else {
      JournalTellsState(run, i - 1);
      assert MovesAt(run, i - 1);
      MoveTold(run[i - 1], run[i]);
    }
  }

  lemma DeliveryMoves(s: System, before: System, cmd: Command, s': System)
    requires before.state == s.state && before.log == s.log && Delivers(before, cmd, s')
    ensures Moves(s, s')
  {
    var d: Decision :| d.Decision? && Decides(before.registry, before.state, cmd, d) && s' == After(before, cmd, d);
  }

  lemma StepMoves(def: FlowDef, s: System, step: Step, s': System)
    requires Next(def, s, step, s')
    ensures Moves(s, s')
  {
    match step
    case Start(context) => DeliveryMoves(s, s, StartFlow(def, context), s');
    case Completes(n, result) => DeliveryMoves(s, Reported(s, n), ReportCompleted(n, result), s');
    case Fails(n, error) => DeliveryMoves(s, Reported(s, n), ReportFailed(n, error), s');
    case ChildDone(id, output) => DeliveryMoves(s, s, ChildFlowCompleted(id, output), s');
    case Query => DeliveryMoves(s, s, GetState, s');
    case Registers(other) =>
  }

  /** The runs of a flow, with skipped failures and users' answers, are histories. */
  lemma RunIsHistory(def: FlowDef, run: seq<System>, steps: seq<SilentStep>)
    requires IsSilentRun(def, run, steps)
    ensures IsHistory(run)
  {
    forall i: nat | i + 1 < |run| ensures MovesAt(run, i) {
      assert SilentStepAt(def, run, steps, i);
      if steps[i].Plain? {
        StepMoves(def, run[i], steps[i].step, run[i + 1]);
      } else {
        DeliveryMoves(run[i], Reported(run[i], steps[i].n), SilentCommand(steps[i]), run[i + 1]);
      }
    }
  }

  /** In every run of a flow the journal tells the state. */
  lemma RunTellsState(def: FlowDef, run: seq<System>, steps: seq<Step>, i: nat)
    requires IsRun(def, run, steps) && i < |run|
    ensures AllTold(run[i].log, run[i].state)
  {
    forall i: nat | i + 1 < |run| ensures MovesAt(run, i) {
      assert StepAt(def, run, steps, i);
      StepMoves(def, run[i], steps[i], run[i + 1]);
    }
    JournalTellsState(run, i);
  }

  // ---- What a start gives ----

  /** Tells the definition's context with the command's keys over it, starts the roots and nothing else,
      acknowledges. */
  ghost predicate GivesStart(def: FlowDef, context: Context, d: Decision) {
    && d.Decision? && d.events != [] && d.events[0].FlowStarted? && d.events[0].flowDefId == def.id
    && (forall key: string ::
          Lookup(d.events[0].context, key) == if key in context then Some(context[key])
                                              else Lookup(def.initialContext, key))
    && |d.events| == |d.fired| + 1 && (forall i | 0 <= i < |d.fired| :: d.events[i + 1] == NodeStarted(d.fired[i]))
    && AreRoots(def, d.fired) && d.reply == Some(Acknowledged(def.id))
  }

  /** The nodes without a dependency, each once. */
  ghost predicate AreRoots(def: FlowDef, nodes: seq<NodeId>) {
    Distinct(nodes) && forall n: NodeId :: n in nodes <==> n in def.nodes && forall m: NodeId :: (m, n) !in def.edges
  }

  lemma RootsAre(def: FlowDef)
    ensures AreRoots(def, CompiledForm(def).rootNodes)
  {
    RootsReady(def, INITIAL_STATE);
    forall n: NodeId ensures DepsDone(def, INITIAL_STATE, n) <==> forall m: NodeId :: (m, n) !in def.edges {
      assert forall m: NodeId :: Status(INITIAL_STATE, m) == Pending;
    }
  }

  lemma StartDecisionGives(def: FlowDef, context: Context)
    ensures GivesStart(def, context, StartDecision(def, context))
  {
    RootsAre(def);
  }

  /** An accepted start gives its start. */
  lemma StartGives(registry: map<string, FlowDef>, st: NodeFlowState, def: FlowDef, context: Context, d: Decision)
    requires Decides(registry, st, StartFlow(def, context), d) && d.Decision? && !IsBusy(st)
    ensures GivesStart(def, context, d)
  {
    StartDecisionGives(def, context);
  }

  /** A start is refused exactly while the flow runs or waits for input, and then changes nothing. */
  lemma StartRefusedIff(registry: map<string, FlowDef>, st: NodeFlowState, def: FlowDef, context: Context, d: Decision)
    requires Decides(registry, st, StartFlow(def, context), d)
    ensures d.Decision? && d.events == [] && d.fired == [] && d.reply.Some? && d.reply.value.Error?
            <==> st.status.FlowIsRunning? || st.status.WaitsForInput?
    ensures d.Throws? ==> !(EdgesKnown(def) && Acyclic(def.edges))
  {
  }
}
