/** Where a flow leaves its schedule: successes that fire nothing, and restarts (src/ai/node-flow/aggregate.ts). */
module NodeFlowDepartures {
  import opened Prelude
  import opened NodeFlowDef
  import opened NodeFlowAggregate
  import opened NodeFlowRuns

  // ---- Successes that fire nothing: skipped failures and users' answers ----

  datatype SilentStep =
    | Plain(step: Step)
    | Skips(n: NodeId, error: string)
    | Answers(n: NodeId, message: Json)
    | Chooses(n: NodeId, choice: int)

  function SilentCommand(step: SilentStep): Command
    requires !step.Plain?
  {
    match step
    case Skips(n, error) => ReportFailed(n, error)
    case Answers(n, message) => UserMessage(n, message)
    case Chooses(n, choice) => UserChoice(n, choice)
  }

  /** The steps of a run, and a running node that fails under the skip policy or gets its user's answer. */
  ghost predicate SilentNext(def: FlowDef, s: System, step: SilentStep, s': System) {
    if step.Plain? then Next(def, s, step.step, s') else
      && step.n in s.inflight && (step.Skips? ==> step.n in def.skip)
      && Delivers(Reported(s, step.n), SilentCommand(step), s')
  }

  ghost predicate IsSilentRun(def: FlowDef, run: seq<System>, steps: seq<SilentStep>) {
    && |run| == |steps| + 1 && Initial(run[0])
    && forall i: nat | i < |steps| :: SilentStepAt(def, run, steps, i)
  }

  ghost predicate SilentStepAt(def: FlowDef, run: seq<System>, steps: seq<SilentStep>, i: nat)
    requires |run| == |steps| + 1 && i < |steps|
  {
    SilentNext(def, run[i], steps[i], run[i + 1])
  }

  ghost predicate NothingWaits(def: FlowDef, st: NodeFlowState) {
    forall k | k in def.nodes && Status(st, k) == Pending :: !DepsDone(def, st, k)
  }

  /** No ready node was passed over, and everything done is announced. */
  ghost predicate Intact(def: FlowDef, s: System) {
    && NothingWaits(def, s.state)
    && (AllDone(def, s.state) && def.nodes != [] ==> CompletionCount(s.log) == 1)
  }

  /** What is left of the invariant: nothing starts early or twice, nothing is announced early or twice. */
  ghost predicate SilentInv(def: FlowDef, s: System) {
    && s.inflight == multiset(RunningNodes(s.state))
    && if s.state.status.NotStarted?
       then s.state == INITIAL_STATE && def.id != "" && forall i | 0 <= i < |s.log| :: s.log[i].ChildFlowDone?
       else && Registered(def, s) && Orderly(def, s.state) && Traced(def, s.state, s.log)
            && (CompletionCount(s.log) == 0
                || (CompletionCount(s.log) == 1 && AllDone(def, s.state) && def.nodes != []))
  }

  /** The invariant of plain runs is what is left together with being intact. */
  lemma IntactMeansInv(def: FlowDef, s: System)
    requires !s.state.status.NotStarted?
    ensures Inv(def, s) <==> SilentInv(def, s) && Intact(def, s)
  {
    ScheduledIff(def, s.state);
    var announced := if AllDone(def, s.state) && def.nodes != [] then 1 else 0;
    assert Logged(def, s.state, s.log) <==> Traced(def, s.state, s.log) && CompletionCount(s.log) == announced;
  }

  lemma ScheduledIff(def: FlowDef, st: NodeFlowState)
    ensures Scheduled(def, st) <==> Orderly(def, st) && NothingWaits(def, st)
  {
  }

  /** `n` has taken another status, and no other node has. */
  ghost predicate Turned(st: NodeFlowState, n: NodeId, to: NodeStatus, st': NodeFlowState) {
    && (forall m :: Status(st', m) == if m == n then to else Status(st, m))
    && (forall m :: m in st'.nodeStatuses <==> m in st.nodeStatuses || m == n)
    && st'.activeNodeCount == Max(0, st.activeNodeCount - 1)
  }

  /** A running node that settles leaves the order as it was. */
  lemma TurnedOrderly(def: FlowDef, st: NodeFlowState, n: NodeId, to: NodeStatus, st': NodeFlowState)
    requires Orderly(def, st) && n in def.nodes && Status(st, n) == Running && Turned(st, n, to, st')
    requires to == Completed || to == Failed
    ensures Orderly(def, st') && RunningNodes(st') == RunningNodes(st) - {n} && n in RunningNodes(st)
  {
    forall m ensures m in RunningNodes(st') <==> m in RunningNodes(st) - {n} {
      assert m in RunningNodes(st') <==> Status(st', m) == Running;
      assert m in RunningNodes(st) <==> Status(st, m) == Running;
    }
    assert RunningNodes(st') == RunningNodes(st) - {n};
    forall m | m in def.nodes && Status(st', m) != Pending ensures DepsDone(def, st', m) {
      assert Status(st, m) != Pending && DepsDone(def, st, m);
    }
  }

  /** `n` has succeeded, and nothing else has changed. */
  ghost predicate OnlySucceeded(def: FlowDef, s: System, n: NodeId, s': System) {
    && Turned(s.state, n, Completed, s'.state)
    && s'.state.status == s.state.status && Registered(def, s')
    && s'.inflight == s.inflight - multiset{n}
    && SucceedsInLog(def, s.log, {n}, s'.log)
  }

  /** The successes of `ns` and no starts or announcements were added. */
  ghost predicate SucceedsInLog(def: FlowDef, log: seq<Event>, ns: set<NodeId>, log': seq<Event>) {
    && (forall m :: StartCount(log', m) == StartCount(log, m))
    && (forall m :: HasSucceeded(log', m) <==> HasSucceeded(log, m) || m in ns)
    && CompletionCount(log') == CompletionCount(log)
    && (StartsFollowSuccesses(def, log) ==> StartsFollowSuccesses(def, log'))
  }

  lemma SettledTraced(def: FlowDef, st: NodeFlowState, log: seq<Event>, n: NodeId, to: NodeStatus, st': NodeFlowState,
                      log': seq<Event>)
    requires Traced(def, st, log) && Status(st, n) == Running && Turned(st, n, to, st')
    requires (to == Completed && SucceedsInLog(def, log, {n}, log'))
             || (to == Failed && SucceedsInLog(def, log, {}, log'))
    ensures Traced(def, st', log')
  {
    forall m ensures Status(st', m) == Completed <==> HasSucceeded(log', m) {
      assert HasSucceeded(log, m) <==> Status(st, m) == Completed;
    }
    forall m ensures StartCount(log', m) == if Status(st', m) == Pending then 0 else 1 {
      assert StartCount(log, m) == if Status(st, m) == Pending then 0 else 1;
    }
  }

  /** The one or two events of a silent success. */
  function SilentEvents(step: SilentStep): seq<Event>
    requires !step.Plain?
  {
    match step
    case Skips(n, _) => [NodeSucceeded(n, Null)]
    case Answers(n, message) => [MessageReceived(n, message), NodeSucceeded(n, message)]
    case Chooses(n, choice) => [NodeSucceeded(n, Obj(map["choice" := Num(choice)]))]
  }

  lemma SilentLog(def: FlowDef, log: seq<Event>, step: SilentStep)
    requires !step.Plain?
    ensures SucceedsInLog(def, log, {step.n}, log + SilentEvents(step))
  {
    var events := SilentEvents(step);
    if step.Answers? {
      LogOne(def, log, events[0]);
      LogOne(def, log + [events[0]], events[1]);
      assert log + events == (log + [events[0]]) + [events[1]];
    } else {
      LogOne(def, log, events[0]);
      assert events == [events[0]];
    }
  }

  lemma SilentState(st: NodeFlowState, step: SilentStep)
    requires !step.Plain?
    ensures var r := ApplyEvents(st, SilentEvents(step));
            && Turned(st, step.n, Completed, r)
            && (r.status, r.flowDefId, r.compiled) == (st.status, st.flowDefId, st.compiled)
  {
    var events := SilentEvents(step);
    if step.Answers? {
      assert events == [events[0]] + [events[1]];
      ApplyEventsConcat(st, [events[0]], [events[1]]);
      ApplyOneEvent(st, events[0]);
      ApplyOneEvent(ApplyEvent(st, events[0]), events[1]);
    } else {
      assert events == [events[0]];
      ApplyOneEvent(st, events[0]);
    }
  }

  /** The node that is skipped or answered is of this flow, so its success is what gets persisted. */
  lemma SilentDelivers(def: FlowDef, s: System, step: SilentStep, s': System)
    requires !step.Plain? && Registered(def, s) && step.n in def.nodes
    requires step.Skips? ==> step.n in def.skip
    requires Delivers(Reported(s, step.n), SilentCommand(step), s')
    ensures s' == System(ApplyEvents(CachedAfter(s.registry, s.state, SilentCommand(step)), SilentEvents(step)),
                         s.registry,
                         s.inflight - multiset{step.n}, s.log + SilentEvents(step))
  {
    var known := KnownPlan(def, s);
    var none: seq<NodeId> := [];
    assert multiset(none) == multiset{};
  }

  lemma SilentOutcome(def: FlowDef, s: System, step: SilentStep)
    requires !step.Plain? && Registered(def, s)
    ensures var cached := CachedAfter(s.registry, s.state, SilentCommand(step));
            OnlySucceeded(def, s, step.n, System(ApplyEvents(cached, SilentEvents(step)), s.registry,
                                                 s.inflight - multiset{step.n}, s.log + SilentEvents(step)))
  {
    var cached := CachedAfter(s.registry, s.state, SilentCommand(step));
    var known := KnownPlan(def, s);
    SilentLog(def, s.log, step);
    SilentState(cached, step);
    assert forall m :: Status(cached, m) == Status(s.state, m);
  }

  lemma SilentSucceeds(def: FlowDef, s: System, step: SilentStep, s': System)
    requires !step.Plain? && Registered(def, s) && step.n in def.nodes
    requires step.Skips? ==> step.n in def.skip
    requires Delivers(Reported(s, step.n), SilentCommand(step), s')
    ensures OnlySucceeded(def, s, step.n, s')
  {
    SilentDelivers(def, s, step, s');
    SilentOutcome(def, s, step);
  }

  /** A pending node waits for `n` and nothing else. */
  ghost predicate WaitsOnlyFor(def: FlowDef, st: NodeFlowState, n: NodeId, k: NodeId) {
    k in def.nodes && Status(st, k) == Pending && forall m | (m, k) in def.edges && m != n :: Status(st, m) == Completed
  }

  /** `n` is the last node of the flow to complete. */
  ghost predicate IsLast(def: FlowDef, st: NodeFlowState, n: NodeId) {
    forall m | m in def.nodes && m != n :: Status(st, m) == Completed
  }

  /** A silent success passes over what waits for it alone, and never announces. */
  ghost predicate Breaks(def: FlowDef, st: NodeFlowState, step: SilentStep) {
    !step.Plain? && (IsLast(def, st, step.n) || exists k :: WaitsOnlyFor(def, st, step.n, k))
  }

  lemma SilentKeeps(def: FlowDef, s: System, n: NodeId, s': System)
    requires SilentInv(def, s) && !s.state.status.NotStarted? && n in s.inflight && OnlySucceeded(def, s, n, s')
    ensures SilentInv(def, s')
  {
    assert n in RunningNodes(s.state) && n in def.nodes && !AllDone(def, s.state);
    TurnedOrderly(def, s.state, n, Completed, s'.state);
    SettledTraced(def, s.state, s.log, n, Completed, s'.state, s'.log);
    RemoveOne(RunningNodes(s.state), n);
  }

  lemma SilentIntactIff(def: FlowDef, s: System, n: NodeId, s': System)
    requires SilentInv(def, s) && !s.state.status.NotStarted? && n in s.inflight && OnlySucceeded(def, s, n, s')
    ensures Intact(def, s') <==> Intact(def, s) && !IsLast(def, s.state, n) && forall k ::
                                 !WaitsOnlyFor(def, s.state, n, k)
  {
    assert n in RunningNodes(s.state) && n in def.nodes && !AllDone(def, s.state);
    assert AllDone(def, s'.state) <==> IsLast(def, s.state, n);
    SilentWaitIff(def, s.state, n, s'.state);
  }

  lemma SilentWaitIff(def: FlowDef, st: NodeFlowState, n: NodeId, st': NodeFlowState)
    requires Status(st, n) == Running && Turned(st, n, Completed, st')
    ensures NothingWaits(def, st') <==> forall k :: !WaitsOnlyFor(def, st, n, k)
    ensures NothingWaits(def, st') ==> NothingWaits(def, st)
  {
    forall k | k in def.nodes && Status(st', k) == Pending
      ensures DepsDone(def, st', k) <==> WaitsOnlyFor(def, st, n, k)
      ensures DepsDone(def, st, k) ==> WaitsOnlyFor(def, st, n, k)
    {
      if DepsDone(def, st', k) {
        forall m | (m, k) in def.edges && m != n ensures Status(st, m) == Completed {
          assert Status(st', m) == Completed;
        }
      }
    }
  }

  // ---- Plain steps when the schedule may be broken ----

  lemma CompletionHeals(def: FlowDef, s: System, n: NodeId, result: Json, s': System)
    requires SilentInv(def, s) && n in s.inflight && Delivers(Reported(s, n), ReportCompleted(n, result), s')
    ensures Inv(def, s') && !s'.state.status.NotStarted?
  {
    assert n in RunningNodes(s.state) && n in def.nodes && !AllDone(def, s.state);
    var known := KnownPlan(def, s);
    SamePlanSchedules(known, def, s.state);
    SamePlanLogs(known, def, s.state, s.log);
    KnownCompletionHeals(known, s, n, result, s');
    SamePlanSchedules(known, def, s'.state);
    SamePlanLogs(known, def, s'.state, s'.log);
  }

  lemma KnownCompletionHeals(known: FlowDef, s: System, n: NodeId, result: Json, s': System)
    requires KnownFlow(s.registry, s.state) == Some(known) && Compiles(known)
    requires Orderly(known, s.state) && Traced(known, s.state, s.log) && CompletionCount(s.log) == 0
    requires Status(s.state, n) == Running && n in known.nodes && s.inflight == multiset(RunningNodes(s.state))
    requires !s.state.status.NotStarted? && Delivers(Reported(s, n), ReportCompleted(n, result), s')
    ensures Scheduled(known, s'.state) && Logged(known, s'.state, s'.log) && !s'.state.status.NotStarted?
    ensures s'.inflight == multiset(RunningNodes(s'.state)) && s'.registry == s.registry
    ensures s'.state.flowDefId == s.state.flowDefId && s'.state.compiled == Some(CompiledForm(known))
  {
    var cached := s.state.(compiled := Some(CompiledForm(known)));
    CacheKeepsOrder(known, s.state, Some(CompiledForm(known)), s.log);
    ReportDelivers(known, Reported(s, n), ReportCompleted(n, result), s');
    CompletedOutcome(known, cached, s.log, n, result);
  }

  lemma CacheKeepsOrder(def: FlowDef, st: NodeFlowState, compiled: Option<CompiledFlow>, log: seq<Event>)
    ensures var st' := st.(compiled := compiled);
            && (Orderly(def, st) ==> Orderly(def, st'))
            && (Traced(def, st, log) ==> Traced(def, st', log))
            && RunningNodes(st') == RunningNodes(st)
  {
    var st' := st.(compiled := compiled);
    assert forall n :: Status(st', n) == Status(st, n);
    assert forall n :: DepsDone(def, st', n) <==> DepsDone(def, st, n);
    assert RunningNodes(st') == RunningNodes(st);
  }

  /** `n` has failed, and nothing else has changed. */
  ghost predicate OnlyFailed(def: FlowDef, s: System, n: NodeId, s': System) {
    && Turned(s.state, n, Failed, s'.state)
    && !s'.state.status.NotStarted? && Registered(def, s')
    && s'.inflight == s.inflight - multiset{n}
    && SucceedsInLog(def, s.log, {}, s'.log)
  }

  lemma FailureLog(def: FlowDef, log: seq<Event>, n: NodeId, error: string)
    ensures SucceedsInLog(def, log, {}, log + [NodeFailed(n, error), FlowFailed(n, error)])
  {
    LogOne(def, log, NodeFailed(n, error));
    LogOne(def, log + [NodeFailed(n, error)], FlowFailed(n, error));
    assert log + [NodeFailed(n, error), FlowFailed(n, error)]
        == (log + [NodeFailed(n, error)]) + [FlowFailed(n, error)];
  }

  lemma FailureState(st: NodeFlowState, n: NodeId, error: string)
    ensures var r := ApplyEvents(st, [NodeFailed(n, error), FlowFailed(n, error)]);
            && Turned(st, n, Failed, r)
            && r.status.FlowHasFailed? && (r.flowDefId, r.compiled) == (st.flowDefId, st.compiled)
  {
    var failed, flowFailed := NodeFailed(n, error), FlowFailed(n, error);
    assert [failed, flowFailed] == [failed] + [flowFailed];
    ApplyEventsConcat(st, [failed], [flowFailed]);
    ApplyOneEvent(st, failed);
    ApplyOneEvent(ApplyEvent(st, failed), flowFailed);
  }

  lemma FailureDelivers(def: FlowDef, s: System, n: NodeId, error: string, s': System)
    requires Registered(def, s) && !s.state.status.NotStarted? && n in def.nodes && n !in def.skip
    requires Delivers(Reported(s, n), ReportFailed(n, error), s')
    ensures OnlyFailed(def, s, n, s')
  {
    var known := KnownPlan(def, s);
    ReportDelivers(known, Reported(s, n), ReportFailed(n, error), s');
    FailureState(s.state.(compiled := Some(CompiledForm(known))), n, error);
    FailureLog(def, s.log, n, error);
    var none: seq<NodeId> := [];
    assert multiset(none) == multiset{};
  }

  lemma FailureKeeps(def: FlowDef, s: System, n: NodeId, s': System)
    requires SilentInv(def, s) && !s.state.status.NotStarted? && n in s.inflight && OnlyFailed(def, s, n, s')
    ensures SilentInv(def, s')
  {
    assert n in RunningNodes(s.state) && n in def.nodes && !AllDone(def, s.state);
    TurnedOrderly(def, s.state, n, Failed, s'.state);
    SettledTraced(def, s.state, s.log, n, Failed, s'.state, s'.log);
    RemoveOne(RunningNodes(s.state), n);
  }

  lemma FailureIntactIff(def: FlowDef, s: System, n: NodeId, s': System)
    requires SilentInv(def, s) && !s.state.status.NotStarted? && n in s.inflight && OnlyFailed(def, s, n, s')
    ensures Intact(def, s') <==> Intact(def, s)
  {
    assert n in RunningNodes(s.state) && n in def.nodes && !AllDone(def, s.state) && !AllDone(def, s'.state);
    assert forall m :: DepsDone(def, s'.state, m) <==> DepsDone(def, s.state, m);
  }

  /** A bystander's event, a query, a rejected start or a registration. */
  ghost predicate StandsBy(def: FlowDef, s: System, s': System) {
    s'.state == s.state && s'.inflight == s.inflight && Registered(def, s') && SucceedsInLog(def, s.log, {}, s'.log)
  }

  lemma BystanderStandsBy(def: FlowDef, s: System, step: Step, s': System)
    requires Registered(def, s) && !s.state.status.NotStarted? && Next(def, s, step, s')
    requires !step.Completes? && !step.Fails?
    ensures StandsBy(def, s, s')
  {
    match step
    case Start(context) => RejectedKeeps(def, s, StartFlow(def, context), s');
    case ChildDone(id, output) =>
      BystanderDelivers(s, id, output, s');
      LogOne(def, s.log, ChildFlowDone(id, output));
    case Query => RejectedKeeps(def, s, GetState, s');
    case Registers(other) =>
  }

  lemma StandingByKeeps(def: FlowDef, s: System, s': System)
    requires SilentInv(def, s) && !s.state.status.NotStarted? && StandsBy(def, s, s')
    ensures SilentInv(def, s') && (Intact(def, s') <==> Intact(def, s))
  {
  }

  // ---- Theorems over runs with silent successes ----

  /** Every completion report repairs the schedule, since it rescans all nodes; a silent success breaks it when a node
      waits for it alone or it is the last; nothing else changes it. */
  ghost predicate IntactAfter(def: FlowDef, s: System, step: SilentStep) {
    (step.Plain? && step.step.Completes?) || (Intact(def, s) && !Breaks(def, s.state, step))
  }

  lemma IntactAfterIff(def: FlowDef, s: System, step: SilentStep, s': System)
    requires SilentInv(def, s) && !s.state.status.NotStarted? && SilentNext(def, s, step, s')
    ensures SilentInv(def, s') && !s'.state.status.NotStarted?
    ensures Intact(def, s') <==> IntactAfter(def, s, step)
  {
    if !step.Plain? {
      assert step.n in RunningNodes(s.state) && step.n in def.nodes;
      SilentSucceeds(def, s, step, s');
      SilentKeeps(def, s, step.n, s');
      SilentIntactIff(def, s, step.n, s');
    } else if step.step.Completes? {
      CompletionHeals(def, s, step.step.n, step.step.result, s');
      IntactMeansInv(def, s');
    } else if step.step.Fails? {
      assert step.step.n in RunningNodes(s.state) && step.step.n in def.nodes;
      FailureDelivers(def, s, step.step.n, step.step.error, s');
      FailureKeeps(def, s, step.step.n, s');
      FailureIntactIff(def, s, step.step.n, s');
    } else {
      BystanderStandsBy(def, s, step.step, s');
      StandingByKeeps(def, s, s');
    }
  }

  lemma UnstartedKeeps(def: FlowDef, s: System, step: SilentStep, s': System)
    requires SilentInv(def, s) && s.state.status.NotStarted? && SilentNext(def, s, step, s')
    ensures SilentInv(def, s') && (!s'.state.status.NotStarted? ==> Intact(def, s'))
  {
    assert RunningNodes(INITIAL_STATE) == {} && step.Plain?;
    StepKeeps(def, s, step.step, s');
    if !s'.state.status.NotStarted? {
      IntactMeansInv(def, s');
    }
  }

  lemma {:induction false} SilentRunKeeps(def: FlowDef, run: seq<System>, steps: seq<SilentStep>, i: nat)
    requires IsSilentRun(def, run, steps) && i < |run| && def.id != ""
    ensures SilentInv(def, run[i])
  {
    if i == 0 {
      assert RunningNodes(INITIAL_STATE) == {};
    } else {
      SilentRunKeeps(def, run, steps, i - 1);
      assert SilentStepAt(def, run, steps, i - 1);
      if run[i - 1].state.status.NotStarted? {
        UnstartedKeeps(def, run[i - 1], steps[i - 1], run[i]);
      } else {
        IntactAfterIff(def, run[i - 1], steps[i - 1], run[i]);
      }
    }
  }

  /** Whatever is skipped or answered, a node starts at most once and after its dependencies, the counter is exact, and
      completion is announced at most once and never early. */
  lemma SilentRunsStayOrderly(def: FlowDef, run: seq<System>, steps: seq<SilentStep>, i: nat)
    requires IsSilentRun(def, run, steps) && i < |run| && def.id != ""
    ensures forall n :: StartCount(run[i].log, n) <= 1
    ensures StartsFollowSuccesses(def, run[i].log)
    ensures run[i].inflight == multiset(RunningNodes(run[i].state)) && run[i].state.activeNodeCount == |run[i].inflight|
    ensures CompletionCount(run[i].log) <= if AllDone(def, run[i].state) && def.nodes != [] then 1 else 0
  {
    SilentRunKeeps(def, run, steps, i);
    if run[i].state.status.NotStarted? {
      BystandersLogged(def, run[i].log);
    }
  }

  lemma IdleStep(def: FlowDef, s: System, step: SilentStep, s': System)
    requires SilentInv(def, s) && !s.state.status.NotStarted? && s.inflight == multiset{}
             && SilentNext(def, s, step, s')
    ensures s'.state == s.state && s'.inflight == multiset{} && CompletionCount(s'.log) == CompletionCount(s.log)
    ensures Intact(def, s') <==> Intact(def, s)
  {
    BystanderStandsBy(def, s, step.step, s');
    StandingByKeeps(def, s, s');
  }

  /** With nothing running a started flow never moves again: intact or stalled, it stays so. */
  lemma {:induction false} IdleStays(def: FlowDef, run: seq<System>, steps: seq<SilentStep>, i: nat, j: nat)
    requires IsSilentRun(def, run, steps) && i <= j < |run| && def.id != ""
    requires !run[i].state.status.NotStarted? && run[i].inflight == multiset{}
    ensures run[j].state == run[i].state && run[j].inflight == multiset{}
    ensures CompletionCount(run[j].log) == CompletionCount(run[i].log)
    ensures Intact(def, run[j]) <==> Intact(def, run[i])
    decreases j
  {
    if i < j {
      IdleStays(def, run, steps, i, j - 1);
      SilentRunKeeps(def, run, steps, j - 1);
      assert SilentStepAt(def, run, steps, j - 1);
      IdleStep(def, run[j - 1], steps[j - 1], run[j]);
    }
  }

  lemma RunIntactIff(def: FlowDef, run: seq<System>, steps: seq<SilentStep>, i: nat)
    requires IsSilentRun(def, run, steps) && i < |steps| && !run[i].state.status.NotStarted? && def.id != ""
    ensures !run[i + 1].state.status.NotStarted?
    ensures Intact(def, run[i + 1]) <==> IntactAfter(def, run[i], steps[i])
  {
    SilentRunKeeps(def, run, steps, i);
    assert SilentStepAt(def, run, steps, i);
    IntactAfterIff(def, run[i], steps[i], run[i + 1]);
  }

  /** A flow whose last running node has reported stands still, and it stands stalled exactly when that report
      broke the schedule, or found it broken and was no completion. */
  lemma StallsIff(def: FlowDef, run: seq<System>, steps: seq<SilentStep>, i: nat, j: nat)
    requires IsSilentRun(def, run, steps) && i < j < |run| && def.id != ""
    requires !run[i].state.status.NotStarted? && run[i + 1].inflight == multiset{}
    ensures run[j].state == run[i + 1].state
    ensures Intact(def, run[j]) <==> IntactAfter(def, run[i], steps[i])
  {
    RunIntactIff(def, run, steps, i);
    IdleStays(def, run, steps, i + 1, j);
  }

  function Unstarted(): System {
    System(INITIAL_STATE, map[], multiset{}, [])
  }

  lemma StartIsDelivered(def: FlowDef, s: System)
    requires Compiles(def) && !IsBusy(s.state)
    ensures Delivers(s, StartFlow(def, map[]), Started(def, s, map[]))
  {
    assert Decides(s.registry, s.state, StartFlow(def, map[]), StartDecision(def, map[]));
  }

  lemma FirstStart(def: FlowDef)
    requires Compiles(def)
    ensures var s := Started(def, Unstarted(), map[]);
            && Next(def, Unstarted(), Start(map[]), s) && s.state.status.FlowIsRunning?
            && s.inflight == multiset(CompiledForm(def).rootNodes)
            && forall m :: Status(s.state, m) == if m in CompiledForm(def).rootNodes then Running else Pending
  {
    StartIsDelivered(def, Unstarted());
    RestartStatuses(def, INITIAL_STATE, map[]);
  }

  lemma FirstStartKeeps(def: FlowDef)
    requires Compiles(def) && def.id != ""
    ensures Inv(def, Started(def, Unstarted(), map[]))
  {
    assert RunningNodes(INITIAL_STATE) == {};
    StartedKeeps(def, Unstarted(), map[]);
  }

  ghost function Skipped(def: FlowDef, s: System, n: NodeId): System {
    After(Reported(s, n), ReportFailed(n, "e"), Decision([NodeSucceeded(n, Null)], [], None))
  }

  lemma SkipDelivers(def: FlowDef, s: System, n: NodeId)
    requires Registered(def, s) && n in def.nodes && n in def.skip
    ensures Delivers(Reported(s, n), ReportFailed(n, "e"), Skipped(def, s, n))
  {
    var known := KnownPlan(def, s);
    assert Decides(s.registry, s.state, ReportFailed(n, "e"), Decision([NodeSucceeded(n, Null)], [], None));
  }

  /** A start, and then a root that fails under the skip policy. */
  lemma SkippedRootRun(def: FlowDef, n: NodeId) returns (run: seq<System>, steps: seq<SilentStep>)
    requires Compiles(def) && def.id != "" && n in CompiledForm(def).rootNodes && n in def.skip
    ensures IsSilentRun(def, run, steps) && |run| == 3
    ensures var roots := CompiledForm(def).rootNodes;
            forall m :: Status(run[2].state, m) == if m == n then Completed else if m in roots then Running else Pending
    ensures run[2].inflight == multiset(CompiledForm(def).rootNodes) - multiset{n}
    ensures run[2].state.status.FlowIsRunning? && CompletionCount(run[2].log) == 0
  {
    var s := Started(def, Unstarted(), map[]);
    var s' := Skipped(def, s, n);
    FirstStart(def);
    FirstStartKeeps(def);
    assert Status(s.state, n) == Running && n in s.inflight && n in def.nodes;
    SkipDelivers(def, s, n);
    SilentSucceeds(def, s, Skips(n, "e"), s');
    NothingCompleted(def, s, n);
    run, steps := [Unstarted(), s, s'], [Plain(Start(map[])), Skips(n, "e")];
    TwoSteps(def, run, steps);
  }

  lemma TwoSteps(def: FlowDef, run: seq<System>, steps: seq<SilentStep>)
    requires |run| == 3 && |steps| == 2 && Initial(run[0])
    requires SilentNext(def, run[0], steps[0], run[1]) && SilentNext(def, run[1], steps[1], run[2])
    ensures IsSilentRun(def, run, steps)
  {
    forall i: nat | i < |steps| ensures SilentStepAt(def, run, steps, i) {
      assert i == 0 || i == 1;
    }
  }

  lemma NothingCompleted(def: FlowDef, s: System, n: NodeId)
    requires Inv(def, s) && !s.state.status.NotStarted? && n in def.nodes && Status(s.state, n) == Running
    ensures CompletionCount(s.log) == 0
  {
  }

  /** The nodes are skipped when they fail. */
  function SkipFlow(nodes: NodeIds, edges: seq<Edge>): FlowDef {
    FlowDef("f", nodes, edges, SetOf(nodes), map[])
  }

  lemma ChainCompiles()
    ensures var def := SkipFlow([0, 1], [(0, 1)]);
            Compiles(def) && Distinct(CompiledForm(def).rootNodes) && forall n ::
                n in CompiledForm(def).rootNodes <==> n == 0
  {
    var def := SkipFlow([0, 1], [(0, 1)]);
    var order: seq<NodeId> := [1, 0];
    forall i, m | 0 <= i < |order| && (order[i], m) in def.edges ensures m in order[..i] {
      assert i == 1 && order[..i] == [1];
    }
    FinishOrderIsAcyclic(def, order);
    RootsReady(def, INITIAL_STATE);
    assert (0, 1) in def.edges && !DepsDone(def, INITIAL_STATE, 1);
  }

  /** One edge 0 -> 1: node 0 is skipped, nothing runs, and node 1 stays pending. */
  lemma SkipStalls() returns (run: seq<System>, steps: seq<SilentStep>)
    ensures var def := SkipFlow([0, 1], [(0, 1)]);
            && IsSilentRun(def, run, steps) && |run| == 3 && run[2].inflight == multiset{}
            && Status(run[2].state, 1) == Pending && run[2].state.status.FlowIsRunning? && !Intact(def, run[2])
  {
    var def := SkipFlow([0, 1], [(0, 1)]);
    ChainCompiles();
    run, steps := SkippedRootRun(def, 0);
    OnlyOne(CompiledForm(def).rootNodes, 0);
    assert 1 in def.nodes && DepsDone(def, run[2].state, 1);
  }

  /** A single node is skipped: everything is completed, nothing runs, and the completion is never announced. */
  lemma SkipIsNotAnnounced() returns (run: seq<System>, steps: seq<SilentStep>)
    ensures var def := SkipFlow([0], []);
            && IsSilentRun(def, run, steps) && |run| == 3 && run[2].inflight == multiset{} && AllDone(def, run[2].state)
            && CompletionCount(run[2].log) == 0 && run[2].state.status.FlowIsRunning? && !Intact(def, run[2])
  {
    var def := SkipFlow([0], []);
    FinishOrderIsAcyclic(def, [0]);
    RootsReady(def, INITIAL_STATE);
    assert DepsDone(def, INITIAL_STATE, 0);
    var roots := CompiledForm(def).rootNodes;
    assert forall n :: n in roots <==> n == 0;
    run, steps := SkippedRootRun(def, 0);
    OnlyOne(roots, 0);
  }

  lemma OnlyOne(s: seq<NodeId>, n: NodeId)
    requires Distinct(s) && forall m :: m in s <==> m == n
    ensures multiset(s) == multiset{n}
  {
    DistinctMultiset(s);
    assert SetOf(s) == {n};
  }

  // ---- Restarts: a start when an earlier flow of the entity is over ----

  /** Nothing of the earlier flow is left but settled roots of the new one, no definition with another plan is cached,
      and without a cached one the flow has a name to be found by. */
  ghost predicate Restartable(def: FlowDef, s: System) {
    && s.inflight == multiset{}
    && (forall n | n in s.state.nodeStatuses :: n in def.nodes)
    && (forall n | n in def.nodes && n !in CompiledForm(def).rootNodes :: Status(s.state, n) == Pending)
    && (if s.state.compiled.Some? then SamePlan(s.state.compiled.value.def, def) else def.id != "")
  }

  /** The system with its journal read from the restart on. */
  function Since(s: System, k: nat): System
    requires k <= |s.log|
  {
    s.(log := s.log[k..])
  }

  /** A start keeps old statuses, executors and the cached definition. Read from the restart on, it re-establishes the
      invariant exactly when nothing of the earlier flow is left but settled roots and reports will find its plan;
      otherwise a root that still runs gets a second executor, or a node is taken for done, or the old plan keeps
      being scheduled, or reports find nothing. */
  lemma RestartKeepsIff(def: FlowDef, s: System, context: Context, s': System)
    requires !IsBusy(s.state) && CacheHolds(s.state) && Delivers(s, StartFlow(def, context), s')
    ensures Compiles(def) && s.log <= s'.log
    ensures forall n :: s'.inflight[n] == s.inflight[n] + if n in CompiledForm(def).rootNodes then 1 else 0
    ensures Inv(def, Since(s', |s.log|)) <==> Restartable(def, s)
  {
    StartDelivers(def, s, context, s');
    RootsReady(def, INITIAL_STATE);
    CountRoots(s.inflight, CompiledForm(def).rootNodes);
    SinceStarted(def, s, context);
    RestartedInvIff(def, s.(log := []), context);
  }

  lemma SinceStarted(def: FlowDef, s: System, context: Context)
    ensures var t := Started(def, s, context);
            s.log <= t.log && Since(t, |s.log|) == Started(def, s.(log := []), context)
  {
    assert Started(def, s, context).log[|s.log|..] == [] + StartDecision(def, context).events;
  }

  lemma RestartedInvIff(def: FlowDef, s: System, context: Context)
    requires Compiles(def) && CacheHolds(s.state) && s.log == []
    ensures Inv(def, Started(def, s, context)) <==> Restartable(def, s)
  {
    if Restartable(def, s) {
      RestartedInv(def, s, context);
    }
    if Inv(def, Started(def, s, context)) {
      InvRestartable(def, s, context);
    }
  }

  lemma CountRoots(inflight: multiset<NodeId>, roots: seq<NodeId>)
    requires Distinct(roots)
    ensures forall n :: (inflight + multiset(roots))[n] == inflight[n] + if n in roots then 1 else 0
  {
    DistinctMultiset(roots);
  }

  lemma RestartedInv(def: FlowDef, s: System, context: Context)
    requires Compiles(def) && CacheHolds(s.state) && Restartable(def, s) && s.log == []
    ensures Inv(def, Started(def, s, context))
  {
    var t := Started(def, s, context);
    RestartFromPending(def, s.state, context);
    RestartedLog(def, s.state, context);
    RestartRegisters(def, s, context);
    RestartStatuses(def, s.state, context);
    DistinctMultiset(CompiledForm(def).rootNodes);
    assert [] + StartDecision(def, context).events == StartDecision(def, context).events;
    assert t.inflight == multiset(RunningNodes(t.state));
    assert Registered(def, t);
  }

  lemma RestartRegisters(def: FlowDef, s: System, context: Context)
    requires Compiles(def) && CacheHolds(s.state)
    ensures Registered(def, Started(def, s, context)) <==>
            if s.state.compiled.Some? then SamePlan(s.state.compiled.value.def, def) else def.id != ""
  {
    RestartKeepsCache(def, s.state, context);
  }

  lemma RestartKeepsCache(def: FlowDef, st: NodeFlowState, context: Context)
    requires Compiles(def)
    ensures var r := ApplyEvents(st, StartDecision(def, context).events);
            r.flowDefId == Some(def.id) && r.compiled == st.compiled
  {
    var roots := CompiledForm(def).rootNodes;
    RootsReady(def, INITIAL_STATE);
    var started := FlowStarted(def.id, def.initialContext + context);
    ApplyOneEvent(st, started);
    ApplyEventsConcat(st, [started], Starts(roots));
    ApplyStarts(ApplyEvent(st, started), roots);
  }

  lemma SameStatusesLogged(def: FlowDef, st: NodeFlowState, st': NodeFlowState, log: seq<Event>)
    requires Logged(def, st, log) && forall n :: Status(st', n) == Status(st, n)
    ensures Logged(def, st', log)
  {
    assert AllDone(def, st') <==> AllDone(def, st);
  }

  /** After a restart from pending nodes the journal since then tells what a first start's does. */
  lemma RestartedLog(def: FlowDef, st: NodeFlowState, context: Context)
    requires Compiles(def) && forall n | n in st.nodeStatuses :: n in def.nodes
    requires forall n | n in def.nodes && n !in CompiledForm(def).rootNodes :: Status(st, n) == Pending
    ensures var events := StartDecision(def, context).events;
            Logged(def, ApplyEvents(st, events), events)
  {
    var events := StartDecision(def, context).events;
    StartKeeps(def, [], context);
    assert [] + events == events;
    RestartAgrees(def, st, context);
    SameStatusesLogged(def, ApplyEvents(INITIAL_STATE, events), ApplyEvents(st, events), events);
  }

  lemma RestartAgrees(def: FlowDef, st: NodeFlowState, context: Context)
    requires Compiles(def) && forall n | n in st.nodeStatuses :: n in def.nodes
    requires forall n | n in def.nodes && n !in CompiledForm(def).rootNodes :: Status(st, n) == Pending
    ensures var events := StartDecision(def, context).events;
            forall n :: Status(ApplyEvents(st, events), n) == Status(ApplyEvents(INITIAL_STATE, events), n)
  {
    RestartStatuses(def, st, context);
    RestartStatuses(def, INITIAL_STATE, context);
    assert forall n | n !in def.nodes :: n !in st.nodeStatuses;
  }

  lemma InvRestartable(def: FlowDef, s: System, context: Context)
    requires Compiles(def) && CacheHolds(s.state) && s.log == [] && Inv(def, Started(def, s, context))
    ensures Restartable(def, s)
  {
    var roots := CompiledForm(def).rootNodes;
    var t := Started(def, s, context);
    RestartStatuses(def, s.state, context);
    RestartRegisters(def, s, context);
    CountRoots(s.inflight, roots);
    var order := AcyclicHasFinishOrder(def);
    forall n | n in def.nodes && n !in roots ensures Status(s.state, n) == Pending {
      var i :| 0 <= i < |order| && order[i] == n;
      ScheduledRestartIsPending(def, t.state, order, i);
    }
    forall n ensures s.inflight[n] == 0 {
      assert t.inflight[n] <= 1;
      assert n in t.inflight ==> Status(t.state, n) == Running && n in def.nodes;
    }
    assert s.inflight == multiset{};
  }

  lemma RestartFromPending(def: FlowDef, st: NodeFlowState, context: Context)
    requires Compiles(def) && forall n | n in st.nodeStatuses :: n in def.nodes
    requires forall n | n in def.nodes && n !in CompiledForm(def).rootNodes :: Status(st, n) == Pending
    ensures var r := ApplyEvents(st, StartDecision(def, context).events);
            Scheduled(def, r) && RunningNodes(r) == SetOf(CompiledForm(def).rootNodes)
  {
    var roots := CompiledForm(def).rootNodes;
    RestartStatuses(def, st, context);
    var r := ApplyEvents(st, StartDecision(def, context).events);
    DistinctCardinality(roots);
    forall n ensures n in RunningNodes(r) <==> n in SetOf(roots) {
      assert n in RunningNodes(r) <==> n in r.nodeStatuses && Status(r, n) == Running;
    }
    assert RunningNodes(r) == SetOf(roots);
    forall n | n in def.nodes ensures Status(r, n) == Pending <==> !DepsDone(def, r, n) {
      OnlyRootsStart(def, r, n);
    }
  }

  lemma OnlyRootsStart(def: FlowDef, r: NodeFlowState, n: NodeId)
    requires EdgesKnown(def) && n in def.nodes
    requires n in CompiledForm(def).rootNodes <==> DepsDone(def, INITIAL_STATE, n)
    requires forall m | m in def.nodes :: Status(r, m) == if m in CompiledForm(def).rootNodes then Running else Pending
    ensures Status(r, n) == Pending <==> !DepsDone(def, r, n)
  {
    if m :| (m, n) in def.edges {
      var k :| 0 <= k < |def.edges| && def.edges[k] == (m, n);
      assert Status(r, m) != Completed && Status(INITIAL_STATE, m) != Completed;
    }
  }

  lemma {:induction false} ScheduledRestartIsPending(def: FlowDef, r: NodeFlowState, order: seq<NodeId>, i: nat)
    requires FinishOrder(def, order) && EdgesKnown(def) && Scheduled(def, r) && i < |order|
    requires forall n | n in CompiledForm(def).rootNodes :: Status(r, n) == Running
    ensures order[i] !in CompiledForm(def).rootNodes ==> Status(r, order[i]) == Pending
    ensures Status(r, order[i]) != Completed
    decreases |order| - i
  {
    var n := order[i];
    assert n in order;
    EmptyEntriesHold(def.nodes, Dependencies(def));
    SourcesHold(def.edges, n);
    FirstIsIn(Sources(def.edges, n));
    if n !in CompiledForm(def).rootNodes {
      var m := Sources(def.edges, n)[0];
      var j := SourceComesLater(def, order, m, i);
      ScheduledRestartIsPending(def, r, order, j);
      assert !DepsDone(def, r, n);
    }
  }

  lemma AfterSince(s: System, cmd: Command, d: Decision, k: nat)
    requires d.Decision? && k <= |s.log|
    ensures k <= |After(s, cmd, d).log| && After(Since(s, k), cmd, d) == Since(After(s, cmd, d), k)
  {
    assert (s.log + d.events)[k..] == s.log[k..] + d.events;
  }

  lemma DeliversSince(s: System, cmd: Command, s': System, k: nat)
    requires Delivers(s, cmd, s') && k <= |s.log|
    ensures k <= |s'.log| && Delivers(Since(s, k), cmd, Since(s', k))
  {
    var d: Decision :| d.Decision? && Decides(s.registry, s.state, cmd, d) && s' == After(s, cmd, d);
    AfterSince(s, cmd, d, k);
  }

  lemma NextSince(def: FlowDef, s: System, step: Step, s': System, k: nat)
    requires Next(def, s, step, s') && k <= |s.log|
    ensures k <= |s'.log| && Next(def, Since(s, k), step, Since(s', k))
  {
    match step
    case Start(context) => DeliversSince(s, StartFlow(def, context), s', k);
    case Completes(n, result) =>
      DeliversSince(Reported(s, n), ReportCompleted(n, result), s', k);
      assert Since(Reported(s, n), k) == Reported(Since(s, k), n);
    case Fails(n, error) =>
      DeliversSince(Reported(s, n), ReportFailed(n, error), s', k);
      assert Since(Reported(s, n), k) == Reported(Since(s, k), n);
    case ChildDone(id, output) => DeliversSince(s, ChildFlowCompleted(id, output), s', k);
    case Query => DeliversSince(s, GetState, s', k);
    case Registers(other) =>
  }

  /** After a restart that meets the condition the invariant holds in all later states, read since then. */
  lemma {:induction false} RestartedRunKeeps(def: FlowDef, run: seq<System>, steps: seq<Step>, k: nat, i: nat)
    requires IsPath(def, run, steps) && k <= |run[0].log| && Inv(def, Since(run[0], k)) && i < |run|
    ensures k <= |run[i].log| && Inv(def, Since(run[i], k))
  {
    if i > 0 {
      RestartedRunKeeps(def, run, steps, k, i - 1);
      assert StepAt(def, run, steps, i - 1);
      NextSince(def, run[i - 1], steps[i - 1], run[i], k);
      StepKeeps(def, Since(run[i - 1], k), steps[i - 1], Since(run[i], k));
    }
  }

  /** Two nodes without edges. */
  function TwoRoots(): FlowDef {
    var nodes: NodeIds := [0, 1];
    FlowDef("f", nodes, [], {}, map[])
  }

  lemma TwoRootsCompile()
    ensures var def := TwoRoots();
            Compiles(def) && Distinct(CompiledForm(def).rootNodes) && forall n ::
                n in CompiledForm(def).rootNodes <==> n in def.nodes
  {
    var order: seq<NodeId> := [0, 1];
    FinishOrderIsAcyclic(TwoRoots(), order);
    RootsReady(TwoRoots(), INITIAL_STATE);
  }

  ghost function Broken(def: FlowDef, s: System, n: NodeId): System {
    After(Reported(s, n), ReportFailed(n, "e"), Decision([NodeFailed(n, "e"), FlowFailed(n, "e")], [], None))
  }

  lemma BrokenDelivers(def: FlowDef, s: System, n: NodeId)
    requires Registered(def, s) && n in def.nodes && n !in def.skip
    ensures Delivers(Reported(s, n), ReportFailed(n, "e"), Broken(def, s, n))
  {
    var known := KnownPlan(def, s);
    assert Decides(s.registry, s.state, ReportFailed(n, "e"),
                   Decision([NodeFailed(n, "e"), FlowFailed(n, "e")], [], None));
  }

  lemma BrokenIsOver(def: FlowDef, s: System, n: NodeId)
    requires Registered(def, s) && n in def.nodes && n !in def.skip
    ensures Broken(def, s, n).state.status.FlowHasFailed? && Broken(def, s, n).inflight == s.inflight - multiset{n}
    ensures CacheHolds(Broken(def, s, n).state)
  {
    var known := KnownPlan(def, s);
    FailureState(s.state.(compiled := Some(CompiledForm(known))), n, "e");
    var none: seq<NodeId> := [];
    assert multiset(none) == multiset{};
  }

  lemma OneRootFails() returns (run: seq<System>, steps: seq<Step>)
    ensures IsRun(TwoRoots(), run, steps) && |run| == 3
    ensures run[2].inflight[1] == 1 && run[2].state.status.FlowHasFailed? && CacheHolds(run[2].state)
  {
    var def := TwoRoots();
    TwoRootsCompile();
    var s := Started(def, Unstarted(), map[]);
    FirstStart(def);
    FirstStartKeeps(def);
    CountRoots(multiset{}, CompiledForm(def).rootNodes);
    assert multiset{} + multiset(CompiledForm(def).rootNodes) == multiset(CompiledForm(def).rootNodes);
    assert 0 in def.nodes && 1 in def.nodes && s.inflight[0] == 1 && s.inflight[1] == 1;
    BrokenIsOver(def, s, 0);
    run, steps := [Unstarted(), s, Broken(def, s, 0)], [Start(map[]), Fails(0, "e")];
    BrokenNext(def, s, 0);
    assert StepAt(def, run, steps, 0) && StepAt(def, run, steps, 1);
    TwoPlainSteps(def, run, steps);
  }

  lemma BrokenNext(def: FlowDef, s: System, n: NodeId)
    requires Registered(def, s) && n in def.nodes && n !in def.skip && n in s.inflight
    ensures Next(def, s, Fails(n, "e"), Broken(def, s, n))
  {
    BrokenDelivers(def, s, n);
  }

  lemma TwoPlainSteps(def: FlowDef, run: seq<System>, steps: seq<Step>)
    requires |run| == 3 && |steps| == 2 && Initial(run[0]) && StepAt(def, run, steps, 0) && StepAt(def, run, steps, 1)
    ensures IsRun(def, run, steps)
  {
    forall i: nat | i < |steps| ensures StepAt(def, run, steps, i) {
      assert i == 0 || i == 1;
    }
  }

  /** Node 0 fails while node 1 still runs, and the flow is started again: node 1 now has two executors. */
  lemma RestartDoubles() returns (run: seq<System>, steps: seq<Step>, restarted: System)
    ensures IsRun(TwoRoots(), run, steps) && |run| == 3
    ensures Delivers(run[2], StartFlow(TwoRoots(), map[]), restarted)
    ensures restarted.inflight[1] == 2 && restarted.inflight != multiset(RunningNodes(restarted.state))
  {
    TwoRootsCompile();
    run, steps := OneRootFails();
    restarted := Started(TwoRoots(), run[2], map[]);
    StartIsDelivered(TwoRoots(), run[2]);
    RestartKeepsIff(TwoRoots(), run[2], map[], restarted);
    assert 1 in TwoRoots().nodes && multiset(RunningNodes(restarted.state))[1] <= 1;
  }
}
