# TEOB-TS in Dafny

TEOB-TS is an event-sourcing framework: aggregates decide commands into declarative effects, an entity runner
persists and replays their events, projections and sagas follow the journal, and beside them live a node-flow
scheduler, a Petri-net engine and a few self-contained algorithms. This project models the in-process algorithms and
protocols of the framework and proves what they promise.

Pure code of the source is modelled by functions; code that changes maps, arrays or records step by step is modelled
by classes and loops that are proved against those functions; interleavings, crashes and clocks are modelled by state
machines whose every run is covered. `dafny verify dfyconfig.toml` checks everything.

| file | part of the system |
|---|---|
| `NodeFlowDef.dfy`, `NodeFlowAggregate.dfy`, `NodeFlowRuns.dfy`, `NodeFlowDepartures.dfy`, `NodeFlowIds.dfy`, `NodeFlowData.dfy`, `NodeFlowOrder.dfy` | compiling node flows, the aggregate, all runs of a flow, where flows leave their schedule, shared and missing flow ids, what the journal tells of a flow's data, insertion orders |
| `Reachability.dfy`, `PetriSchema.dfy`, `PetriTokens.dfy`, `PetriOrder.dfy` | worklist searches, schema validation, the token game, what each of its operations leaves |
| `Effects.dfy`, `AggregateTestkit.dfy`, `EntityEffects.dfy`, `EntitySnapshots.dfy` | the effect algebra, the test kit, what effects do to an entity, its snapshots and side effects |
| `Aggregates.dfy`, `InMemJournal.dfy`, `EntityRunner.dfy`, `EntityRuns.dfy`, `InMemRuntime.dfy` | abstract aggregates and codecs, journal, runner, all incarnations of an entity, runtime |
| `Projections.dfy` | projection store, batch and tailing runs |
| `SqliteJournal.dfy`, `TextOrder.dfy`, `InMemTail.dfy` | keyset pages, the rowid tail, the in-memory tail |
| `Csv.dfy`, `CsvLines.dfy`, `Windows.dfy`, `Sagas.dfy`, `CallSlot.dfy`, `Ulids.dfy`, `CircuitBreakers.dfy`, `Detectors.dfy` | the smaller cores |
| `Prelude.dfy` | shapes shared by all |

Conventions. Ids that the code only compares are natural numbers; composite `a:b` keys are pairs; where the order of
strings matters (SQLite keys, ULIDs) they are strings. A thrown error is an option, a result datatype or a `crashed`
flag. A `crashed` result of the runner stands for a throw as well as for the death of the process between two
statements. Clock readings, drawn randomness and what `decide`, `apply`, `evolve` and step handlers return are
parameters.

Where the code departs from what one would expect, the project keeps the code and proves when it does meet the
expectation:

- the path that `compile` reports as a cycle may have a lead-in before the cycle (`NodeFlowDef.LeadInIsReported`,
  `NodeFlowDef.ReportedCycle`, `NodeFlowDef.CycleIsReportedWhen`); its "no root nodes" error can never occur
  (`NodeFlowDef.Compile`);
- a node failure skipped by policy and a user's answer mark success without firing dependents or announcing completion
  (`NodeFlowDepartures.IntactAfterIff`, `NodeFlowDepartures.StallsIff`, `NodeFlowDepartures.SkipStalls`,
  `NodeFlowDepartures.SkipIsNotAnnounced`); a restart keeps old statuses, executors and the cached definition
  (`NodeFlowDepartures.RestartKeepsIff`, `NodeFlowDepartures.RestartDoubles`); a definition with another plan that another
  entity registers under the same id decides what starts next (`NodeFlowIds.RegistrationKeepsIff`,
  `NodeFlowIds.TakeoverBreaksIff`, `NodeFlowIds.TakeoverStartsEarly`); a flow started under the empty id is acknowledged
  and has every report refused, so that its roots run for good (`NodeFlowIds.NameDecides`, `NodeFlowIds.NamelessNeverMoves`, `NodeFlowIds.NamelessRun`);
- a Petri transition whose retries are exhausted is offered again at once (`PetriTokens.RetryIsOfferedIff`);
- an ask whose decision ends in Stop, or in Stash behind other effects, is never answered
  (`EntityEffects.LosesAskIff`, `EntityEffects.StashedAskLostIff`, `EntityEffects.StopLosesAsk`); a terminated runner answers
  queued asks but not stashed ones (`EntityEffects.TerminatedClaims`, `EntityEffects.TerminationLeavesStashed`);
- a runtime shutdown clears its map even of runners created meanwhile (`InMemRuntime.ClearKeepsIff`,
  `InMemRuntime.ClearThenCreateDoubles`, `InMemRuntime.ShutdownDoubles`);
- an explicit offset rewind folds events twice (`Projections.RewindKeepsIff`, `Projections.RewindFoldsTwice`); the SQLite
  projection store clears in two statements (`Projections.HalfClearedKeepsIff`, `Projections.HalfClearedStaysEmpty`);
  two projection sources of one category share offsets (`Projections.SameCategoryAddsNothing`);
- the comment on the in-memory tail speaks of an overlap between backlog and live events that a filter absorbs; the
  backlog is copied in one go, so there is no overlap and the filter never drops anything for contiguous writes
  (`InMemTail.FilterNeverFires`), while it does lose an event written out of order (`InMemTail.LostIff`,
  `InMemTail.LostOutOfOrder`);
- CSV fields come back trimmed (`Csv.RoundTripIff`), and empty single-column rows vanish (`Csv.SingleColumnKeepsIff`,
  `Csv.EmptyRowVanishes`);
- lengthening an event window takes effect at the next read only for what no write has dropped
  (`Windows.WindowTakesEffectIff`, `Windows.LongerMayComeTooLate`);
- a ULID is smaller than its predecessor when the random part wraps (`Ulids.GreaterIff`, `Ulids.WrapIsSmaller`);
- a saga step that succeeded and could not be recorded is compensated and executed again by the entity's next event
  (`Sagas.StepsExactlyOnce`, `Sagas.UnrecordedRepeats`);
- half-open trial calls of the circuit breaker can overlap beyond the limit, and an older call's late success can close it
  (`CircuitBreakers.TrialsKeepLimitIff`, `CircuitBreakers.DecidedByTrialsIff`, `CircuitBreakers.TrialsCanOverlap`,
  `CircuitBreakers.LateSuccessCloses`).

## Model

| member | source | states |
|---|---|---|
| `NodeFlowDef.Compile` | src/ai/node-flow/def.ts:36-82 | A definition is accepted exactly when all edge ends are known and no directed cycle exists (self-loops included); the result is the one compiled form, with a finishing order as witness; a rejection names the first edge with an unknown end or the one path there is to report, and "no root nodes" is never the answer |
| `NodeFlowDef.CycleSearch.Visit` | src/ai/node-flow/def.ts:56-67 | The recursive visit ends because white nodes decrease; it finishes the node after everything it leads to, or returns the distinct stack continued, always by the first dependent that leads into a cycle, until a node repeats |
| `NodeFlowDef.CycleSearch.VisitDependents` | src/ai/node-flow/def.ts:65-65 | Visiting the dependents finishes all of them, keeps what is finished, and keeps the grey nodes equal to the stack |
| `NodeFlowDef.SearchCycles` | src/ai/node-flow/def.ts:51-68 | Visiting every white node yields either the path to report or an order in which every edge points back |
| `NodeFlowDef.LinkNodes` | src/ai/node-flow/def.ts:37-49 | Both maps hold exactly the sources and targets of each node, unless some edge end is unknown, and then the first such edge is reported |
| `NodeFlowDef.EndNodes` | src/ai/node-flow/def.ts:70-75 | Roots and terminals are exactly the nodes with empty dependency and dependent sets, in node order |
| `NodeFlowDef.AcyclicHasFinishOrder` | src/ai/node-flow/def.ts:50-68 | Every acyclic graph over known nodes has an order in which every edge points back |
| `NodeFlowDef.FinishOrderIsAcyclic` | src/ai/node-flow/def.ts:50-68 | Such an order excludes directed cycles |
| `NodeFlowDef.TraceIsUnique` | src/ai/node-flow/def.ts:56-68 | There is one path to report: it starts at the first node, in definition order, that leads into a cycle, goes on to the first such dependent each time, and ends where a node repeats |
| `NodeFlowDef.RejectionIsDetermined` | src/ai/node-flow/def.ts:45-68 | The definition determines the error |
| `NodeFlowDef.ReportedCycle` | src/ai/node-flow/def.ts:57-62 | From exactly one position on the reported path is a cycle, a simple one; the path itself is a cycle exactly when it returns to its own start |
| `NodeFlowDef.CycleIsReportedWhen` | src/ai/node-flow/def.ts:57-62 | The path is a cycle when every cycle that can be reached from its start goes through the start, and only when the start lies on a cycle |
| `NodeFlowDef.LeadInIsReported` | src/ai/node-flow/def.ts:57-62 | For the edges 0 to 1 and 1 to 1 the reported path is 0, 1, 1, which is no cycle |
| `NodeFlowDef.LastFinishedIsRoot` | src/ai/node-flow/def.ts:77-79 | A non-empty acyclic graph has a root, so the "no root nodes" error cannot occur |
| `NodeFlowAggregate.NodeFlowAggregate.GetCompiled` | src/ai/node-flow/aggregate.ts:82-90 | The compiled form of the state's definition is found exactly when it is cached, or the registry knows the state's id, the id is not empty and the definition compiles; it is then cached, and a definition that does not compile throws its error |
| `NodeFlowAggregate.NodeFlowAggregate.NodesReadyToRun` | src/ai/node-flow/aggregate.ts:92-107 | The nested loops return the specified list of ready nodes, in the order of the dependency map |
| `NodeFlowAggregate.ReadyNodesHold` | src/ai/node-flow/aggregate.ts:92-107 | A node is ready exactly when it is pending and all its dependencies have completed; none is listed twice |
| `NodeFlowAggregate.NodeFlowAggregate.FireNodes` | src/ai/node-flow/aggregate.ts:109-139 | Firing appends one start event per node in order and schedules exactly these executors |
| `NodeFlowAggregate.NodeFlowAggregate.DecideCompleted` | src/ai/node-flow/aggregate.ts:199-233 | A success report persists the success, the starts of all nodes that became ready, and, when every terminal is done, the completion with the context reached |
| `NodeFlowAggregate.NodeFlowAggregate.DecideStart` | src/ai/node-flow/aggregate.ts:154-197 | With any registry: a start is refused while a flow runs, throws for a definition that does not compile, and otherwise starts all roots; only a compiled definition enters the registry |
| `NodeFlowAggregate.NodeFlowAggregate.Decide` | src/ai/node-flow/aggregate.ts:152-286 | Every command is decided as specified, whatever registry was handed in; registry and cache change as specified, and what is added to either compiles |
| `NodeFlowAggregate.ApplyEventsConcat` | src/ai/node-flow/aggregate.ts:296-300 | Applying two batches of events is applying their concatenation |
| `NodeFlowRuns.StepKeeps` | src/ai/node-flow/aggregate.ts:152-344 | Every command keeps the scheduler's invariant of a flow with a name: pending exactly while a dependency is missing, counter, journal and executors in step |
| `NodeFlowRuns.RunKeeps` | src/ai/node-flow/aggregate.ts:152-344 | The invariant holds in every state of every run of a flow with a name |
| `NodeFlowRuns.StartsOnceAfterDependencies` | src/ai/node-flow/aggregate.ts:92-233 | In every run of a flow with a name a node starts at most once, and only after each of its dependencies has succeeded |
| `NodeFlowRuns.ActiveCountIsExact` | src/ai/node-flow/aggregate.ts:302-344 | In every such run the active-node count is the number of running nodes, which are exactly the executors that have not reported |
| `NodeFlowRuns.TerminalsDecide` | src/ai/node-flow/aggregate.ts:219-229 | Completed terminals mean that every node is completed |
| `NodeFlowRuns.AnnouncedExactlyWhenDone` | src/ai/node-flow/aggregate.ts:199-233 | In every such run the completion is announced once, exactly when all nodes of a non-empty flow are completed |
| `NodeFlowRuns.NoDeadlock` | src/ai/node-flow/aggregate.ts:92-255 | When nothing runs in a started flow with a name, every node is completed or lies behind a failed one; without failures the flow is complete |
| `NodeFlowRuns.ReportsAreConserved` | src/ai/node-flow/aggregate.ts:199-255 | Each report to a flow with a name settles one node for good: reports delivered plus unsettled nodes equal the number of nodes, so runs are finite |
| `NodeFlowDepartures.IntactAfterIff` | src/ai/node-flow/aggregate.ts:199-270 | With skipped failures and users' answers: a step leaves no ready node passed over and nothing done unannounced exactly when it is a completion report, which rescans all nodes, or all was so before and it is not a silent success of the last node or of one that some pending node waits for alone |
| `NodeFlowDepartures.SilentRunsStayOrderly` | src/ai/node-flow/aggregate.ts:152-344 | In every run with silent successes of a flow with a name a node still starts at most once and after its dependencies, the active-node count is exact, and completion is announced at most once and never early |
| `NodeFlowDepartures.IdleStays` | src/ai/node-flow/aggregate.ts:152-344 | With nothing running a started flow with a name never moves again, intact or stalled |
| `NodeFlowDepartures.StallsIff` | src/ai/node-flow/aggregate.ts:199-270 | A flow with a name whose last running node has reported stands still for good, and it stands intact exactly when that report left it intact |
| `NodeFlowDepartures.SkipStalls` | src/ai/node-flow/aggregate.ts:241-248 | A run of a two-node flow whose first node is skipped: nothing runs, the second node stays pending |
| `NodeFlowDepartures.SkipIsNotAnnounced` | src/ai/node-flow/aggregate.ts:241-248 | A run of a one-node flow whose node is skipped: everything is completed, nothing runs, and completion is never announced |
| `NodeFlowDepartures.RestartKeepsIff` | src/ai/node-flow/aggregate.ts:154-197 | A start of an idle, completed or failed entity re-establishes the invariant, with executors and the journal since, exactly when no executor is left, old statuses belong to settled roots only, and reports will find this plan: the cached definition has the same nodes, edges and skipped nodes, or nothing is cached and the flow has a name; each root gets one more executor |
| `NodeFlowDepartures.RestartedRunKeeps` | src/ai/node-flow/aggregate.ts:152-344 | After such a restart the invariant holds in all later states, read since the restart |
| `NodeFlowDepartures.RestartDoubles` | src/ai/node-flow/aggregate.ts:154-197 | A run: one of two roots fails while the other runs, and after a restart the other has two executors |
| `NodeFlowIds.RegistrationKeepsIff` | src/ai/node-flow/aggregate.ts:82-90 | The invariant of a running flow survives a definition registered under its id exactly when that has the same nodes, edges and skipped nodes, or a compiled form is cached |
| `NodeFlowIds.TakeoverBreaksIff` | src/ai/node-flow/aggregate.ts:82-229 | After a takeover with nothing cached the next success starts exactly what waits for it alone by the other plan; all starts then still follow their dependencies exactly when each such node has no other open dependency in its own flow; completion is announced exactly when the other plan's terminals are done |
| `NodeFlowIds.TakeoverStartsEarly` | src/ai/node-flow/aggregate.ts:82-214 | A run: nodes 0 and 1 lead to node 2, an edgeless definition is registered under the same id, node 0 completes, and node 2 starts while node 1 runs |
| `NodeFlowIds.NamelessIsRefused` | src/ai/node-flow/aggregate.ts:82-84 | A report to a flow started under the empty id is answered "no flow running" and changes nothing |
| `NodeFlowIds.NamelessNeverMoves` | src/ai/node-flow/aggregate.ts:82-255 | In every run of a flow with the empty id, once started: the roots stay running whatever is reported, nothing else starts, nothing is cached, and no completion is announced |
| `NodeFlowIds.NamelessRun` | src/ai/node-flow/aggregate.ts:82-255 | For every such flow with a node, a run in which a root reports success and stays running without an executor |
| `NodeFlowIds.NameDecides` | src/ai/node-flow/aggregate.ts:82-90 | For a non-empty flow that compiles, executors and counter are exact in every state of every run exactly when the flow has a name |
| `NodeFlowData.JournalTellsState` | src/ai/node-flow/aggregate.ts:302-344 | Whatever commands come, restarts and takeovers included, the journal tells the state: each context key holds what the last start or object output with that key gave it, each output, node status and waiting mark what the last event about it said, status and flow id what the last event about them said; every announced completion carries the context of its time |
| `NodeFlowData.RunTellsState` | src/ai/node-flow/aggregate.ts:152-344 | So in every state of every run of a flow |
| `NodeFlowData.RunIsHistory` | src/ai/node-flow/aggregate.ts:152-344 | Runs with skipped failures and users' answers are such histories too |
| `NodeFlowData.DecisionAnnounces` | src/ai/node-flow/aggregate.ts:214-229 | A completion that is decided announces the context reached by the events before it |
| `NodeFlowData.StartGives` | src/ai/node-flow/aggregate.ts:154-197 | An accepted start tells the definition's context with the command's keys over it, starts each node without a dependency once and nothing else, and acknowledges the flow |
| `NodeFlowData.StartRefusedIff` | src/ai/node-flow/aggregate.ts:154-160 | A start is refused exactly while the flow runs or waits for input, and then changes nothing; it throws only for a definition that does not compile |
| `NodeFlowOrder.EndsInOrder` | src/ai/node-flow/def.ts:70-75 | Roots and terminals come in the order of the nodes |
| `NodeFlowOrder.ReadyInOrder` | src/ai/node-flow/aggregate.ts:92-107 | Ready nodes come in the order of the nodes |
| `NodeFlowOrder.NeighboursInOrder` | src/ai/node-flow/def.ts:37-49 | Dependencies and dependents of a node come in the order of their first edge |
| `Reachability.Explore` | src/petrinet/flow-schema.ts:175-190 | The worklist loop terminates with exactly the ids reachable from the start |
| `Reachability.ExploreBoth` | src/petrinet/flow-schema.ts:209-255 | The search through places and transitions marks exactly the reachable places and the transitions that leave them |
| `PetriSchema.CheckDuplicates` | src/petrinet/flow-schema.ts:72-78 | Duplicate ids are reported exactly when two definitions share one |
| `PetriSchema.CheckReferences` | src/petrinet/flow-schema.ts:80-94 | Exactly the sources and destinations that no place defines are reported |
| `PetriSchema.CheckCompatibility` | src/petrinet/flow-schema.ts:96-112 | Exactly the consumed and produced tags that their place does not accept are reported |
| `PetriSchema.CheckUsed` | src/petrinet/flow-schema.ts:114-126 | Exactly the places no transition touches are reported |
| `PetriSchema.CheckComplete` | src/petrinet/flow-schema.ts:128-133 | Exactly the transitions that consume or produce nothing are reported |
| `PetriSchema.CheckEnds` | src/petrinet/flow-schema.ts:135-147 | Missing or multiple inbound places and missing outbound places are reported exactly when so |
| `PetriSchema.CheckInboundTags` | src/petrinet/flow-schema.ts:149-162 | Exactly the tags an inbound place accepts that other places' transitions produce are reported |
| `PetriSchema.CheckConnected` | src/petrinet/flow-schema.ts:164-190 | Disconnection is reported exactly when some touched place is not linked to the first transition's source |
| `PetriSchema.SearchForward` | src/petrinet/flow-schema.ts:194-225 | The forward search finds exactly the places and transitions reachable from the inbound place |
| `PetriSchema.SearchBackward` | src/petrinet/flow-schema.ts:195-255 | The backward search finds exactly the places and transitions from which an outbound place can be reached |
| `PetriSchema.CheckPaths` | src/petrinet/flow-schema.ts:192-268 | Exactly the places and transitions that miss one of the two searches are reported |
| `PetriSchema.CheckGaps` | src/petrinet/flow-schema.ts:270-288 | Exactly the tags a non-inbound place accepts that no transition sends there are reported |
| `PetriSchema.Validate` | src/petrinet/flow-schema.ts:67-291 | The reported errors are exactly those that hold, and there are none exactly for the declaratively well-formed schemas |
| `PetriSchema.NoErrorsMeansWellFormed` | src/petrinet/flow-schema.ts:67-291 | No reportable error holds exactly when ids are distinct, tokens fit, there is one inbound and some outbound place, everything lies on a path between them, and there are no gaps |
| `PetriSchema.OnPathsIsConnected` | src/petrinet/flow-schema.ts:164-268 | The directed check implies the undirected connectivity check |
| `PetriSchema.OnPathIsUsed` | src/petrinet/flow-schema.ts:114-126 | The directed check implies that a place is used |
| `PetriTokens.CompileSchema` | src/petrinet/flow-schema.ts:36-53 | A net is returned exactly for well-formed schemas, otherwise the errors that hold; it has every place of the schema under its id with its tags and kind and no token, every transition with its source, consumed tags and destinations, not started and without attempts, nothing else, and the limits passed in |
| `PetriTokens.ValidNetIsLegal` | src/petrinet/flow-schema.ts:36-53 | A compiled net is legal: every transition has a source place, and every tag is accepted where it is routed |
| `PetriTokens.NetStartsEmpty` | src/petrinet/types.ts:83-100 | A compiled net holds no token |
| `PetriTokens.Consume` | src/petrinet/executable-flow.ts:161-169 | Whatever the order of the required tags, the same tokens remain and the same are taken |
| `PetriTokens.TakenAndRemaining` | src/petrinet/executable-flow.ts:161-169 | Taken and remaining tokens together are the tokens of the place |
| `PetriTokens.TransitionsReady` | src/petrinet/executable-flow.ts:126-147 | The loop returns the specified list of ready transitions with their places' tokens, in map order |
| `PetriTokens.ReadyHolds` | src/petrinet/executable-flow.ts:126-147 | A transition is offered exactly when it is not ongoing, its retry is due, and its place holds every tag it consumes |
| `PetriTokens.RecordTransitionStart` | src/petrinet/executable-flow.ts:150-178 | A start moves the taken tokens into the transition; an unknown transition or place changes nothing |
| `PetriTokens.RecordTransitionCompletion` | src/petrinet/executable-flow.ts:181-211 | The nested loops add the results one by one as specified and close the transition |
| `PetriTokens.RecordTransitionFailure` | src/petrinet/executable-flow.ts:214-250 | A failure gives back what was taken and schedules a retry or gives up, as specified |
| `PetriTokens.Fibonacci` | src/petrinet/executable-flow.ts:13-21 | The loop computes the recursive Fibonacci numbers |
| `PetriTokens.DelaysRecur` | src/petrinet/executable-flow.ts:235-240 | The first two retry delays are the base, each later one is the sum of the two before it |
| `PetriTokens.StartTakesOnePerTag` | src/petrinet/executable-flow.ts:150-178 | Starting a ready transition takes exactly one token of each required tag and none of any other |
| `PetriTokens.StartTakesFromItsPlace` | src/petrinet/executable-flow.ts:150-178 | What was taken and what is left make up the place; no other place changes |
| `PetriTokens.StartThenFailureRestores` | src/petrinet/executable-flow.ts:150-250 | A start followed by a failure leaves every place with the tokens it had |
| `PetriTokens.HeldUntilSettled` | src/petrinet/executable-flow.ts:103-250 | In every run a transition holds what it took until it completes or fails itself |
| `PetriTokens.FailureReturnsWhatStartTook` | src/petrinet/executable-flow.ts:213-250 | However many steps lie between, a failure returns to its place exactly what its start took, and changes no other place |
| `PetriTokens.PlacesHoldAcceptedTags` | src/petrinet/executable-flow.ts:102-250 | In every run every place holds only tags it accepts |
| `PetriTokens.NetNeverChanges` | src/petrinet/executable-flow.ts:102-250 | In every run accepted tags, sources, consumed tags, destinations and limits stay as they were |
| `PetriTokens.TokensAreConserved` | src/petrinet/executable-flow.ts:102-250 | In every run, for each token: in places plus held by ongoing transitions plus used up by completions equals initial plus added plus produced |
| `PetriTokens.RetryIsOfferedIff` | src/petrinet/executable-flow.ts:126-250 | However many steps lie between a start and its failure, the transition is then offered exactly when its attempts are exhausted or its backoff has passed; only one that consumes nothing may have lost the last token of its place |
| `PetriTokens.CompletedIsOfferedIff` | src/petrinet/executable-flow.ts:126-211 | After a completion only the tokens of its place decide whether the transition is offered |
| `PetriOrder.TakesEarliest` | src/petrinet/executable-flow.ts:160-167 | A start takes exactly the earliest token of each required tag; what remains keeps its order |
| `PetriOrder.AddIs` | src/petrinet/executable-flow.ts:99-107 | An accepted token is put at the end of its place with the span given, and counted; any other changes nothing |
| `PetriOrder.ResultsArrive` | src/petrinet/executable-flow.ts:184-189 | Each place gets exactly the results sent to it that it accepts, at its end and in order; each is counted, and nothing else changes |
| `PetriOrder.ProducedInOrder` | src/petrinet/executable-flow.ts:191-195 | What is recorded as produced are all results, one place after another |
| `PetriOrder.CompletionIs` | src/petrinet/executable-flow.ts:176-206 | A completion delivers its results, closes the transition with attempts and retry time reset, keeps what it consumed on record, and is counted once more |
| `PetriOrder.StartIs` | src/petrinet/executable-flow.ts:149-174 | A start leaves the other tokens of its place in order, holds what it takes, and changes no other place or transition |
| `PetriOrder.FailureIs` | src/petrinet/executable-flow.ts:208-254 | A failure returns what is held to the end of its place and counts an attempt; below the limit the transition waits for its delay, at the limit it has failed; nothing else changes |
| `Effects.AppendAssociates` | src/core/effect.ts:56-74 | Appending to chains is associative |
| `Effects.DoneIsNeutral` | src/core/effect.ts:56-74 | Done is neutral on both sides |
| `Effects.AbsorbsIff` | src/core/effect.ts:56-74 | A chain ignores everything appended exactly when it ends in a reply, stop or stash |
| `Effects.AppendedEvents` | src/core/effect.ts:56-139 | Events and replies of an appended chain are those of both parts, the second only if the first lets it through |
| `Effects.ReplyIsLast` | src/core/effect.ts:111-124 | A chain has a reply exactly when it ends in one |
| `AggregateTestkit.Walker.Walk` | src/testing/aggregate-testkit.ts:49-82 | The walk adds to its record what the specification says |
| `AggregateTestkit.WalkTells` | src/testing/aggregate-testkit.ts:37-86 | The record lists the extracted events and side effects in order, whether a snapshot or a replay is asked for, and how the chain ends |
| `AggregateTestkit.RunAndApply` | src/testing/aggregate-testkit.ts:167-173 | The result lists the decided events and how the decision ends; the new state is the old one with these events applied, so whatever history led to the old state, continued by them it leads to the new one |
| `AggregateTestkit.ScriptsAgree` | src/testing/aggregate-testkit.ts:153-174 | Where no decision stashes or unstashes, a whole script of commands persists in the runner exactly the events the kit reports |
| `AggregateTestkit.RunnerAgreesWithKit` | src/testing/aggregate-testkit.ts:37-173 | For chains without stash and unstash the runner persists, replies and stops as the kit reports, and reaches the state the kit returns |
| `EntityEffects.PlainExecutes` | src/inmem/entity-runner.ts:238-354 | Without stash and unstash a chain persists exactly its extracted events and ends once |
| `EntityEffects.PlainAnswers` | src/inmem/entity-runner.ts:294-354 | Such a chain answers its own ask and no other, with the value or nothing and the number of events there are then; a deferred reply remembers that number; Stop only stops |
| `EntityEffects.ProcessKeepsOrder` | src/inmem/entity-runner.ts:334-408 | What stays stashed after a command is what was stashed, in order and with its own reply handles, less what was replayed, plus at most the command at the end |
| `EntityEffects.ExecuteKeepsOrder` | src/inmem/entity-runner.ts:338-348 | Replays, nested ones included, keep the stash a subsequence of what it was |
| `EntityEffects.ProcessClaims` | src/inmem/entity-runner.ts:238-408 | Answers given plus places that may still answer grow by no ask but the command's own; when decisions always answer, they grow by exactly that |
| `EntityEffects.LosesAskIff` | src/inmem/entity-runner.ts:330-408 | Whatever else is stashed and replayed, an ask is lost exactly when its chain ends in Stop, or in Stash behind other effects |
| `EntityEffects.StopLosesAsk` | src/inmem/entity-runner.ts:330-333 | A run: an ask is decided with Stop, the runner stops, and nothing is left that could answer |
| `EntityEffects.StashedAskLostIff` | src/inmem/entity-runner.ts:338-348 | A replay loses a stashed ask exactly when its decision, at the state the entries before it have led to, loses it; unless it is stashed anew the rest of the replay leaves it alone |
| `EntityEffects.DeliveryBreaksClaims` | src/inmem/entity-runner.ts:395-469 | Wherever handling a message breaks off, in the middle of a replay too, no ask gains an answer or a place that may still answer, the failed asker's included |
| `EntityEffects.CrashTellsAsker` | src/inmem/entity-runner.ts:445-460 | When a delivery breaks off, the asker's failure is the last answer given |
| `EntityEffects.ResolvedClaims` | src/inmem/entity-runner.ts:301-323 | Of a deferred reply and its timeout only the first answers |
| `EntityEffects.ResolvedOnce` | src/inmem/entity-runner.ts:301-323 | The first completion of a deferred ask answers with its value and the remembered number, or the timeout does; whatever comes second changes nothing |
| `EntityEffects.TerminatedClaims` | src/inmem/entity-runner.ts:417-429 | Terminating answers every queued ask once; only stashed asks and open deferred replies stay open |
| `EntityEffects.TerminationLeavesStashed` | src/inmem/entity-runner.ts:395-429 | A run: of a stashed and a queued ask, termination fails the queued one and leaves the other open |
| `EntityEffects.AnsweredAtMostOnce` | src/inmem/entity-runner.ts:238-469 | Over every run of offers, deliveries, deliveries that break off anywhere, deaths of the process, recoveries, terminations and late completions an ask is answered at most as often as it was offered; without losses and with answering decisions every ask is accounted for |
| `EntitySnapshots.SnapshotIsStored` | src/inmem/entity-runner.ts:324-328 | A Snapshot effect anywhere in a chain stores a snapshot at the number of events there are then, replays included, and it stays the last one unless the rest of the chain stores another |
| `EntitySnapshots.BatchSnapshotsIff` | src/inmem/entity-runner.ts:263-277 | A batch is followed by a snapshot at its end exactly when it brings the events since the last one to the limit |
| `EntitySnapshots.NoSnapshotBelowLimit` | src/inmem/entity-runner.ts:263-277 | A chain without a Snapshot effect that stays below the limit stores none |
| `EntitySnapshots.SnapshotsKeepUp` | src/inmem/entity-runner.ts:238-391 | In every run, through stashing, replays, crashes and recoveries, fewer events than the limit lie behind the last snapshot of an incarnation, or behind its recovery |
| `EntitySnapshots.PlainPerforms` | src/inmem/entity-runner.ts:289-293 | A chain without stash and unstash runs exactly its side effects, in order |
| `EntitySnapshots.RunsInTurn` | src/inmem/entity-runner.ts:289-293 | A side effect runs when everything before it in the chain is done, its events persisted |
| `InMemJournal.Journal.PersistEvents` | src/inmem/journal.ts:70-107 | A batch is appended whole with consecutive numbers of its entity, or a collision changes nothing; every entry of the journal keeps a global number of its own, ascending within each entity |
| `InMemJournal.Journal.LoadEvents` | src/inmem/journal.ts:109-123 | From a gapless log exactly the events above the number, in order with their numbers; nothing exactly when some entry above it does not decode |
| `InMemJournal.Journal.LoadSnapshot` | src/inmem/journal.ts:140-156 | The decoded snapshot with its number, none when there is none, and a report when it does not decode |
| `InMemJournal.CollidesIffStale` | src/inmem/journal.ts:91-97 | In a gapless log a write from a point of the past collides exactly when it is not at the end |
| `InMemJournal.StoredDecodes` | src/inmem/journal.ts:83-123 | With a lawful codec, what is stored decodes to the events written |
| `InMemJournal.AfterIsSuffix` | src/inmem/journal.ts:117-118 | In a gapless log the entries above a number are the tail of the log |
| `Aggregates.ReplayApplies` | src/inmem/entity-runner.ts:264-267 | Replaying applies every event, one after another, to what the earlier ones have led to, from the initial state on |
| `EntityRunner.Runner.WriteStep` | src/inmem/entity-runner.ts:254-262 | A non-empty batch is accepted exactly from an incarnation that has seen the whole history; it is appended with the next numbers or nothing changes, and the journal stays gapless and decodable and the snapshot sound |
| `EntityRunner.Runner.FoldStep` | src/inmem/entity-runner.ts:263-277 | The incarnation moves past the written batch, and stores its own snapshot, the fold at its number, exactly when one is due |
| `EntityRunner.Runner.PersistStep` | src/inmem/entity-runner.ts:243-277 | Without a crash the batch is in the history and in the state, with a snapshot when due; with one, the incarnation still stands for a prefix of the history |
| `EntityRunner.Runner.SnapshotStep` | src/inmem/entity-runner.ts:273-327 | The stored snapshot is the fold at its own number, encoded, and other entities' stay |
| `EntityRunner.Runner.ExecuteEffect` | src/inmem/entity-runner.ts:238-354 | Interpreting ends, keeps the step-boundary invariant wherever it crashes, ends exactly as specified without a crash, snapshots and side effects included, and after a prefix of that work with one; the journal's snapshot is the encoded fold at the last number stored, or the old one when none was; a stale incarnation writes nothing |
| `EntityRunner.Runner.ReplayStash` | src/inmem/entity-runner.ts:338-348 | Unstashing empties the stash and processes its entries in order with their own handles; it ends, and a crash leaves it after a prefix of that work |
| `EntityRunner.Runner.ProcessCommand` | src/inmem/entity-runner.ts:395-408 | One command as specified, with the same guarantees on snapshots and under crashes |
| `EntityRunner.Runner.Recover` | src/inmem/entity-runner.ts:358-391 | From any sound journal, with the snapshot, without it, ignoring it or failing to decode it, recovery yields the fold of the whole history at its number |
| `EntityRunner.Runner.Handle` | src/inmem/entity-runner.ts:445-460 | A crash leaves a prefix of the command's work, and the asker then learns of the failure |
| `EntityRunner.Runner.Deliver` | src/inmem/entity-runner.ts:438-469 | One turn of the message loop: as specified without a crash, a delivery broken off with one; snapshots as above |
| `EntityRunner.Runner.Resolve` | src/inmem/entity-runner.ts:301-323 | Completion or timeout answers as specified, with the number remembered, the later of the two does nothing |
| `EntityRunner.Runner.Terminate` | src/inmem/entity-runner.ts:417-429 | Every queued ask is failed and the mailbox is empty |
| `EntityRunner.ReplayFromPrefix` | src/inmem/entity-runner.ts:375-383 | Replaying what follows any prefix of the history gives the fold of the history |
| `EntityRunner.RivalsHold` | src/inmem/entity-runner.ts:243-277 | Whatever another incarnation over the same journal writes or snapshots, this one still stands for the prefix it has seen, and is stale as soon as the other has written |
| `EntityRuns.AllHold` | src/inmem/entity-runner.ts:238-391 | Over every interleaving of writes, folds, snapshots, crashes at any point and recoveries of any number of incarnations: each one's state is the fold of what it has seen, the snapshot is the fold at its own number, and the history is the accepted batches one after another, so no position has two writers |
| `EntityRuns.WriterIsCurrent` | src/inmem/entity-runner.ts:243-277 | An accepted write was decided on the fold of the whole history, and leaves every other incarnation stale |
| `EntityRuns.StaleForever` | src/inmem/journal.ts:91-97 | A stale incarnation stays stale and has no write accepted ever again |
| `EntityRuns.OneIncarnationWrites` | src/inmem/entity-runner.ts:243-277 | After one incarnation's write is accepted, another's can be only if that one has recovered since |
| `EntityRuns.RecoveryIsLive` | src/inmem/entity-runner.ts:358-391 | At any point of any run recovery yields the fold of the whole history, the state of every incarnation that has seen everything |
| `EntityRuns.WriteIsMove` | src/inmem/entity-runner.ts:254-262 | The runner's write, accepted or not, is a write of the machine of all incarnations |
| `EntityRuns.FoldIsMove` | src/inmem/entity-runner.ts:263-277 | The runner's fold is a fold of the machine, followed by a snapshot when one is due |
| `EntityRuns.SnapshotIsMove` | src/inmem/entity-runner.ts:325-327 | The runner's snapshot is a snapshot of the machine |
| `EntityRuns.RecoverIsMove` | src/inmem/entity-runner.ts:358-391 | What the runner's recovery ends with is the incarnation that the machine's recovery adds |
| `InMemRuntime.Module.GetOrCreate` | src/inmem/runtime.ts:65-90 | The runner returned is live and of the entity, a live one is never replaced, and each entity has at most one live runner |
| `InMemRuntime.Module.OnTerminate` | src/inmem/runtime.ts:82-84 | An ended runner's map entry goes, another's stays, whether or not the map still knows the runner; every other runner is as alive as before, and the map keeps all live ones |
| `InMemRuntime.ClearKeepsIff` | src/inmem/runtime.ts:122-132 | Clearing after a shutdown keeps all live runners in the map exactly when none is left |
| `InMemRuntime.StepKeepsIff` | src/inmem/runtime.ts:65-132 | Of commands, terminations, shutdowns and their clearing, only the clearing can lose a live runner, and it loses none exactly when none is live; a live one was created while the shutdown waited |
| `InMemRuntime.OneLiveInRuns` | src/inmem/runtime.ts:65-132 | In every run in which no shutdown clears the map under a live runner, each entity has at most one live runner in every state |
| `InMemRuntime.ClearThenCreateDoubles` | src/inmem/runtime.ts:65-132 | The first time one does, the runner was created during the wait, and the next command for its entity gives it a second live incarnation |
| `InMemRuntime.ShutdownDoubles` | src/inmem/runtime.ts:122-132 | Such a run: one entity, one shutdown, and a command that arrives while it waits |
| `Projections.ProjectionStore.Put` | src/projection/index.ts:222-227 | A write at or below the stored number is ignored, a later one replaces the view |
| `Projections.ProjectionStore.PutWithOffset` | src/projection/index.ts:228-247 | A number at or below the offset changes nothing; a later one becomes the offset and replaces the view, which keeps the higher of the two numbers; no other view or offset changes |
| `Projections.ProjectionStore.Clear` | src/projection/index.ts:262-270 | No row of the projection is left, and every view and offset of other projections is there, unchanged |
| `Projections.ProjectionStore.OffsetGuardedFold` | src/projection/index.ts:303-330 | An event is applied exactly when its number is above its source's offset |
| `Projections.GuardedTouches` | src/projection/index.ts:303-330 | A fold touches only the record's view and its source's offset, which becomes the larger number |
| `Projections.ProjectionStore.RunProjection` | src/projection/index.ts:339-362 | The loop delivers all records in order |
| `Projections.ProjectionStore.RunMultiStreamProjection` | src/projection/index.ts:370-395 | The nested loops deliver all records of all sources in order |
| `Projections.ProjectionStore.RebuildProjection` | src/projection/index.ts:400-408 | A rebuild clears the projection and delivers everything again, and leaves every row of other projections alone |
| `Projections.ProjectionStore.RebuildMultiStreamProjection` | src/projection/index.ts:413-424 | So does the rebuild over several sources |
| `Projections.DeliveryKeeps` | src/projection/index.ts:303-330 | A delivery at most one past the offset keeps every view the fold of its entity's events up to the offset |
| `Projections.PassCompletes` | src/projection/index.ts:339-362 | A batch pass leaves every view at its entity's full history, whatever was folded before |
| `Projections.RebuildIsExact` | src/projection/index.ts:400-408 | A rebuild yields every view's full fold from any store content |
| `Projections.ViewsFoldHistories` | src/projection/tailing.ts:39-77 | Over every run of appends, passes, tails with re-reads, crashes and rebuilds, each single-stream view is the fold of exactly its entity's events up to its offset |
| `Projections.TailCatchesUp` | src/projection/tailing.ts:39-77 | From every reachable state a tail that delivers what is left of an entity brings its view to the full history |
| `Projections.RewindKeepsIff` | src/projection/index.ts:259-261 | Setting an offset keeps views and offsets in step exactly when it changes nothing |
| `Projections.RewindFoldsTwice` | src/projection/index.ts:259-261 | A run with one event: rewound to 0, the next delivery folds it into the view a second time |
| `Projections.HalfClearedKeepsIff` | src/projection/index.ts:590-593 | A crash between the two statements of the SQLite clear is harmless exactly when nothing was folded yet |
| `Projections.HalfClearedStaysEmpty` | src/projection/index.ts:590-593 | A run with one event: after such a crash its redelivery brings no view back |
| `Projections.SameCategoryAddsNothing` | src/projection/index.ts:378-394 | A second source of the same category adds nothing in a pass |
| `Projections.SchedulesAgree` | src/projection/index.ts:303-330 | When those records of distinct source entities that meet in a view commute, two orders with the same records per source fold to the same views; within an entity the order may matter |
| `Projections.ScheduleDoesNotMatter` | src/projection/tailing.ts:39-77 | Any two guarded schedules with re-reads that folded the same events of streams that commute across source entities show the same views |
| `Projections.MultiStreamPassIsSchedule` | src/projection/index.ts:370-395 | The multi-stream pass is such a schedule |
| `Projections.BatchAgreesWithTails` | src/projection/index.ts:413-421 | A rebuild by batch shows the views of any tailing schedule that folded as much of every source, under the same condition |
| `Projections.SlotsCommute` | src/projection/index.ts:370-395 | Views that keep a slot per source meet the condition, whatever their steps inside a slot do |
| `Projections.OrderMayMatterWithin` | src/projection/index.ts:370-395 | A projection of two entities into one view that meets the condition although the order of each entity's own events matters |
| `SqliteJournal.LoadEvents` | src/sqlite/journal.ts:341-367 | For every page size the pages together are the unpaged query of the entity's later rows |
| `SqliteJournal.AllEvents` | src/sqlite/journal.ts:401-430 | For every page size the composite cursor yields exactly the unpaged query of the category |
| `SqliteJournal.QueryIsExact` | src/sqlite/journal.ts:247-254 | The unpaged query lists exactly the matching rows, each once, in ascending key order |
| `SqliteJournal.CursorMoves` | src/sqlite/journal.ts:247-254 | With the cursor on a row, the next page continues right behind it |
| `SqliteJournal.SqliteJournal.PersistEvents` | src/sqlite/journal.ts:271-339 | A batch is inserted whole behind the old rows, each event's manifest and payload under its own number, or it is rolled back as a whole, naming the first taken number |
| `SqliteJournal.WrittenIsLoaded` | src/sqlite/journal.ts:305-400 | What was written at the end of an entity's rows is loaded back from there: exactly the batch, in order |
| `SqliteJournal.InsertAll` | src/sqlite/journal.ts:271-295 | The inserts fail exactly at the first taken key |
| `SqliteJournal.CategoryTail.Fetch` | src/sqlite/journal.ts:541-558 | A fetch loses and repeats nothing of what was read, and after a short page emitted and fetched rows are all there is behind the start |
| `SqliteJournal.CategoryTail.Yield` | src/sqlite/journal.ts:545-556 | A yield hands out the first row of the category behind the cursor, the cursor moves onto it, and nothing of what was read is lost or repeated |
| `SqliteJournal.TailIsExact` | src/sqlite/journal.ts:531-560 | However rows are appended between pages and yields, the emitted rows are exactly, once and in order, the category's rows from the start up to the cursor, and the fetched ones those from there up to the last one read |
| `SqliteJournal.ExactMeansRead` | src/sqlite/journal.ts:531-560 | Emitted and fetched rows together are, once and in order, the category's rows from the start up to the last one read |
| `SqliteJournal.ShortPageCatchesUp` | src/sqlite/journal.ts:544-558 | After a short page nothing is left to read |
| `TextOrder.LessChains` | src/sqlite/journal.ts:250-254 | The key order of strings is transitive |
| `TextOrder.LessIsTotal` | src/sqlite/journal.ts:250-254 | Two different strings are always ordered |
| `InMemTail.CategoryTail.constructor` | src/inmem/journal.ts:184-217 | Subscription and backlog start exact: every event of the category once |
| `InMemTail.WrittenHolds` | src/inmem/journal.ts:70-115 | A write appends one record per payload to its entity, numbered on, and leaves the other entities alone |
| `InMemTail.CategoryTail.Pull` | src/inmem/journal.ts:219-243 | A pull yields one more record or, when nothing is left, has handed out every event after the cursor |
| `InMemTail.ExactMeansOnce` | src/inmem/journal.ts:178-248 | Emitted plus held records of an entity are exactly its events after the cursor, ascending |
| `InMemTail.FilterNeverFires` | src/inmem/journal.ts:229-233 | For contiguous writes the next live record is always the one behind its entity's mark |
| `InMemTail.EachEventOnce` | src/inmem/journal.ts:70-248 | Over every interleaving of contiguous writes and pulls, every event after the cursor is emitted or still held, exactly once |
| `InMemTail.LostIff` | src/inmem/journal.ts:229-235 | Among live records with any numbers, one is lost exactly when a number of its entity that came before it, in the backlog or live, is at least its own |
| `InMemTail.LostOutOfOrder` | src/inmem/journal.ts:229-235 | The events 2 and 1 of an entity arrive live in that order, and the second to arrive is lost |
| `Csv.SplitCsvLine` | src/ai/file/file-tool.ts:121-148 | The character loop splits as specified |
| `Csv.SplitJoined` | src/ai/file/file-tool.ts:121-160 | Splitting a joined line of escaped fields gives the fields back, trimmed, for every delimiter but the quote |
| `Csv.RoundTripIff` | src/ai/file/file-tool.ts:121-160 | The round trip is exact precisely for trimmed fields |
| `Csv.ParseCsv` | src/ai/file/file-tool.ts:105-119 | The row loops parse as specified |
| `Csv.TableRoundTrip` | src/ai/file/file-tool.ts:105-163 | Parsing a written table gives its rows back, for distinct, plain, trimmed headers, at least two columns and one row, a non-space delimiter, and trimmed values on one line |
| `Csv.SingleColumnKeepsIff` | src/ai/file/file-tool.ts:105-163 | With one column no row is lost exactly when no value is empty |
| `Csv.EmptyRowVanishes` | src/ai/file/file-tool.ts:105-163 | Of two rows under one header, the one with the empty value is not read back |
| `CsvLines.SplitWritten` | src/ai/file/file-tool.ts:121-148 | A line whose fields mix bare and quoted pieces, the last one perhaps left open, is split into the pieces' texts, joined and trimmed |
| `CsvLines.EveryLineIsWritten` | src/ai/file/file-tool.ts:121-148 | Every line consists of such fields, so the splitter's answer is known for all lines |
| `CsvLines.EscapedIff` | src/ai/file/file-tool.ts:155-160 | A value is written as it stands exactly when it holds no delimiter, quote or line break, otherwise as one quoted piece |
| `CsvLines.EmptyTextIff` | src/ai/file/file-tool.ts:150-163 | A table is the empty text exactly when it has no rows |
| `CsvLines.SpacesAre` | src/ai/file/file-tool.ts:105-148 | What is trimmed away is the white space of ECMAScript, code point by code point |
| `Windows.EvictionIsInvisible` | src/core/window.ts:40-81 | Under one window, for any order of adds and any later read, dropping on write changes nothing a read sees |
| `Windows.WindowTakesEffectIff` | src/core/window.ts:9-66 | With any window at every write and at the read, a read shows all entries ever added that lie in its window exactly when no write, with the window it was given, dropped one of them |
| `Windows.ShorterTakesEffect` | src/core/window.ts:9-66 | A window no longer than those of the writes takes effect at the next read, for reads no entry is newer than |
| `Windows.LongerMayComeTooLate` | src/core/window.ts:9-66 | A longer one need not: an entry dropped by one write with a shorter window stays lost |
| `Windows.SizeIsExact` | src/core/window.ts:68-70 | A read counts exactly the entries added inside the window |
| `Windows.SortDescends` | src/core/window.ts:45-46 | Retained entries are the kept ones, newest first |
| `Windows.OldestIsEarliest` | src/core/window.ts:77-80 | The oldest retained time is attained and no retained entry is older |
| `Windows.MergeIsUnion` | src/core/window.ts:103-131 | Merging the tiles of two lots of values is the tile of both |
| `Windows.MergeIsCommutativeMonoid` | src/core/window.ts:122-130 | Merging is commutative and associative, with the empty tile neutral |
| `Windows.ExtremesAreExact` | src/core/window.ts:104-120 | A tile's minimum and maximum of finite values are attained bounds |
| `Windows.CauchySchwarz` | src/core/window.ts:103-131 | Count times sum of squares is at least the sum squared |
| `Windows.VarianceNeedsNoFloor` | src/core/window.ts:217-219 | Without rounding the variance is never negative |
| `Windows.StartIsTheCoveringMultiple` | src/core/window.ts:189-192 | The bucket start is the one multiple of the hop whose hop covers the time |
| `Windows.RetainTiles` | src/core/window.ts:164-177 | The loop keeps exactly the tiles with a part still in the window |
| `Windows.TileEvictionIsInvisible` | src/core/window.ts:195-203 | Dropping tiles on write never drops one a later read counts: each live tile holds exactly the values added to it |
| `Windows.AggregateIsExact` | src/core/window.ts:206-208 | In whatever order live tiles are merged, the result is the tile of all values added to live tiles |
| `Windows.FinishedIsExact` | src/core/window.ts:206-229 | Count, sum and attained extremes of the aggregated values |
| `Windows.MeanAndVarianceAreExact` | src/core/window.ts:216-229 | The mean is the sum over the count, the variance the mean squared deviation from it |
| `Windows.TilesBetweenWindows` | src/core/window.ts:164-229 | The tile count lies between the exact window's count and that of a window one hop longer |
| `Sagas.CounterMoves` | src/saga/tailing.ts:123-137 | An entity's step counter moves only from k to k + 1, only by worker k, and only after step k succeeded |
| `Sagas.StepsInOrder` | src/saga/tailing.ts:96-153 | Under any interleaving, any crashes and any failures to record a success the steps of an entity succeed in order, none skipped, repeated only while the counter still points at them |
| `Sagas.StepsExactlyOnce` | src/saga/tailing.ts:96-153 | The successes of an entity stay exactly 0 up to the counter, once each, as long as every success is recorded, and no longer: a crash in between, or recording that throws, breaks it |
| `Sagas.UnrecordedRepeats` | src/saga/tailing.ts:123-137 | A run: a step succeeds, recording it throws, and the entity's next event executes it again |
| `Sagas.SagaStore.Handle` | src/saga/index.ts:168-190 | An event takes its turn exactly when it is above the step's offset, matches, and finds its entity at the step; then a success is logged once and moves that counter, by one, unless it goes unrecorded; without a crash the event is passed; no other counter or offset moves |
| `Sagas.HandledKeeps` | src/saga/index.ts:168-190 | Whatever an attempt does, order is kept, and exactness exactly unless a success goes unrecorded |
| `Sagas.SagaStore.RunStep` | src/saga/index.ts:164-191 | All events of one step in turn, up to the first crash |
| `Sagas.SagaStore.RunStatefulSaga` | src/saga/index.ts:152-193 | All steps in turn, up to the first crash: order is kept, exactness too unless a success goes unrecorded, offsets only grow, and without a crash every event is passed for every step |
| `CallSlot.FibonacciOf` | src/core/call/retry.ts:14-25 | The loop computes the recursive Fibonacci numbers |
| `CallSlot.DelaysRecur` | src/core/call/retry.ts:40-57 | Up to the cap a Fibonacci delay is the sum of the two before it, an exponential one a multiple of the one before it, a fixed one the same again; the first is the initial one, and before it there is none |
| `CallSlot.DelaysGrowToCap` | src/core/call/retry.ts:40-57 | Delays never shrink and never exceed the cap |
| `CallSlot.ExponentialGrowsIff` | src/core/call/retry.ts:47-51 | Exponential delays never shrink exactly for factors of at least 1 |
| `CallSlot.CallbackDecides` | src/core/call/slot.ts:125-180 | A pending call's result is taken once: success ends it with the response and time, a permanent error fails it, any other error schedules the next attempt after its delay while attempts are left, and exhausts the call after the last |
| `CallSlot.AttemptsBegin` | src/core/call/slot.ts:88-212 | From idle the first attempt begins, from a scheduled retry the next one, with call id, number and time; whatever comes in another phase changes nothing |
| `CallSlot.FailuresExhaust` | src/core/call/slot.ts:88-212 | A call that keeps failing with an error that may be retried waits for each delay of its policy in turn, and is exhausted after exactly the maximum of attempts |
| `CallSlot.AttemptsTakeTurns` | src/core/call/slot.ts:88-284 | In every run attempts and results take turns in the log: the k-th attempt is numbered k and follows a failure that scheduled it, and no result is taken twice |
| `CallSlot.EventsLower` | src/core/call/slot.ts:88-252 | Every event brings the end of the call nearer |
| `CallSlot.OutcomeStays` | src/core/call/slot.ts:125-284 | Once there is an outcome, nothing that ever arrives changes the slot |
| `CallSlot.AttemptsAreBounded` | src/core/call/slot.ts:88-284 | From idle, under late and repeated callbacks, ticks and recoveries: at most the maximum of attempts, all of one call; a scheduled retry has attempts left; exhausted means exactly the maximum |
| `CallSlot.RecoveryIsNeutral` | src/core/call/slot.ts:215-284 | Refolding the events at any point gives the phase in memory |
| `Ulids.EncodeDigits` | src/core/ulid.ts:32-50 | The digit loops give the base-32 digits, most significant first |
| `Ulids.EncodingOrders` | src/core/ulid.ts:32-50 | Encodings of one length order as the numbers they encode |
| `Ulids.DigitsHoldBits` | src/core/ulid.ts:8-22 | Ten digits hold 50 bits and sixteen hold 80: the random part wraps at 2 to the power of 80 |
| `Ulids.UlidTime` | src/core/ulid.ts:67-76 | The loop decodes the time digits, or reports a short or unreadable id |
| `Ulids.ReadsIff` | src/core/ulid.ts:15-19 | A character reads as a digit exactly when it is that digit of the alphabet in either case, an alias of 0 or 1, or one of the two letters whose upper case is such |
| `Ulids.EncodedDecodes` | src/core/ulid.ts:32-76 | Decoding undoes encoding |
| `Ulids.GreaterIff` | src/core/ulid.ts:53-64 | The next id is greater exactly when the 80 random bits do not wrap within one stored millisecond |
| `Ulids.WrapIsSmaller` | src/core/ulid.ts:53-64 | Two calls in one millisecond, the first of which drew all ones: the second id is smaller |
| `Ulids.IdsIncrease` | src/core/ulid.ts:53-64 | Until a wrap, every later id is greater than every earlier one, for any clock |
| `Ulids.TimeIsLatest` | src/core/ulid.ts:53-76 | The time read from an id is the largest clock reading so far |
| `Ulids.Generator.Ulid` | src/core/ulid.ts:53-64 | A call stores and returns the specified id, greater than the last exactly without a wrap |
| `CircuitBreakers.CircuitBreaker.TryAcquire` | src/core/call/circuit-breaker.ts:90-104 | A call is let through exactly when it then is in flight, else counted as rejected; none before the reset timeout, and none beyond the trials allowed in the half-open period; the accounting is kept |
| `CircuitBreakers.CircuitBreaker.RecordSuccess` | src/core/call/circuit-breaker.ts:106-113 | A success ends one call in flight and the failures in a row, leaves the breaker closed unless it was open, and keeps the accounting |
| `CircuitBreakers.CircuitBreaker.RecordFailure` | src/core/call/circuit-breaker.ts:115-128 | A failure ends one call in flight, leaves the breaker closed exactly when it was and the limit is not reached, never half-open, never moves an earlier opening time, and keeps the accounting |
| `CircuitBreakers.AttemptsAreAccounted` | src/core/call/circuit-breaker.ts:81-181 | With overlapping calls, attempts are successes, failures, calls in flight and rejections; closed means fewer failures in a row than the limit (at least 1); the half-open counter is the trials of the period in flight and stays within its limit |
| `CircuitBreakers.NoEarlyAdmission` | src/core/call/circuit-breaker.ts:81-128 | Once opened at t, no call is admitted before t plus the reset timeout, whatever late completions arrive |
| `CircuitBreakers.AdmitsIff` | src/core/call/circuit-breaker.ts:81-104 | In every run an attempt goes in flight exactly when the breaker is closed, past the timeout with trials allowed at all, or half-open with fewer trials of the period in flight than allowed |
| `CircuitBreakers.OpensAtFailure` | src/core/call/circuit-breaker.ts:115-128 | A breaker opens only by a failure, at its time, half-open or at the limit of failures in a row |
| `CircuitBreakers.TrialsKeepLimitIff` | src/core/call/circuit-breaker.ts:81-128 | From waking on, the trials in flight stay within the limit, however the period goes on, exactly when no earlier trial is in flight at waking |
| `CircuitBreakers.TrialsWithinLimit` | src/core/call/circuit-breaker.ts:81-128 | In every run whose wakings find no trial in flight, the limit holds in every state |
| `CircuitBreakers.DecidedByTrialsIff` | src/core/call/circuit-breaker.ts:81-128 | Throughout a half-open period only its own trials can close or reopen the breaker exactly when no call at all was in flight at waking |
| `CircuitBreakers.TrialsCanOverlap` | src/core/call/circuit-breaker.ts:81-128 | A run in which two trials are in flight with one allowed |
| `CircuitBreakers.LateSuccessCloses` | src/core/call/circuit-breaker.ts:106-113 | A run in which the late success of an older call closes a half-open breaker whose trial is still in flight |
| `Detectors.RisesAlternate` | src/ha/detectors.ts:43-78 | Detections and clearings alternate, a detection first |
| `Detectors.RiseIsReportedIff` | src/ha/detectors.ts:55-75 | A warm, idle detector reports exactly the samples that rise over the baseline, a risen one exactly those that clear |
| `Detectors.PercentagesDecide` | src/ha/detectors.ts:55-69 | A sample rises or clears exactly when its distance from the baseline, in percent of the baseline, reaches or stays within the bound |
| `Detectors.BaselineInHull` | src/ha/detectors.ts:43-78 | The baseline lies between values it absorbed |
| `Detectors.BaselineIsWeighted` | src/ha/detectors.ts:43-78 | As long as nothing is detected, for smoothing that decays with a half-life and times in order, the baseline is the sum of all samples, each weighted by its share decayed by its age |
| `Detectors.RisenFreezesBaseline` | src/ha/detectors.ts:55-75 | From the sample before a detection and as long as the detector is risen the baseline does not move |
| `Detectors.NoRiseWhileCold` | src/ha/detectors.ts:52-69 | Nothing is detected before the warm-up is over |
| `Detectors.IncrementsNeverExceedMovement` | src/ha/detectors.ts:102-127 | The emitted increments sum up to at most the stream's upward movement |
| `Detectors.IncrementIsReportedIff` | src/ha/detectors.ts:110-126 | A sample is reported exactly when, within the window of the anchor sample and without a reset, the counter has risen enough since, and what is reported is the rise between the two |
| `Detectors.IncrementIsBacked` | src/ha/detectors.ts:102-127 | Every reported increment is the rise between two samples at most a window apart, with no reset and no report between them |
| `Detectors.SustainsAlternate` | src/ha/detectors.ts:155-184 | Sustained and cleared events alternate |
| `Detectors.ClearingIsReportedIff` | src/ha/detectors.ts:177-183 | A sustained detector reports exactly a sample below the clearing value, as that sample's clearing |
| `Detectors.SustainedIsBacked` | src/ha/detectors.ts:166-175 | Every sustained event ends an unbroken run of samples at or above the threshold that spans the sustain time |
| `Detectors.SustainedIsReported` | src/ha/detectors.ts:155-184 | Every such run leaves the detector active, with times in order and clearing no harder than sustaining |

## Left out

- The main theorems on node-flow runs assume a non-empty flow id, one start per flow entity, reports only from executors
  that were fired, and no skip, user message or user choice; `NodeFlowIds.dfy` and `NodeFlowDepartures.dfy` state what those
  do, for answers to running nodes.
- Node-flow executors: what a node runs, blocking signals and the loss of an executor by a crash are not modelled.
- src/petrinet/flow-aggregate.ts: its token accounting adds results twice, so conservation does not hold there.
- Petri tokens: one clock reading per operation; DOT output and `placeForResult` are not modelled.
- Entity runner: timers, `sync`, tells to other entities and recovery hooks only put messages into the mailbox, which may
  receive any; event envelopes, `onPersisted` and the `preSequenceNr` of replies are not modelled.
- Codecs: event codecs decode what they encode, state codecs may fail to decode but never lie.
- Projection listeners and `awaitView`; an `evolve` that throws in a tail is caught there and its event can be passed over.
- SQLite: statements are pure queries over the table; LIKE is an arbitrary condition (its wildcards and letter case are not
  modelled), decoding of the fetched rows, the unique event id and reuse of deleted row ids are left out.
- In-memory tail: abort signals; writes of the category are contiguous per entity, as the runner makes them.
- CSV: the delimiter is one character; object keys that JavaScript reorders or treats specially are not modelled.
- Windows: values are reals without rounding and times are integers; the standard deviation is left out, and tile windows are
  read with the hop and window they were written with.
- Sagas: delivery is not at-least-once in the source (a kept offset is overtaken by the entity's next event), so only order
  is proved; handlers are successes or failures.
- Call slot: the gateway, circuit breaker and timers behind it are callbacks and ticks that may come at any time; `initiate`
  is called from idle only, which the slot itself does not check. Exponents other than whole attempts do not occur.
- Detectors: the smoothing factor is any number between 0 and 1; observation ids are not modelled.
- HTTP, language-model, knowledge, sandbox, messaging and database plumbing.
