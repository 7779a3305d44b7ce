/** The test kit: a second interpreter of effects (src/testing/aggregate-testkit.ts). */
module AggregateTestkit {
  import opened Prelude
  import opened Effects
  import opened Aggregates
  import opened EntityEffects

  datatype CommandResult = CommandResult(
    events: seq<Event>, reply: Option<Answered>, deferredReply: Option<DeferredId>, sideEffects: seq<SideEffect>,
    shouldStop: bool, shouldStash: bool, shouldSnapshot: bool, shouldUnstash: bool)

  const NOTHING := CommandResult([], None, None, [], false, false, false, false)

  /** What walking a chain adds to a result. */
  function Walked(result: CommandResult, effect: Decision): CommandResult
    decreases effect
  {
    match effect
    case Persist(events, andThen) => Walked(result.(events := result.events + events), andThen)
    case Run(sideEffect, andThen) => Walked(result.(sideEffects := result.sideEffects + [sideEffect]), andThen)
    case Reply(value) => result.(reply := Some(value))
    case ReplyDeferred(deferred) => result.(deferredReply := Some(deferred))
    case Snapshot(andThen) => Walked(result.(shouldSnapshot := true), andThen)
    case Stop => result.(shouldStop := true)
    case Stash => result.(shouldStash := true)
    case Unstash(andThen) => Walked(result.(shouldUnstash := true), andThen)
    case Done => result
  }

  /** The record that `walk` fills. */
  class Walker {
    var result: CommandResult

    constructor ()
      ensures result == NOTHING
    {
      result := NOTHING;
    }

    method Walk(effect: Decision)
      modifies this
      ensures result == Walked(old(result), effect)
      decreases effect
    {
      match effect
      case Persist(events, andThen) =>
        result := result.(events := result.events + events);
        Walk(andThen);
      case Run(sideEffect, andThen) =>
        result := result.(sideEffects := result.sideEffects + [sideEffect]);
        Walk(andThen);
      case Reply(value) => result := result.(reply := Some(value));
      case ReplyDeferred(deferred) => result := result.(deferredReply := Some(deferred));
      case Snapshot(andThen) =>
        result := result.(shouldSnapshot := true);
        Walk(andThen);
      case Stop => result := result.(shouldStop := true);
      case Stash => result := result.(shouldStash := true);
      case Unstash(andThen) =>
        result := result.(shouldUnstash := true);
        Walk(andThen);
      case Done =>
    }
  }

  /** The result lists the extracted events and how the chain ends. */
  lemma {:induction false} WalkTells(result: CommandResult, effect: Decision)
    ensures var r, end := Walked(result, effect), Terminator(effect);
            && r.events == result.events + ExtractEvents(effect)
            && r.reply == (if end.Reply? then Some(end.value) else result.reply)
            && r.deferredReply == (if end.ReplyDeferred? then Some(end.deferred) else result.deferredReply)
            && r.shouldStop == (end.Stop? || result.shouldStop)
            && r.shouldStash == (end.Stash? || result.shouldStash)
            && r.sideEffects == result.sideEffects + SideEffectsOf(effect)
            && r.shouldSnapshot == (HasSnapshot(effect) || result.shouldSnapshot)
            && r.shouldUnstash == (HasUnstash(effect) || result.shouldUnstash)
    decreases effect
  {
    match effect
    case Persist(events, andThen) =>
      WalkTells(result.(events := result.events + events), andThen);
      Regroup(result.events, events, ExtractEvents(andThen));
    case Run(sideEffect, andThen) =>
      WalkTells(result.(sideEffects := result.sideEffects + [sideEffect]), andThen);
      Regroup(result.sideEffects, [sideEffect], SideEffectsOf(andThen));
    case Snapshot(andThen) => WalkTells(result.(shouldSnapshot := true), andThen);
    case Unstash(andThen) => WalkTells(result.(shouldUnstash := true), andThen);
    case _ =>
      AppendNothing(result.events);
      AppendNothing(result.sideEffects);
  }

  lemma AppendNothing<T>(s: seq<T>)
    ensures s + [] == s
  {
  }

  method CommandResultFromEffect(effect: Decision) returns (result: CommandResult)
    ensures result == Walked(NOTHING, effect)
  {
    var walker := new Walker();
    walker.Walk(effect);
    result := walker.result;
  }

  lemma {:induction false} ReplaysOn(agg: Aggregate, state: State, events: seq<Event>)
    ensures forall history | state == Fold(agg, history) :: Replay(agg, state, events) == Fold(agg, history + events)
  {
    forall history | state == Fold(agg, history) ensures Replay(agg, state, events) == Fold(agg, history + events) {
      ReplayConcat(agg, agg.initial, history, events);
    }
  }

  /** The events are those the decision persists, and the new state is the old one with them applied: whatever history
      led to the old one, that history continued by them leads to the new one. */
  method RunAndApply(agg: Aggregate, state: State, command: Command) returns (newState: State, result: CommandResult)
    ensures result.events == ExtractEvents(agg.decide(state, command))
    ensures result.reply.Some? <==> Terminator(agg.decide(state, command)).Reply?
    ensures result.shouldStop <==> Terminator(agg.decide(state, command)).Stop?
    ensures result.shouldStash <==> Terminator(agg.decide(state, command)).Stash?
    ensures newState == Replay(agg, state, result.events)
    ensures forall history | state == Fold(agg, history) :: newState == Fold(agg, history + result.events)
  {
    result := CommandResultFromEffect(agg.decide(state, command));
    WalkTells(NOTHING, agg.decide(state, command));
    newState := state;
    var i := 0;
    while i < |result.events|
      invariant 0 <= i <= |result.events|
      invariant newState == Replay(agg, state, result.events[..i])
    {
      assert result.events[..i + 1][..i] == result.events[..i];
      newState := agg.apply(newState, result.events[i]);
      i := i + 1;
    }
    assert result.events[..i] == result.events;
    assert [] + ExtractEvents(agg.decide(state, command)) == ExtractEvents(agg.decide(state, command));
    ReplaysOn(agg, state, result.events);
  }

  /** The reply the kit reports is the one the runner sends: the value, or none where the chain is done. */
  function Reported(v: View, result: CommandResult, replyTo: Option<Handle>): View {
    if result.shouldStop then v.(mailbox := v.mailbox + [StopNow])
    else if result.deferredReply.Some? then
      v.(deferrals := v.deferrals + [Deferral(result.deferredReply.value, replyTo, |v.events|, false)])
    else Answering(v, replyTo, result.reply)
  }

  /** For chains without stash and unstash, the runner persists, replies and stops as the kit reports,
      and reaches the state `runAndApply` returns. */
  lemma RunnerAgreesWithKit(agg: Aggregate, v: View, command: Command, replyTo: Option<Handle>)
    requires Plain(agg.decide(Fold(agg, v.events), command))
    ensures var result := Walked(NOTHING, agg.decide(Fold(agg, v.events), command));
            var r := Process(agg, v, command, replyTo);
            && r == Reported(WithWorkOf(v.(events := v.events + result.events), r), result, replyTo)
            && Fold(agg, r.events) == Replay(agg, Fold(agg, v.events), result.events)
  {
    var effect := agg.decide(Fold(agg, v.events), command);
    WalkTells(NOTHING, effect);
    PlainExecutes(agg, v, effect, replyTo);
    PlainTerminates(effect);
    ReplayConcat(agg, agg.initial, v.events, ExtractEvents(effect));
    assert [] + ExtractEvents(effect) == ExtractEvents(effect);
  }

  /** The events the kit reports when commands are run and applied one after another. */
  function ScriptEvents(agg: Aggregate, history: seq<Event>, commands: seq<Command>): seq<Event> {
    if commands == [] then [] else
      var before := ScriptEvents(agg, history, commands[..|commands| - 1]);
      before + ExtractEvents(agg.decide(Fold(agg, history + before), commands[|commands| - 1]))
  }

  function Tells(commands: seq<Command>): seq<Entry> {
    seq(|commands|, i requires 0 <= i < |commands| => Entry(commands[i], None))
  }

  ghost predicate AlwaysPlain(agg: Aggregate) {
    forall state, command :: Plain(agg.decide(state, command))
  }

  /** Where no decision stashes or unstashes, a whole test script persists in the runner exactly what the kit
      reports. */
  lemma {:induction false} ScriptsAgree(agg: Aggregate, v: View, commands: seq<Command>)
    requires AlwaysPlain(agg)
    ensures ProcessAll(agg, v, Tells(commands)).events == v.events + ScriptEvents(agg, v.events, commands)
  {
    if commands == [] {
      assert v.events + [] == v.events;
    } else {
      var front, last := commands[..|commands| - 1], commands[|commands| - 1];
      ScriptsAgree(agg, v, front);
      assert Tells(commands)[..|commands| - 1] == Tells(front);
      var before := ProcessAll(agg, v, Tells(front));
      var effect := agg.decide(Fold(agg, before.events), last);
      PlainExecutes(agg, before, effect, None);
      Regroup(v.events, ScriptEvents(agg, v.events, front), ExtractEvents(effect));
    }
  }
}
