/** When an entity's snapshots are stored and its side effects run (src/inmem/entity-runner.ts:243-328). */
module EntitySnapshots {
  import opened Prelude
  import opened Effects
  import opened Aggregates
  import opened EntityEffects

  /** The number of the last snapshot, or where the incarnation began. */
  function LastSnapshot(v: View, base: nat): nat {
    if v.snapshots == [] then base else v.snapshots[|v.snapshots| - 1]
  }

  /** The events since the last snapshot are counted, and there are never as many as call for another one. */
  ghost predicate Spaced(agg: Aggregate, v: View, base: nat) {
    && LastSnapshot(v, base) + v.sinceSnapshot == |v.events|
    && (agg.snapshotEvery > 0 ==> v.sinceSnapshot < agg.snapshotEvery)
  }

  // ---- Explicit and automatic snapshots of one chain ----

  /** A batch is followed by a snapshot at its end exactly when it brings the events since the last one to the
      limit. */
  lemma BatchSnapshotsIff(agg: Aggregate, v: View, events: seq<Event>, andThen: Decision, replyTo: Option<Handle>)
    requires andThen.Done?
    ensures var r := Execute(agg, v, Persist(events, andThen), replyTo);
            r.snapshots == v.snapshots + if agg.snapshotEvery > 0 && v.sinceSnapshot + |events| >= agg.snapshotEvery
                                         then [|v.events| + |events|] else []
  {
  }

  /** A plain chain without a Snapshot effect that stays below the limit stores nothing. */
  lemma {:induction false} NoSnapshotBelowLimit(agg: Aggregate, v: View, effect: Decision, replyTo: Option<Handle>)
    requires Plain(effect) && !HasSnapshot(effect)
    requires agg.snapshotEvery > 0 ==> v.sinceSnapshot + |ExtractEvents(effect)| < agg.snapshotEvery
    ensures var r := Execute(agg, v, effect, replyTo);
            r.snapshots == v.snapshots && r.sinceSnapshot == v.sinceSnapshot + |ExtractEvents(effect)|
    decreases effect
  {
    if effect.Persist? {
      NoSnapshotBelowLimit(agg, Persisted(agg, v, effect.events), effect.andThen, replyTo);
    } else if effect.Run? {
      NoSnapshotBelowLimit(agg, Performing(v, effect.sideEffect), effect.andThen, replyTo);
    }
  }

  /** A chain is executed up to the end of its first part, then on. */
  lemma {:induction false} ExecutesInTurn(agg: Aggregate, v: View, a: Decision, b: Decision, replyTo: Option<Handle>)
    requires Terminator(a).Done?
    ensures Execute(agg, v, AppendToChain(a, b), replyTo) == Execute(agg, Execute(agg, v, a, None), b, replyTo)
    decreases a
  {
    if a.Persist? {
      ExecutesInTurn(agg, Persisted(agg, v, a.events), a.andThen, b, replyTo);
    } else if a.Run? {
      ExecutesInTurn(agg, Performing(v, a.sideEffect), a.andThen, b, replyTo);
    } else if a.Snapshot? {
      ExecutesInTurn(agg, Snapped(v), a.andThen, b, replyTo);
    } else if a.Unstash? {
      ExecutesInTurn(agg, ProcessAll(agg, v.(stashed := []), v.stashed), a.andThen, b, replyTo);
    }
  }

  /** A Snapshot effect stores a snapshot at the number of events there are after the part before it, replays included,
      and it stays the last one unless the rest of the chain stores another. */
  lemma SnapshotIsStored(agg: Aggregate, v: View, a: Decision, b: Decision, replyTo: Option<Handle>)
    requires Terminator(a).Done? && Plain(b) && !HasSnapshot(b)
    requires agg.snapshotEvery > 0 ==> |ExtractEvents(b)| < agg.snapshotEvery
    ensures var r := Execute(agg, v, AppendToChain(a, Snapshot(b)), replyTo);
            && r.snapshots != [] && r.snapshots[|r.snapshots| - 1] == |Execute(agg, v, a, None).events|
            && (Plain(a) ==> r.snapshots[|r.snapshots| - 1] == |v.events| + |ExtractEvents(a)|)
            && r.sinceSnapshot == |ExtractEvents(b)|
  {
    ExecutesInTurn(agg, v, a, Snapshot(b), replyTo);
    if Plain(a) {
      PlainExecutes(agg, v, a, None);
    }
    NoSnapshotBelowLimit(agg, Snapped(Execute(agg, v, a, None)), b, replyTo);
  }

  // ---- Side effects ----

  function SideEffects(performed: seq<Performed>): seq<SideEffect> {
    seq(|performed|, i requires 0 <= i < |performed| => performed[i].sideEffect)
  }

  /** A plain chain runs exactly its side effects, in order. */
  lemma {:induction false} PlainPerforms(agg: Aggregate, v: View, effect: Decision, replyTo: Option<Handle>)
    requires Plain(effect)
    ensures SideEffects(Execute(agg, v, effect, replyTo).performed)
         == SideEffects(v.performed) + SideEffectsOf(effect)
    decreases effect
  {
    if effect.Persist? {
      PlainPerforms(agg, Persisted(agg, v, effect.events), effect.andThen, replyTo);
    } else if effect.Run? {
      PlainPerforms(agg, Performing(v, effect.sideEffect), effect.andThen, replyTo);
      assert SideEffects(Performing(v, effect.sideEffect).performed)
          == SideEffects(v.performed) + [effect.sideEffect];
      Regroup(SideEffects(v.performed), [effect.sideEffect], SideEffectsOf(effect.andThen));
    } else if effect.Snapshot? {
      PlainPerforms(agg, Snapped(v), effect.andThen, replyTo);
    } else {
      assert SideEffects(v.performed) + [] == SideEffects(v.performed);
    }
  }

  /** A side effect runs when everything before it in the chain has been done, its events persisted. */
  lemma RunsInTurn(agg: Aggregate, v: View, a: Decision, sideEffect: SideEffect, replyTo: Option<Handle>)
    requires Terminator(a).Done?
    ensures var before := Execute(agg, v, a, None);
            Execute(agg, v, AppendToChain(a, Run(sideEffect, Done)), replyTo).performed
            == before.performed + [Performed(sideEffect, |before.events|)]
  {
    ExecutesInTurn(agg, v, a, Run(sideEffect, Done), replyTo);
  }

  // ---- Every run stays spaced ----

  lemma BatchStaysSpaced(agg: Aggregate, v: View, events: seq<Event>, base: nat)
    requires Spaced(agg, v, base)
    ensures Spaced(agg, Persisted(agg, v, events), base) && Spaced(agg, Snapped(v), base)
  {
  }

  lemma {:induction false} ExecuteStaysSpaced(agg: Aggregate, v: View, effect: Decision, replyTo: Option<Handle>,
                                              base: nat)
    requires Spaced(agg, v, base)
    ensures Spaced(agg, Execute(agg, v, effect, replyTo), base)
    decreases |v.stashed|, 1, Length(effect)
  {
    BatchStaysSpaced(agg, v, if effect.Persist? then effect.events else [], base);
    match effect
    case Persist(events, andThen) => ExecuteStaysSpaced(agg, Persisted(agg, v, events), andThen, replyTo, base);
    case Run(sideEffect, andThen) => ExecuteStaysSpaced(agg, Performing(v, sideEffect), andThen, replyTo, base);
    case Snapshot(andThen) => ExecuteStaysSpaced(agg, Snapped(v), andThen, replyTo, base);
    case Unstash(andThen) =>
      ReplayStaysSpaced(agg, v.(stashed := []), v.stashed, base);
      ExecuteStaysSpaced(agg, ProcessAll(agg, v.(stashed := []), v.stashed), andThen, replyTo, base);
    case _ =>
  }

  lemma {:induction false} ProcessStaysSpaced(agg: Aggregate, v: View, command: Command, replyTo: Option<Handle>,
                                              base: nat)
    requires Spaced(agg, v, base)
    ensures Spaced(agg, Process(agg, v, command, replyTo), base)
    decreases |v.stashed|, 2, 0
  {
    var effect := agg.decide(Fold(agg, v.events), command);
    if !effect.Stash? {
      ExecuteStaysSpaced(agg, v, effect, replyTo, base);
    }
  }

  lemma {:induction false} ReplayStaysSpaced(agg: Aggregate, v: View, entries: seq<Entry>, base: nat)
    requires Spaced(agg, v, base)
    ensures Spaced(agg, ProcessAll(agg, v, entries), base)
    decreases |v.stashed| + |entries|, 0, |entries|
  {
    if entries != [] {
      var front, last := entries[..|entries| - 1], entries[|entries| - 1];
      ReplayStaysSpaced(agg, v, front, base);
      ProcessStaysSpaced(agg, ProcessAll(agg, v, front), last.command, last.replyTo, base);
    }
  }

  lemma {:induction false} ExecuteBreaksSpaced(agg: Aggregate, v: View, effect: Decision, replyTo: Option<Handle>,
                                               r: View, base: nat)
    requires Spaced(agg, v, base) && ExecuteBreaks(agg, v, effect, replyTo, r)
    ensures Spaced(agg, r, base)
    decreases |v.stashed|, 1, Length(effect)
  {
    BatchStaysSpaced(agg, v, if effect.Persist? then effect.events else [], base);
    if r != v || effect.Unstash? {
      match effect
      case Persist(events, andThen) => ExecuteBreaksSpaced(agg, Persisted(agg, v, events), andThen, replyTo, r, base);
      case Run(sideEffect, andThen) =>
        if r != Performing(v, sideEffect) {
          ExecuteBreaksSpaced(agg, Performing(v, sideEffect), andThen, replyTo, r, base);
        }
      case Snapshot(andThen) => ExecuteBreaksSpaced(agg, Snapped(v), andThen, replyTo, r, base);
      case Unstash(andThen) =>
        if ReplayBreaks(agg, v.(stashed := []), v.stashed, r) {
          ReplayBreaksSpaced(agg, v.(stashed := []), v.stashed, r, base);
        } else {
          ReplayStaysSpaced(agg, v.(stashed := []), v.stashed, base);
          ExecuteBreaksSpaced(agg, ProcessAll(agg, v.(stashed := []), v.stashed), andThen, replyTo, r, base);
        }
    }
  }

  lemma {:induction false} ProcessBreaksSpaced(agg: Aggregate, v: View, command: Command, replyTo: Option<Handle>,
                                               r: View, base: nat)
    requires Spaced(agg, v, base) && ProcessBreaks(agg, v, command, replyTo, r)
    ensures Spaced(agg, r, base)
    decreases |v.stashed|, 2, 0
  {
    if r != v {
      ExecuteBreaksSpaced(agg, v, agg.decide(Fold(agg, v.events), command), replyTo, r, base);
    }
  }

  lemma {:induction false} ReplayBreaksSpaced(agg: Aggregate, v: View, entries: seq<Entry>, r: View, base: nat)
    requires Spaced(agg, v, base) && ReplayBreaks(agg, v, entries, r)
    ensures Spaced(agg, r, base)
    decreases |v.stashed| + |entries|, 0, |entries|
  {
    var front, last := entries[..|entries| - 1], entries[|entries| - 1];
    if ReplayBreaks(agg, v, front, r) {
      ReplayBreaksSpaced(agg, v, front, r, base);
    } else {
      ReplayStaysSpaced(agg, v, front, base);
      ProcessBreaksSpaced(agg, ProcessAll(agg, v, front), last.command, last.replyTo, r, base);
    }
  }

  /** Where the incarnation began. */
  function BaseAfter(base: nat, step: Step): nat {
    if step.Recovers? then |step.history| else base
  }

  lemma StepStaysSpaced(agg: Aggregate, v: View, step: Step, v': View, base: nat)
    requires Spaced(agg, v, base) && Next(agg, v, step, v')
    ensures Spaced(agg, v', BaseAfter(base, step))
  {
    match step
    case Delivers =>
      if !v.mailbox[0].StopNow? {
        ProcessStaysSpaced(agg, v.(mailbox := v.mailbox[1..]), v.mailbox[0].command, ReplyTo(v.mailbox[0]), base);
      }
    case Crashes =>
      var message, v1 := v.mailbox[0], v.(mailbox := v.mailbox[1..]);
      var broken :| ProcessBreaks(agg, v1, message.command, ReplyTo(message), broken) && v' == Failed(broken, message);
      ProcessBreaksSpaced(agg, v1, message.command, ReplyTo(message), broken, base);
    case _ =>
  }

  /** In every run, whatever is stashed, replayed, crashed or recovered, fewer events than the limit lie behind the last
      snapshot of an incarnation, or behind its recovery. */
  lemma {:induction false} SnapshotsKeepUp(agg: Aggregate, run: seq<View>, steps: seq<Step>, base: nat, i: nat)
      returns (base': nat)
    requires IsRun(agg, run, steps) && i <= |steps| && Spaced(agg, run[0], base)
    ensures Spaced(agg, run[i], base')
  {
    if i == 0 {
      base' := base;
    } else {
      base' := SnapshotsKeepUp(agg, run, steps, base, i - 1);
      assert StepAt(agg, run, steps, i - 1);
      StepStaysSpaced(agg, run[i - 1], steps[i - 1], run[i], base');
      base' := BaseAfter(base', steps[i - 1]);
    }
  }
}
