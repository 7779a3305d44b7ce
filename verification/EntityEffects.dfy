/** What interpreting effects does to an entity, when nothing throws
    (src/inmem/entity-runner.ts:238-354 and 395-408): stash, replies and replays. */
module EntityEffects {
  import opened Prelude
  import opened Effects
  import opened Aggregates

  /** One per ask. */
  type Handle = nat

  datatype Entry = Entry(command: Command, replyTo: Option<Handle>)

  datatype Outcome = Replied(reply: Option<Answered>, sequenceNr: nat) | TimedOut | Failure

  datatype Answer = Answer(handle: Handle, outcome: Outcome)

  /** A reply left open until the deferred is completed or times out. */
  datatype Deferral = Deferral(deferred: DeferredId, replyTo: Option<Handle>, sequenceNr: nat, settled: bool)

  datatype Message = Tell(command: Command) | Ask(command: Command, handle: Handle) | TimerFired(command: Command)
      | StopNow

  /** A side effect, and how many events there were when it ran. */
  datatype Performed = Performed(sideEffect: SideEffect, sequenceNr: nat)

  /** What one incarnation has seen of its entity: `events` is the history its state folds, `snapshots` are the numbers
      at which it has stored a snapshot, `sinceSnapshot` counts the events it has persisted since the last one, and
      `performed` are the side effects it has run. */
  datatype View = View(events: seq<Event>, stashed: seq<Entry>, answers: seq<Answer>, deferrals: seq<Deferral>,
                       mailbox: seq<Message>, snapshots: seq<nat>, sinceSnapshot: nat, performed: seq<Performed>)

  function Answering(v: View, replyTo: Option<Handle>, reply: Option<Answered>): View {
    if replyTo.None? then v else v.(answers := v.answers + [Answer(replyTo.value, Replied(reply, |v.events|))])
  }

  /** A side effect runs when the events before it have been persisted. */
  function Performing(v: View, sideEffect: SideEffect): View {
    v.(performed := v.performed + [Performed(sideEffect, |v.events|)])
  }

  function Snapped(v: View): View {
    v.(snapshots := v.snapshots + [|v.events|], sinceSnapshot := 0)
  }

  /** A batch, followed by a snapshot when enough events have come together. */
  function Persisted(agg: Aggregate, v: View, events: seq<Event>): View {
    var v' := v.(events := v.events + events, sinceSnapshot := v.sinceSnapshot + |events|);
    if agg.snapshotEvery > 0 && v'.sinceSnapshot >= agg.snapshotEvery then Snapped(v') else v'
  }

  function Process(agg: Aggregate, v: View, command: Command, replyTo: Option<Handle>): (r: View)
    ensures |r.stashed| <= |v.stashed| + 1
    decreases |v.stashed|, 2, 0
  {
    var effect := agg.decide(Fold(agg, v.events), command);
    if effect.Stash? then v.(stashed := v.stashed + [Entry(command, replyTo)]) else Execute(agg, v, effect, replyTo)
  }

  function Length(effect: Decision): nat {
    if effect.Persist? || effect.Run? || effect.Snapshot? || effect.Unstash? then 1 + Length(effect.andThen) else 0
  }

  function Execute(agg: Aggregate, v: View, effect: Decision, replyTo: Option<Handle>): (r: View)
    ensures |r.stashed| <= |v.stashed|
    decreases |v.stashed|, 1, Length(effect)
  {
    match effect
    case Persist(events, andThen) => Execute(agg, Persisted(agg, v, events), andThen, replyTo)
    case Run(sideEffect, andThen) => Execute(agg, Performing(v, sideEffect), andThen, replyTo)
    case Reply(value) => Answering(v, replyTo, Some(value))
    case ReplyDeferred(deferred) => v.(deferrals := v.deferrals + [Deferral(deferred, replyTo, |v.events|, false)])
    case Snapshot(andThen) => Execute(agg, Snapped(v), andThen, replyTo)
    case Stop => v.(mailbox := v.mailbox + [StopNow])
    case Stash => v
    case Unstash(andThen) => Execute(agg, ProcessAll(agg, v.(stashed := []), v.stashed), andThen, replyTo)
    case Done => Answering(v, replyTo, None)
  }

  /** Each entry with its own reply handle, in order. */
  function ProcessAll(agg: Aggregate, v: View, entries: seq<Entry>): (r: View)
    ensures |r.stashed| <= |v.stashed| + |entries|
    decreases |v.stashed| + |entries|, 0, |entries|
  {
    if entries == [] then v else
      var last := entries[|entries| - 1];
      Process(agg, ProcessAll(agg, v, entries[..|entries| - 1]), last.command, last.replyTo)
  }

  // ---- The same work, broken off by a throw or by the death of the process ----

  /** `r` is what executing the chain up to some point leaves: before a write or effect, or in the middle of a
      replay. */
  ghost predicate ExecuteBreaks(agg: Aggregate, v: View, effect: Decision, replyTo: Option<Handle>, r: View)
    decreases |v.stashed|, 1, Length(effect)
  {
    match effect
    case Persist(events, andThen) => r == v || ExecuteBreaks(agg, Persisted(agg, v, events), andThen, replyTo, r)
    case Run(sideEffect, andThen) =>
      r == v || r == Performing(v, sideEffect) || ExecuteBreaks(agg, Performing(v, sideEffect), andThen, replyTo, r)
    case Snapshot(andThen) => r == v || ExecuteBreaks(agg, Snapped(v), andThen, replyTo, r)
    case Unstash(andThen) =>
      || ReplayBreaks(agg, v.(stashed := []), v.stashed, r)
      || ExecuteBreaks(agg, ProcessAll(agg, v.(stashed := []), v.stashed), andThen, replyTo, r)
    case _ => false
  }

  /** Deciding throws, or executing what was decided breaks off. */
  ghost predicate ProcessBreaks(agg: Aggregate, v: View, command: Command, replyTo: Option<Handle>, r: View)
    decreases |v.stashed|, 2, 0
  {
    var effect := agg.decide(Fold(agg, v.events), command);
    r == v || (!effect.Stash? && ExecuteBreaks(agg, v, effect, replyTo, r))
  }

  /** Some entry's processing breaks off, after those before it have been processed. */
  ghost predicate ReplayBreaks(agg: Aggregate, v: View, entries: seq<Entry>, r: View)
    decreases |v.stashed| + |entries|, 0, |entries|
  {
    entries != [] &&
      var front, last := entries[..|entries| - 1], entries[|entries| - 1];
      || ReplayBreaks(agg, v, front, r)
      || ProcessBreaks(agg, ProcessAll(agg, v, front), last.command, last.replyTo, r)
  }

  lemma {:induction false} BreaksAt(agg: Aggregate, v: View, entries: seq<Entry>, i: nat, r: View)
    requires i < |entries|
    requires ProcessBreaks(agg, ProcessAll(agg, v, entries[..i]), entries[i].command, entries[i].replyTo, r)
    ensures ReplayBreaks(agg, v, entries, r)
    decreases |entries|
  {
    if i < |entries| - 1 {
      var front := entries[..|entries| - 1];
      assert front[..i] == entries[..i];
      BreaksAt(agg, v, front, i, r);
    }
  }

  // ---- Chains without stash and unstash do what the test kit says ----

  predicate Plain(effect: Decision) {
    match effect
    case Persist(_, andThen) => Plain(andThen)
    case Run(_, andThen) => Plain(andThen)
    case Snapshot(andThen) => Plain(andThen)
    case Stash => false
    case Unstash(_) => false
    case _ => true
  }

  /** The answers, deferrals and messages a terminal effect adds. */
  function Ended(v: View, end: Decision, replyTo: Option<Handle>): View {
    match end
    case Reply(value) => Answering(v, replyTo, Some(value))
    case ReplyDeferred(deferred) => v.(deferrals := v.deferrals + [Deferral(deferred, replyTo, |v.events|, false)])
    case Stop => v.(mailbox := v.mailbox + [StopNow])
    case Done => Answering(v, replyTo, None)
    case _ => v
  }

  /** `v` with the snapshots and side effects of `r`. */
  function WithWorkOf(v: View, r: View): View {
    v.(snapshots := r.snapshots, sinceSnapshot := r.sinceSnapshot, performed := r.performed)
  }

  /** Executing a plain chain persists exactly its extracted events, then ends once. */
  lemma {:induction false} PlainExecutes(agg: Aggregate, v: View, effect: Decision, replyTo: Option<Handle>)
    requires Plain(effect)
    ensures var r := Execute(agg, v, effect, replyTo);
            r == Ended(WithWorkOf(v.(events := v.events + ExtractEvents(effect)), r), Terminator(effect), replyTo)
    decreases effect
  {
    if effect.Persist? {
      PlainExecutes(agg, Persisted(agg, v, effect.events), effect.andThen, replyTo);
      Regroup(v.events, effect.events, ExtractEvents(effect.andThen));
    } else if effect.Run? {
      PlainExecutes(agg, Performing(v, effect.sideEffect), effect.andThen, replyTo);
    } else if effect.Snapshot? {
      PlainExecutes(agg, Snapped(v), effect.andThen, replyTo);
    } else {
      assert v.events + [] == v.events;
    }
  }

  // ---- History only grows ----

  lemma {:induction false} ExecuteExtends(agg: Aggregate, v: View, effect: Decision, replyTo: Option<Handle>)
    ensures v.events <= Execute(agg, v, effect, replyTo).events
    decreases |v.stashed|, 1, Length(effect)
  {
    match effect
    case Persist(events, andThen) => ExecuteExtends(agg, Persisted(agg, v, events), andThen, replyTo);
    case Run(sideEffect, andThen) => ExecuteExtends(agg, Performing(v, sideEffect), andThen, replyTo);
    case Snapshot(andThen) => ExecuteExtends(agg, Snapped(v), andThen, replyTo);
    case Unstash(andThen) =>
      ProcessAllExtends(agg, v.(stashed := []), v.stashed);
      ExecuteExtends(agg, ProcessAll(agg, v.(stashed := []), v.stashed), andThen, replyTo);
    case _ =>
  }

  lemma {:induction false} ProcessExtends(agg: Aggregate, v: View, command: Command, replyTo: Option<Handle>)
    ensures v.events <= Process(agg, v, command, replyTo).events
    decreases |v.stashed|, 2, 0
  {
    var effect := agg.decide(Fold(agg, v.events), command);
    if !effect.Stash? {
      ExecuteExtends(agg, v, effect, replyTo);
    }
  }

  lemma {:induction false} ProcessAllExtends(agg: Aggregate, v: View, entries: seq<Entry>)
    ensures v.events <= ProcessAll(agg, v, entries).events
    decreases |v.stashed| + |entries|, 0, |entries|
  {
    if entries != [] {
      var last := entries[|entries| - 1];
      ProcessAllExtends(agg, v, entries[..|entries| - 1]);
      ProcessExtends(agg, ProcessAll(agg, v, entries[..|entries| - 1]), last.command, last.replyTo);
    }
  }

  // ---- What stays stashed stays in order, with its handle ----

  /** `a` is `b` with some elements left out. */
  predicate Subsequence(a: seq<Entry>, b: seq<Entry>) {
    if a == [] then true
    else if b == [] then false
    else if a[|a| - 1] == b[|b| - 1] && Subsequence(a[..|a| - 1], b[..|b| - 1]) then true
    else Subsequence(a, b[..|b| - 1])
  }

  lemma {:induction false} SubsequenceSelf(a: seq<Entry>)
    ensures Subsequence(a, a)
  {
    if a != [] {
      SubsequenceSelf(a[..|a| - 1]);
    }
  }

  lemma {:induction false} SubsequenceChains(a: seq<Entry>, b: seq<Entry>, c: seq<Entry>)
    requires Subsequence(a, b) && Subsequence(b, c)
    ensures Subsequence(a, c)
    decreases |b| + |c|
  {
    if a != [] {
      var b', c' := b[..|b| - 1], c[..|c| - 1];
      if b[|b| - 1] == c[|c| - 1] && Subsequence(b', c') {
        if a[|a| - 1] == b[|b| - 1] && Subsequence(a[..|a| - 1], b') {
          SubsequenceChains(a[..|a| - 1], b', c');
        } else {
          SubsequenceChains(a, b', c');
        }
      } else {
        SubsequenceChains(a, b, c');
      }
    }
  }

  lemma {:induction false} SubsequenceGrows(a: seq<Entry>, b: seq<Entry>, x: Entry)
    requires Subsequence(a, b)
    ensures Subsequence(a, b + [x]) && Subsequence(a + [x], b + [x])
  {
    assert (b + [x])[..|b|] == b && (a + [x])[..|a|] == a;
  }

  /** Replayed or not, what remains stashed is what was stashed before, in order and with its own handle. */
  lemma {:induction false} ExecuteKeepsOrder(agg: Aggregate, v: View, effect: Decision, replyTo: Option<Handle>)
    ensures Subsequence(Execute(agg, v, effect, replyTo).stashed, v.stashed)
    decreases |v.stashed|, 1, Length(effect)
  {
    match effect
    case Persist(events, andThen) => ExecuteKeepsOrder(agg, Persisted(agg, v, events), andThen, replyTo);
    case Run(sideEffect, andThen) => ExecuteKeepsOrder(agg, Performing(v, sideEffect), andThen, replyTo);
    case Snapshot(andThen) => ExecuteKeepsOrder(agg, Snapped(v), andThen, replyTo);
    case Unstash(andThen) =>
      var replayed := ProcessAll(agg, v.(stashed := []), v.stashed);
      ProcessAllKeepsOrder(agg, v.(stashed := []), v.stashed);
      assert [] + v.stashed == v.stashed;
      ExecuteKeepsOrder(agg, replayed, andThen, replyTo);
      SubsequenceChains(Execute(agg, replayed, andThen, replyTo).stashed, replayed.stashed, v.stashed);
    case _ => SubsequenceSelf(v.stashed);
  }

  /** A command leaves the stash as it was, less what was replayed, plus at most itself at the end. */
  lemma {:induction false} ProcessKeepsOrder(agg: Aggregate, v: View, command: Command, replyTo: Option<Handle>)
    ensures Subsequence(Process(agg, v, command, replyTo).stashed, v.stashed + [Entry(command, replyTo)])
    decreases |v.stashed|, 2, 0
  {
    var effect := agg.decide(Fold(agg, v.events), command);
    if effect.Stash? {
      SubsequenceSelf(v.stashed + [Entry(command, replyTo)]);
    } else {
      ExecuteKeepsOrder(agg, v, effect, replyTo);
      SubsequenceGrows(Execute(agg, v, effect, replyTo).stashed, v.stashed, Entry(command, replyTo));
    }
  }

  lemma {:induction false} ProcessAllKeepsOrder(agg: Aggregate, v: View, entries: seq<Entry>)
    ensures Subsequence(ProcessAll(agg, v, entries).stashed, v.stashed + entries)
    decreases |v.stashed| + |entries|, 0, |entries|
  {
    if entries == [] {
      assert v.stashed + entries == v.stashed;
      SubsequenceSelf(v.stashed);
    } else {
      var front, last := entries[..|entries| - 1], entries[|entries| - 1];
      var before := ProcessAll(agg, v, front);
      ProcessAllKeepsOrder(agg, v, front);
      ProcessKeepsOrder(agg, before, last.command, last.replyTo);
      OneMoreInOrder(ProcessAll(agg, v, entries).stashed, before.stashed, v.stashed, front, last);
      assert entries == front + [last];
    }
  }

  lemma OneMoreInOrder(after: seq<Entry>, before: seq<Entry>, stashed: seq<Entry>, front: seq<Entry>, last: Entry)
    requires Subsequence(after, before + [Entry(last.command, last.replyTo)]) && Subsequence(before, stashed + front)
    ensures Subsequence(after, stashed + (front + [last]))
  {
    SubsequenceGrows(before, stashed + front, last);
    SubsequenceChains(after, before + [last], stashed + front + [last]);
    Regroup(stashed, front, [last]);
  }

  // ---- Every ask is answered at most once ----

  function CountAnswers(answers: seq<Answer>, h: Handle): nat {
    if answers == [] then 0 else
      CountAnswers(answers[..|answers| - 1], h) + if answers[|answers| - 1].handle == h then 1 else 0
  }

  function CountStash(stashed: seq<Entry>, h: Handle): nat {
    if stashed == [] then 0 else
      CountStash(stashed[..|stashed| - 1], h) + if stashed[|stashed| - 1].replyTo == Some(h) then 1 else 0
  }

  function CountOpen(deferrals: seq<Deferral>, h: Handle): nat {
    if deferrals == [] then 0 else
      var last := deferrals[|deferrals| - 1];
      CountOpen(deferrals[..|deferrals| - 1], h) + if last.replyTo == Some(h) && !last.settled then 1 else 0
  }

  function CountAsks(mailbox: seq<Message>, h: Handle): nat {
    if mailbox == [] then 0 else
      var last := mailbox[|mailbox| - 1];
      CountAsks(mailbox[..|mailbox| - 1], h) + if last.Ask? && last.handle == h then 1 else 0
  }

  function For(replyTo: Option<Handle>, h: Handle): nat {
    if replyTo == Some(h) then 1 else 0
  }

  /** Answers given to an ask, and places from which one may still be given. */
  function Claims(v: View, h: Handle): nat {
    CountAnswers(v.answers, h) + CountStash(v.stashed, h) + CountOpen(v.deferrals, h) + CountAsks(v.mailbox, h)
  }

  lemma AnsweringClaims(v: View, replyTo: Option<Handle>, reply: Option<Answered>, h: Handle)
    ensures Claims(Answering(v, replyTo, reply), h) == Claims(v, h) + For(replyTo, h)
  {
    if replyTo.Some? {
      assert (v.answers + [Answer(replyTo.value, Replied(reply, |v.events|))])[..|v.answers|] == v.answers;
    }
  }

  /** Whether the chain answers its own ask, now or when the deferred completes. */
  predicate Answers(effect: Decision) {
    var end := Terminator(effect);
    end.Reply? || end.ReplyDeferred? || end.Done?
  }

  lemma EndedClaims(v: View, end: Decision, replyTo: Option<Handle>, h: Handle)
    requires end.Reply? || end.ReplyDeferred? || end.Stop? || end.Done?
    ensures Claims(Ended(v, end, replyTo), h) == Claims(v, h) + if end.Stop? then 0 else For(replyTo, h)
  {
    if end.Reply? || end.Done? {
      AnsweringClaims(v, replyTo, if end.Reply? then Some(end.value) else None, h);
    } else if end.ReplyDeferred? {
      assert (v.deferrals + [Deferral(end.deferred, replyTo, |v.events|, false)])[..|v.deferrals|] == v.deferrals;
    } else {
      assert (v.mailbox + [StopNow])[..|v.mailbox|] == v.mailbox;
    }
  }

  lemma {:induction false} ExecuteClaims(agg: Aggregate, v: View, effect: Decision, replyTo: Option<Handle>, h: Handle)
    ensures Claims(Execute(agg, v, effect, replyTo), h) <= Claims(v, h) + For(replyTo, h)
    ensures AlwaysAnswers(agg) && Answers(effect)
            ==> Claims(Execute(agg, v, effect, replyTo), h) == Claims(v, h) + For(replyTo, h)
    decreases |v.stashed|, 1, Length(effect)
  {
    if effect.Persist? {
      ExecuteClaims(agg, Persisted(agg, v, effect.events), effect.andThen, replyTo, h);
    } else if effect.Run? {
      ExecuteClaims(agg, Performing(v, effect.sideEffect), effect.andThen, replyTo, h);
    } else if effect.Snapshot? {
      ExecuteClaims(agg, Snapped(v), effect.andThen, replyTo, h);
    } else if effect.Unstash? {
      ReplayClaims(agg, v, h);
      ExecuteClaims(agg, ProcessAll(agg, v.(stashed := []), v.stashed), effect.andThen, replyTo, h);
    } else if !effect.Stash? {
      EndedClaims(v, effect, replyTo, h);
    }
  }

  /** Emptying the stash and replaying it. */
  lemma {:induction false} ReplayClaims(agg: Aggregate, v: View, h: Handle)
    ensures Claims(ProcessAll(agg, v.(stashed := []), v.stashed), h) <= Claims(v, h)
    ensures AlwaysAnswers(agg) ==> Claims(ProcessAll(agg, v.(stashed := []), v.stashed), h) == Claims(v, h)
    decreases |v.stashed|, 0, |v.stashed| + 1
  {
    ProcessAllClaims(agg, v.(stashed := []), v.stashed, h);
  }

  /** Every decision stashes outright or ends by answering. */
  ghost predicate AlwaysAnswers(agg: Aggregate) {
    forall state, command :: Settled(agg.decide(state, command))
  }

  predicate Settled(effect: Decision) {
    effect.Stash? || Answers(effect)
  }

  /** A command adds no claim but its own ask's; when decisions always answer, it loses none either. */
  lemma {:induction false} ProcessClaims(agg: Aggregate, v: View, command: Command, replyTo: Option<Handle>, h: Handle)
    ensures Claims(Process(agg, v, command, replyTo), h) <= Claims(v, h) + For(replyTo, h)
    ensures AlwaysAnswers(agg) ==> Claims(Process(agg, v, command, replyTo), h) == Claims(v, h) + For(replyTo, h)
    decreases |v.stashed|, 2, 0
  {
    var effect := agg.decide(Fold(agg, v.events), command);
    assert AlwaysAnswers(agg) ==> Settled(effect);
    if effect.Stash? {
      assert (v.stashed + [Entry(command, replyTo)])[..|v.stashed|] == v.stashed;
    } else {
      ExecuteClaims(agg, v, effect, replyTo, h);
    }
  }

  lemma {:induction false} ProcessAllClaims(agg: Aggregate, v: View, entries: seq<Entry>, h: Handle)
    ensures Claims(ProcessAll(agg, v, entries), h) <= Claims(v, h) + CountStash(entries, h)
    ensures AlwaysAnswers(agg) ==> Claims(ProcessAll(agg, v, entries), h) == Claims(v, h) + CountStash(entries, h)
    decreases |v.stashed| + |entries|, 0, |entries|
  {
    if entries != [] {
      var front, last := entries[..|entries| - 1], entries[|entries| - 1];
      ProcessAllClaims(agg, v, front, h);
      ProcessClaims(agg, ProcessAll(agg, v, front), last.command, last.replyTo, h);
    }
  }

  /** Broken off, a chain has not yet answered its own ask, and has won no claim for any. */
  lemma {:induction false} ExecuteBreaksClaims(agg: Aggregate, v: View, effect: Decision, replyTo: Option<Handle>,
                                               r: View, h: Handle)
    requires ExecuteBreaks(agg, v, effect, replyTo, r)
    ensures Claims(r, h) <= Claims(v, h)
    decreases |v.stashed|, 1, Length(effect), 1
  {
    if r != v {
      match effect
      case Persist(events, andThen) =>
          ExecuteBreaksClaims(agg, Persisted(agg, v, events), andThen, replyTo, r, h);
      case Run(sideEffect, andThen) =>
        if r != Performing(v, sideEffect) {
          ExecuteBreaksClaims(agg, Performing(v, sideEffect), andThen, replyTo, r, h);
        }
      case Snapshot(andThen) => ExecuteBreaksClaims(agg, Snapped(v), andThen, replyTo, r, h);
      case Unstash(andThen) => UnstashBreaksClaims(agg, v, andThen, replyTo, r, h);
    }
  }

  lemma {:induction false} UnstashBreaksClaims(agg: Aggregate, v: View, andThen: Decision, replyTo: Option<Handle>,
                                               r: View, h: Handle)
    requires ExecuteBreaks(agg, v, Unstash(andThen), replyTo, r)
    ensures Claims(r, h) <= Claims(v, h)
    decreases |v.stashed|, 1, Length(andThen) + 1, 0
  {
    if ReplayBreaks(agg, v.(stashed := []), v.stashed, r) {
      ReplayBreaksClaims(agg, v.(stashed := []), v.stashed, r, h);
    } else {
      ReplayClaims(agg, v, h);
      ExecuteBreaksClaims(agg, ProcessAll(agg, v.(stashed := []), v.stashed), andThen, replyTo, r, h);
    }
  }

  lemma {:induction false} ProcessBreaksClaims(agg: Aggregate, v: View, command: Command, replyTo: Option<Handle>,
                                               r: View, h: Handle)
    requires ProcessBreaks(agg, v, command, replyTo, r)
    ensures Claims(r, h) <= Claims(v, h)
    decreases |v.stashed|, 2, 0, 0
  {
    if r != v {
      ExecuteBreaksClaims(agg, v, agg.decide(Fold(agg, v.events), command), replyTo, r, h);
    }
  }

  lemma {:induction false} ReplayBreaksClaims(agg: Aggregate, v: View, entries: seq<Entry>, r: View, h: Handle)
    requires ReplayBreaks(agg, v, entries, r)
    ensures Claims(r, h) <= Claims(v, h) + CountStash(entries, h)
    decreases |v.stashed| + |entries|, 0, |entries|, 0
  {
    var front, last := entries[..|entries| - 1], entries[|entries| - 1];
    if ReplayBreaks(agg, v, front, r) {
      ReplayBreaksClaims(agg, v, front, r, h);
    } else {
      ProcessAllClaims(agg, v, front, h);
      ProcessBreaksClaims(agg, ProcessAll(agg, v, front), last.command, last.replyTo, r, h);
    }
  }

  // ---- When an ask is lost ----

  /** A chain that ends in Stop, or in Stash behind other effects, leaves its own ask without an answer. */
  predicate Loses(effect: Decision) {
    Terminator(effect).Stop? || (Terminator(effect).Stash? && effect != Stash)
  }

  /** The handle is not stashed, before or after, and neither wins nor loses a claim. */
  ghost predicate Untouched(before: View, after: View, h: Handle) {
    Claims(after, h) == Claims(before, h) && CountStash(before.stashed, h) == 0 && CountStash(after.stashed, h) == 0
  }

  /** Whatever others do, replays of a stash without the handle included, the handle is left alone. */
  lemma {:induction false} ExecuteOther(agg: Aggregate, v: View, effect: Decision, replyTo: Option<Handle>, h: Handle)
    requires CountStash(v.stashed, h) == 0 && replyTo != Some(h)
    ensures Untouched(v, Execute(agg, v, effect, replyTo), h)
    decreases |v.stashed|, 1, Length(effect)
  {
    match effect
    case Persist(events, andThen) => ExecuteOther(agg, Persisted(agg, v, events), andThen, replyTo, h);
    case Run(sideEffect, andThen) => ExecuteOther(agg, Performing(v, sideEffect), andThen, replyTo, h);
    case Snapshot(andThen) => ExecuteOther(agg, Snapped(v), andThen, replyTo, h);
    case Unstash(andThen) =>
      ReplayOther(agg, v, h);
      ExecuteOther(agg, ProcessAll(agg, v.(stashed := []), v.stashed), andThen, replyTo, h);
    case Stash =>
    case _ => EndedClaims(v, effect, replyTo, h);
  }

  lemma {:induction false} ReplayOther(agg: Aggregate, v: View, h: Handle)
    requires CountStash(v.stashed, h) == 0
    ensures Untouched(v, ProcessAll(agg, v.(stashed := []), v.stashed), h)
    decreases |v.stashed|, 0, |v.stashed| + 1
  {
    ProcessAllOther(agg, v.(stashed := []), v.stashed, h);
  }

  lemma {:induction false} ProcessOther(agg: Aggregate, v: View, command: Command, replyTo: Option<Handle>, h: Handle)
    requires CountStash(v.stashed, h) == 0 && replyTo != Some(h)
    ensures Untouched(v, Process(agg, v, command, replyTo), h)
    decreases |v.stashed|, 2, 0
  {
    var effect := agg.decide(Fold(agg, v.events), command);
    if effect.Stash? {
      assert (v.stashed + [Entry(command, replyTo)])[..|v.stashed|] == v.stashed;
    } else {
      ExecuteOther(agg, v, effect, replyTo, h);
    }
  }

  lemma {:induction false} ProcessAllOther(agg: Aggregate, v: View, entries: seq<Entry>, h: Handle)
    requires CountStash(v.stashed, h) == 0 && CountStash(entries, h) == 0
    ensures Untouched(v, ProcessAll(agg, v, entries), h)
    decreases |v.stashed| + |entries|, 0, |entries|
  {
    if entries != [] {
      var front, last := entries[..|entries| - 1], entries[|entries| - 1];
      ProcessAllOther(agg, v, front, h);
      ProcessOther(agg, ProcessAll(agg, v, front), last.command, last.replyTo, h);
    }
  }

  lemma {:induction false} ExecuteOwn(agg: Aggregate, v: View, effect: Decision, h: Handle)
    requires CountStash(v.stashed, h) == 0
    ensures var r := Execute(agg, v, effect, Some(h));
            && Claims(r, h) == Claims(v, h) + (if Terminator(effect).Stop? || Terminator(effect).Stash? then 0 else 1)
            && CountStash(r.stashed, h) == 0
    decreases effect
  {
    match effect
    case Persist(events, andThen) => ExecuteOwn(agg, Persisted(agg, v, events), andThen, h);
    case Run(sideEffect, andThen) => ExecuteOwn(agg, Performing(v, sideEffect), andThen, h);
    case Snapshot(andThen) => ExecuteOwn(agg, Snapped(v), andThen, h);
    case Unstash(andThen) =>
      ReplayOther(agg, v, h);
      ExecuteOwn(agg, ProcessAll(agg, v.(stashed := []), v.stashed), andThen, h);
    case Stash =>
    case _ => EndedClaims(v, effect, Some(h), h);
  }

  /** Whatever else is stashed and replayed, an ask is lost exactly when its chain ends in Stop, or in Stash behind
      other effects; it is stashed exactly when the decision is Stash itself. */
  lemma LosesAskIff(agg: Aggregate, v: View, command: Command, h: Handle)
    requires CountStash(v.stashed, h) == 0
    ensures var effect, r := agg.decide(Fold(agg, v.events), command), Process(agg, v, command, Some(h));
            && (Claims(r, h) == Claims(v, h) <==> Loses(effect))
            && (Claims(r, h) == Claims(v, h) + 1 <==> !Loses(effect))
            && CountStash(r.stashed, h) == if effect == Stash then 1 else 0
  {
    var effect := agg.decide(Fold(agg, v.events), command);
    if effect.Stash? {
      assert (v.stashed + [Entry(command, Some(h))])[..|v.stashed|] == v.stashed;
    } else {
      ExecuteOwn(agg, v, effect, h);
    }
  }

  lemma {:induction false} StashAround(entries: seq<Entry>, i: nat, h: Handle)
    requires i < |entries|
    ensures CountStash(entries, h) == CountStash(entries[..i], h) + For(entries[i].replyTo, h)
            + CountStash(entries[i + 1..], h)
    decreases |entries|
  {
    var front := entries[..|entries| - 1];
    if i == |front| {
      assert entries[i + 1..] == [];
    } else {
      StashAround(front, i, h);
      assert front[..i] == entries[..i] && front[i + 1..] == entries[i + 1..][..|entries| - i - 2];
    }
  }

  lemma {:induction false} ProcessAllConcat(agg: Aggregate, v: View, a: seq<Entry>, b: seq<Entry>)
    ensures ProcessAll(agg, v, a + b) == ProcessAll(agg, ProcessAll(agg, v, a), b)
  {
    if b == [] {
      assert a + b == a;
    } else {
      ProcessAllConcat(agg, v, a, b[..|b| - 1]);
      assert (a + b)[..|a + b| - 1] == a + b[..|b| - 1];
    }
  }

  /** A stashed ask is lost by a replay exactly when its decision, at the state the entries before it have led to,
      loses it; unless it is stashed anew, the rest of the replay leaves it alone. */
  lemma StashedAskLostIff(agg: Aggregate, v: View, i: nat, h: Handle)
    requires i < |v.stashed| && v.stashed[i].replyTo == Some(h) && CountStash(v.stashed, h) == 1
    ensures var start, entry := v.(stashed := []), v.stashed[i];
            var before, after := ProcessAll(agg, start, v.stashed[..i]), ProcessAll(agg, start, v.stashed[..i + 1]);
            var effect := agg.decide(Fold(agg, before.events), entry.command);
            && (Claims(after, h) == Claims(v, h) - 1 <==> Loses(effect))
            && (Claims(after, h) == Claims(v, h) <==> !Loses(effect))
            && (effect != Stash ==> Claims(ProcessAll(agg, start, v.stashed), h) == Claims(after, h))
  {
    var start, entry := v.(stashed := []), v.stashed[i];
    StashAround(v.stashed, i, h);
    ProcessAllOther(agg, start, v.stashed[..i], h);
    var before := ProcessAll(agg, start, v.stashed[..i]);
    assert v.stashed[..i + 1][..i] == v.stashed[..i];
    LosesAskIff(agg, before, entry.command, h);
    if agg.decide(Fold(agg, before.events), entry.command) != Stash {
      RestLeavesAlone(agg, start, v.stashed, i + 1, h);
    }
  }

  lemma RestLeavesAlone(agg: Aggregate, start: View, entries: seq<Entry>, n: nat, h: Handle)
    requires n <= |entries| && CountStash(entries[n..], h) == 0
    requires CountStash(ProcessAll(agg, start, entries[..n]).stashed, h) == 0
    ensures Claims(ProcessAll(agg, start, entries), h) == Claims(ProcessAll(agg, start, entries[..n]), h)
  {
    ProcessAllOther(agg, ProcessAll(agg, start, entries[..n]), entries[n..], h);
    ProcessAllConcat(agg, start, entries[..n], entries[n..]);
    assert entries[..n] + entries[n..] == entries;
  }

  // ---- Runs ----

  function ReplyTo(message: Message): Option<Handle> {
    if message.Ask? then Some(message.handle) else None
  }

  /** The front message handled without a crash. */
  function Delivered(agg: Aggregate, v: View): View
    requires v.mailbox != []
  {
    var v', message := v.(mailbox := v.mailbox[1..]), v.mailbox[0];
    if message.StopNow? then v' else Process(agg, v', message.command, ReplyTo(message))
  }

  /** The asker in hand learns of the failure. */
  function Failed(v: View, message: Message): View {
    if message.Ask? then v.(answers := v.answers + [Answer(message.handle, Failure)]) else v
  }

  /** Handling the front message broke off somewhere. */
  ghost predicate DeliveryBreaks(agg: Aggregate, v: View, r: View)
    requires v.mailbox != []
  {
    var v', message := v.(mailbox := v.mailbox[1..]), v.mailbox[0];
    !message.StopNow? && exists broken :: ProcessBreaks(agg, v', message.command, ReplyTo(message), broken)
                                          && r == Failed(broken, message)
  }

  lemma DeliveryBreaksClaims(agg: Aggregate, v: View, r: View, h: Handle)
    requires v.mailbox != [] && DeliveryBreaks(agg, v, r)
    ensures Claims(r, h) <= Claims(v, h)
  {
    var v', message := v.(mailbox := v.mailbox[1..]), v.mailbox[0];
    var broken :| ProcessBreaks(agg, v', message.command, ReplyTo(message), broken) && r == Failed(broken, message);
    AsksInFront(v.mailbox, h);
    ProcessBreaksClaims(agg, v', message.command, ReplyTo(message), broken, h);
    if message.Ask? {
      assert r.answers[..|broken.answers|] == broken.answers;
    }
  }

  lemma {:induction false} AsksInFront(mailbox: seq<Message>, h: Handle)
    requires mailbox != []
    ensures CountAsks(mailbox, h) == CountAsks(mailbox[1..], h) + if mailbox[0].Ask? && mailbox[0].handle == h then 1
            else 0
  {
    if |mailbox| > 1 {
      AsksInFront(mailbox[..|mailbox| - 1], h);
      assert mailbox[..|mailbox| - 1][1..] == mailbox[1..][..|mailbox| - 2];
    }
  }

  lemma DeliveredClaims(agg: Aggregate, v: View, h: Handle)
    requires v.mailbox != []
    ensures Claims(Delivered(agg, v), h) <= Claims(v, h)
    ensures AlwaysAnswers(agg) ==> Claims(Delivered(agg, v), h) == Claims(v, h)
  {
    AsksInFront(v.mailbox, h);
    var v', message := v.(mailbox := v.mailbox[1..]), v.mailbox[0];
    if !message.StopNow? {
      ProcessClaims(agg, v', message.command, ReplyTo(message), h);
    }
  }

  /** The first of timeout and completion answers, the second finds the deferral settled. */
  function Resolved(v: View, i: nat, completion: Option<Answered>): View
    requires i < |v.deferrals|
  {
    var d := v.deferrals[i];
    if d.settled then v else
      var v' := v.(deferrals := v.deferrals[i := d.(settled := true)]);
      if d.replyTo.None? then v' else v'.(answers := v.answers + [Answer(d.replyTo.value, OutcomeOf(d, completion))])
  }

  /** No completion is a timeout; a reply carries the number the deferral was made at. */
  function OutcomeOf(d: Deferral, completion: Option<Answered>): Outcome {
    if completion.None? then TimedOut else Replied(completion, d.sequenceNr)
  }

  lemma {:induction false} SettlingCounts(deferrals: seq<Deferral>, i: nat, h: Handle)
    requires i < |deferrals| && !deferrals[i].settled
    ensures CountOpen(deferrals[i := deferrals[i].(settled := true)], h) + For(deferrals[i].replyTo, h)
            == CountOpen(deferrals, h)
  {
    var front := deferrals[..|deferrals| - 1];
    var settled := deferrals[i := deferrals[i].(settled := true)];
    if i < |front| {
      SettlingCounts(front, i, h);
      assert settled[..|settled| - 1] == front[i := front[i].(settled := true)];
    } else {
      assert settled[..|settled| - 1] == front;
    }
  }

  lemma ResolvedClaims(v: View, i: nat, completion: Option<Answered>, h: Handle)
    requires i < |v.deferrals|
    ensures Claims(Resolved(v, i, completion), h) == Claims(v, h)
  {
    var d := v.deferrals[i];
    if !d.settled {
      SettlingCounts(v.deferrals, i, h);
      if d.replyTo.Some? {
        assert Resolved(v, i, completion).answers[..|v.answers|] == v.answers;
      }
    }
  }

  /** The asks still queued fail when the runner terminates. */
  function Failures(mailbox: seq<Message>): seq<Answer> {
    if mailbox == [] then [] else
      var last := mailbox[|mailbox| - 1];
      Failures(mailbox[..|mailbox| - 1]) + if last.Ask? then [Answer(last.handle, Failure)] else []
  }

  function Terminated(v: View): View {
    v.(mailbox := [], answers := v.answers + Failures(v.mailbox))
  }

  lemma {:induction false} FailuresCount(answers: seq<Answer>, mailbox: seq<Message>, h: Handle)
    ensures CountAnswers(answers + Failures(mailbox), h) == CountAnswers(answers, h) + CountAsks(mailbox, h)
  {
    if mailbox == [] {
      assert answers + Failures(mailbox) == answers;
    } else {
      var front, last := mailbox[..|mailbox| - 1], mailbox[|mailbox| - 1];
      FailuresCount(answers, front, h);
      if last.Ask? {
        assert (answers + Failures(mailbox))[..|answers + Failures(mailbox)| - 1] == answers + Failures(front);
      } else {
        assert Failures(mailbox) == Failures(front);
      }
    }
  }

  /** Terminating answers every queued ask; only stashed asks and open deferrals are left without answer. */
  lemma TerminatedClaims(v: View, h: Handle)
    ensures Claims(Terminated(v), h) == Claims(v, h) && CountAsks(Terminated(v).mailbox, h) == 0
    ensures CountAnswers(Terminated(v).answers, h) == CountAnswers(v.answers, h) + CountAsks(v.mailbox, h)
  {
    FailuresCount(v.answers, v.mailbox, h);
  }

  // ---- What the answers say ----

  /** A plain chain answers its own ask, and no other, with the value or nothing and the number of events there are
      then; a deferred reply remembers that number, and Stop only stops. */
  lemma PlainAnswers(agg: Aggregate, v: View, effect: Decision, h: Handle)
    requires Plain(effect)
    ensures var r, n := Execute(agg, v, effect, Some(h)), |v.events| + |ExtractEvents(effect)|;
            match Terminator(effect)
            case Reply(value) => r.answers == v.answers + [Answer(h, Replied(Some(value), n))]
            case Done => r.answers == v.answers + [Answer(h, Replied(None, n))]
            case ReplyDeferred(deferred) =>
              r.answers == v.answers && r.deferrals == v.deferrals + [Deferral(deferred, Some(h), n, false)]
            case _ => r.answers == v.answers && r.mailbox == v.mailbox + [StopNow]
  {
    PlainExecutes(agg, v, effect, Some(h));
    PlainTerminates(effect);
  }

  lemma {:induction false} PlainTerminates(effect: Decision)
    requires Plain(effect)
    ensures Terminator(effect).Reply? || Terminator(effect).ReplyDeferred? || Terminator(effect).Stop?
            || Terminator(effect).Done?
  {
    if effect.Persist? || effect.Run? || effect.Snapshot? {
      PlainTerminates(effect.andThen);
    }
  }

  /** An open deferred ask is answered by the first completion, with its value and the number remembered, or by the
      timeout; whatever comes second changes nothing. */
  lemma ResolvedOnce(v: View, i: nat, first: Option<Answered>, second: Option<Answered>)
    requires i < |v.deferrals| && !v.deferrals[i].settled && v.deferrals[i].replyTo.Some?
    ensures var d, r := v.deferrals[i], Resolved(v, i, first);
            && r.answers == v.answers + [Answer(d.replyTo.value, if first.Some? then Replied(first, d.sequenceNr)
                                                                 else TimedOut)]
            && Resolved(r, i, second) == r
  {
  }

  /** The asker in hand learns of a crash last. */
  lemma CrashTellsAsker(agg: Aggregate, v: View, r: View)
    requires v.mailbox != [] && v.mailbox[0].Ask? && DeliveryBreaks(agg, v, r)
    ensures r.answers != [] && r.answers[|r.answers| - 1] == Answer(v.mailbox[0].handle, Failure)
  {
  }

  datatype Step =
    | Offers(message: Message)
    | Delivers
    | Crashes
    | Dies
    | Recovers(history: seq<Event>)
    | Terminates
    | Resolves(i: nat, completion: Option<Answered>)

  /** A crash breaks a delivery off wherever it is; with the process everything in memory dies; the next incarnation has
      replayed the journal, which may hold more than the last one had folded, and has nothing stashed. */
  ghost predicate Next(agg: Aggregate, v: View, step: Step, v': View) {
    match step
    case Offers(message) => v' == v.(mailbox := v.mailbox + [message])
    case Delivers => v.mailbox != [] && v' == Delivered(agg, v)
    case Crashes => v.mailbox != [] && DeliveryBreaks(agg, v, v')
    case Dies => v' == v.(stashed := [], deferrals := [], mailbox := [])
    case Recovers(history) =>
      v.events <= history && v' == v.(events := history, stashed := [], snapshots := [], sinceSnapshot := 0)
    case Terminates => v' == Terminated(v)
    case Resolves(i, completion) => i < |v.deferrals| && v' == Resolved(v, i, completion)
  }

  predicate Loss(step: Step) {
    step.Crashes? || step.Dies? || step.Recovers?
  }

  function Offered(step: Step, h: Handle): nat {
    if step.Offers? && step.message.Ask? && step.message.handle == h then 1 else 0
  }

  function OfferedIn(steps: seq<Step>, h: Handle): nat {
    if steps == [] then 0 else OfferedIn(steps[..|steps| - 1], h) + Offered(steps[|steps| - 1], h)
  }

  lemma StepClaims(agg: Aggregate, v: View, step: Step, v': View, h: Handle)
    requires Next(agg, v, step, v')
    ensures Claims(v', h) <= Claims(v, h) + Offered(step, h)
    ensures AlwaysAnswers(agg) && !Loss(step) ==> Claims(v', h) == Claims(v, h) + Offered(step, h)
  {
    match step
    case Offers(message) => assert (v.mailbox + [message])[..|v.mailbox|] == v.mailbox;
    case Delivers => DeliveredClaims(agg, v, h);
    case Crashes => DeliveryBreaksClaims(agg, v, v', h);
    case Dies =>
    case Recovers(_) =>
    case Terminates => TerminatedClaims(v, h);
    case Resolves(i, completion) => ResolvedClaims(v, i, completion, h);
  }

  ghost predicate StepAt(agg: Aggregate, run: seq<View>, steps: seq<Step>, i: nat)
    requires |run| == |steps| + 1 && i < |steps|
  {
    Next(agg, run[i], steps[i], run[i + 1])
  }

  ghost predicate IsRun(agg: Aggregate, run: seq<View>, steps: seq<Step>) {
    && |run| == |steps| + 1 && (forall h :: Claims(run[0], h) == 0)
    && forall i: nat | i < |steps| :: StepAt(agg, run, steps, i)
  }

  /** Whatever is offered, resolved, stashed, replayed or crashed, an ask offered once is answered at most once;
      without crashes, and with decisions that always answer, every ask is accounted for. */
  lemma {:induction false} AnsweredAtMostOnce(agg: Aggregate, run: seq<View>, steps: seq<Step>, i: nat, h: Handle)
    requires IsRun(agg, run, steps) && i <= |steps|
    ensures CountAnswers(run[i].answers, h) <= Claims(run[i], h) <= OfferedIn(steps[..i], h)
    ensures AlwaysAnswers(agg) && (forall j | 0 <= j < i :: !Loss(steps[j]))
            ==> Claims(run[i], h) == OfferedIn(steps[..i], h)
  {
    if i > 0 {
      AnsweredAtMostOnce(agg, run, steps, i - 1, h);
      assert StepAt(agg, run, steps, i - 1);
      assert steps[..i][..i - 1] == steps[..i - 1];
      StepClaims(agg, run[i - 1], steps[i - 1], run[i], h);
    }
  }

  // ---- Asks without an answer ----

  /** Every command gets the same decision. */
  function Always(initial: State, effect: Decision): Aggregate {
    Aggregate(initial, (state, event) => state, (state, command) => effect, 0)
  }

  const NOTHING_SEEN := View([], [], [], [], [], [], 0, [])


  /** An ask is decided with Stop: the runner stops, and nothing is left that could answer it. */
  lemma StopLosesAsk(initial: State, command: Command, h: Handle) returns (run: seq<View>, steps: seq<Step>)
    ensures IsRun(Always(initial, Stop), run, steps) && steps == [Offers(Ask(command, h)), Delivers, Delivers]
    ensures Claims(run[1], h) == 1 && Claims(run[2], h) == 0 && run[3] == NOTHING_SEEN
  {
    steps := [Offers(Ask(command, h)), Delivers, Delivers];
    var asked := NOTHING_SEEN.(mailbox := [Ask(command, h)]);
    var stopping := NOTHING_SEEN.(mailbox := [StopNow]);
    run := [NOTHING_SEEN, asked, stopping, NOTHING_SEEN];
    assert CountAsks([Ask(command, h)][..0], h) == 0 && CountAsks([StopNow][..0], h) == 0;
    assert [] + [Ask(command, h)] == [Ask(command, h)] && [Ask(command, h)][1..] == [] && [StopNow][1..] == [];
    forall i: nat | i < |steps| ensures StepAt(Always(initial, Stop), run, steps, i) {
      assert i == 0 || i == 1 || i == 2;
    }
  }

  /** A first ask is stashed and a second queued when the runner terminates: the second fails, the first stays
      open. */
  lemma TerminationLeavesStashed(initial: State, command: Command, a: Handle, b: Handle)
      returns (run: seq<View>, steps: seq<Step>)
    requires a != b
    ensures IsRun(Always(initial, Stash), run, steps)
    ensures steps == [Offers(Ask(command, a)), Delivers, Offers(Ask(command, b)), Terminates]
    ensures run[4] == NOTHING_SEEN.(stashed := [Entry(command, Some(a))], answers := [Answer(b, Failure)])
    ensures CountAnswers(run[4].answers, a) == 0 && CountStash(run[4].stashed, a) == 1
  {
    steps := [Offers(Ask(command, a)), Delivers, Offers(Ask(command, b)), Terminates];
    var held := NOTHING_SEEN.(stashed := [Entry(command, Some(a))]);
    run := [NOTHING_SEEN, NOTHING_SEEN.(mailbox := [Ask(command, a)]), held,
            held.(mailbox := [Ask(command, b)]), held.(answers := [Answer(b, Failure)])];
    assert [] + [Ask(command, a)] == [Ask(command, a)] && [Ask(command, a)][1..] == [];
    assert Failures([Ask(command, b)][..0]) == [] && Failures([Ask(command, b)]) == [] + [Answer(b, Failure)]
        == [Answer(b, Failure)];
    forall i: nat | i < |steps| ensures StepAt(Always(initial, Stash), run, steps, i) {
      assert i == 0 || i == 1 || i == 2 || i == 3;
    }
  }
}
