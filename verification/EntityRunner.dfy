/** The entity runner: one incarnation of an entity over its journal (src/inmem/entity-runner.ts).
    A result `crashed` stands for a throw or for the death of the process at that point. */
module EntityRunner {
  import opened Prelude
  import opened Effects
  import opened Aggregates
  import opened InMemJournal
  import opened EntityEffects

  // ---- What the journal holds ----

  ghost predicate SoundLog(log: Log, codec: Codec<Event>) {
    Numbered(log) && DecodeAll(log, codec).Some?
  }

  function EventsOf(log: Log, codec: Codec<Event>): seq<Event> {
    if DecodeAll(log, codec).Some? then DecodeAll(log, codec).value else []
  }

  lemma EventsLength(log: Log, codec: Codec<Event>)
    requires SoundLog(log, codec)
    ensures |EventsOf(log, codec)| == |log|
  {
    DecodeLength(log, codec);
  }

  /** A snapshot that decodes is the fold at its own number. */
  ghost predicate SoundSnapshot(agg: Aggregate, codec: Codec<State>, snapshot: StoredSnapshot, events: seq<Event>) {
    && snapshot.sequenceNr <= |events|
    && codec.decode(snapshot.manifest, snapshot.data) in {None, Some(Fold(agg, events[..snapshot.sequenceNr]))}
  }

  /** An incarnation that has seen the first `n` events. */
  ghost predicate Behind(agg: Aggregate, events: seq<Event>, state: State, n: nat) {
    n <= |events| && state == Fold(agg, events[..n])
  }

  lemma AppendedIsSound(log: Log, events: seq<Event>, globalSeq: nat, codec: Codec<Event>)
    requires SoundLog(log, codec) && Lawful(codec)
    ensures var log' := log + Stored(events, |log|, globalSeq, codec);
            SoundLog(log', codec) && EventsOf(log', codec) == EventsOf(log, codec) + events
  {
    StoredDecodes(events, |log|, globalSeq, codec);
    DecodeConcat(log, Stored(events, |log|, globalSeq, codec), codec);
  }

  /** Later events of others leave an incarnation and a snapshot where they were. */
  lemma BehindExtends(agg: Aggregate, events: seq<Event>, more: seq<Event>, state: State, n: nat)
    requires Behind(agg, events, state, n)
    ensures Behind(agg, events + more, state, n) && (events + more)[..n] == events[..n]
  {
    assert (events + more)[..n] == events[..n];
  }

  lemma SnapshotExtends(agg: Aggregate, codec: Codec<State>, snapshot: StoredSnapshot, events: seq<Event>,
                        more: seq<Event>)
    requires SoundSnapshot(agg, codec, snapshot, events)
    ensures SoundSnapshot(agg, codec, snapshot, events + more)
  {
    assert (events + more)[..snapshot.sequenceNr] == events[..snapshot.sequenceNr];
  }

  lemma AdvancedIsCurrent(agg: Aggregate, events: seq<Event>, more: seq<Event>, state: State)
    requires Behind(agg, events, state, |events|)
    ensures Behind(agg, events + more, Replay(agg, state, more), |events| + |more|)
    ensures (events + more)[..|events| + |more|] == events[..|events|] + more
  {
    assert events[..|events|] == events && (events + more)[..|events| + |more|] == events + more;
    ReplayConcat(agg, agg.initial, events, more);
  }

  /** Replaying what follows a snapshot, or everything without one, gives the fold of everything. */
  lemma ReplayFromPrefix(agg: Aggregate, log: Log, codec: Codec<Event>, n: nat)
    requires SoundLog(log, codec) && n <= |log|
    ensures var events := EventsOf(log, codec);
            && |events| == |log|
            && DecodeAll(After(log, n), codec) == Some(events[n..])
            && Replay(agg, Fold(agg, events[..n]), events[n..]) == Fold(agg, events)
  {
    var events := EventsOf(log, codec);
    AfterIsSuffix(log, n);
    assert log == log[..n] + log[n..];
    DecodeParts(log[..n], log[n..], codec);
    DecodeLength(log, codec);
    assert events == events[..n] + events[n..];
    ReplayConcat(agg, agg.initial, events[..n], events[n..]);
  }

  lemma ReplayCompletes(agg: Aggregate, log: Log, codec: Codec<Event>, start: State, from: nat)
    requires SoundLog(log, codec) && Behind(agg, EventsOf(log, codec), start, from)
    ensures var events, later := EventsOf(log, codec), DecodeAll(After(log, from), codec);
            later.Some? && Replay(agg, start, later.value) == Fold(agg, events) && from + |later.value| == |events|
  {
    EventsLength(log, codec);
    ReplayFromPrefix(agg, log, codec, from);
  }

  lemma LaterNumbers(log: Log, from: nat)
    requires Numbered(log) && from <= |log|
    ensures var numbers := Numbers(After(log, from));
            |numbers| == |log| - from && forall i | 0 <= i < |numbers| :: numbers[i] == from + i + 1
  {
    AfterIsSuffix(log, from);
  }

  lemma AllDecode(log: Log, codec: Codec<Event>)
    requires SoundLog(log, codec)
    ensures forall i | 0 <= i < |log| :: Decodes(log[i], codec)
  {
    DecodedAt(log, codec);
  }

  /** Replaying what was loaded gives the fold of the whole history, at its number. */
  lemma LoadedReplays(agg: Aggregate, log: Log, codec: Codec<Event>, start: State, from: nat, events: seq<Event>,
                      numbers: seq<nat>)
    requires SoundLog(log, codec) && from <= |log| && Behind(agg, EventsOf(log, codec), start, from)
    requires AreAbove(log, from, codec, events, numbers)
    ensures Replay(agg, start, events) == Fold(agg, EventsOf(log, codec)) && from + |events| == |EventsOf(log, codec)|
    ensures Behind(agg, EventsOf(log, codec), Replay(agg, start, events), from + |events|)
  {
    AfterIsSuffix(log, from);
    DecodedAll(log[from..], codec, events);
    ReplayCompletes(agg, log, codec, start, from);
    assert EventsOf(log, codec)[..|EventsOf(log, codec)|] == EventsOf(log, codec);
  }

  // ---- Steps of the interpretation ----

  lemma NextEntry(agg: Aggregate, v: View, entries: seq<Entry>, i: nat)
    requires i < |entries|
    ensures ProcessAll(agg, v, entries[..i + 1])
            == Process(agg, ProcessAll(agg, v, entries[..i]), entries[i].command, entries[i].replyTo)
  {
    assert entries[..i + 1][..i] == entries[..i];
  }

  /** The history only grows; a stale incarnation leaves it alone; a current one stays current unless it crashes. */
  predicate Progress(history: seq<Event>, n: nat, history': seq<Event>, n': nat, crashed: bool) {
    && history <= history'
    && (n < |history| ==> history' == history && n' == n)
    && (n == |history| && !crashed ==> n' == |history'|)
  }

  lemma ProgressChains(history: seq<Event>, n: nat, history': seq<Event>, n': nat, history'': seq<Event>, n'': nat,
                       crashed: bool)
    requires n <= |history| && n' <= |history'|
    requires Progress(history, n, history', n', false) && Progress(history', n', history'', n'', crashed)
    ensures Progress(history, n, history'', n'', crashed)
  {
  }

  lemma SeenAfter(agg: Aggregate, history: seq<Event>, events: seq<Event>, state: State, n: nat)
    requires Behind(agg, history, state, n) && (events == [] || n == |history|)
    ensures Behind(agg, history + events, Replay(agg, state, events), n + |events|)
    ensures (history + events)[..n + |events|] == history[..n] + events
  {
    if events == [] {
      assert history + events == history && history[..n] + events == history[..n];
    } else {
      AdvancedIsCurrent(agg, history, events, state);
    }
  }

  lemma WroteProgress(history: seq<Event>, n: nat, events: seq<Event>)
    requires n <= |history| && (events == [] || n == |history|)
    ensures Progress(history, n, history + events, n + |events|, false)
            && Progress(history, n, history + events, n, true)
  {
    if events == [] {
      assert history + events == history;
    }
  }

  /** The written history can be folded into the state, and either outcome is progress. */
  ghost predicate Foldable(agg: Aggregate, history: seq<Event>, events: seq<Event>, state: State, n: nat,
                           history': seq<Event>)
  {
    && n <= |history| && Behind(agg, history', Replay(agg, state, events), n + |events|)
    && history'[..n + |events|] == history[..n] + events
    && Progress(history, n, history', n + |events|, false) && Progress(history, n, history', n, true)
  }

  lemma WrittenIsFoldable(agg: Aggregate, history: seq<Event>, events: seq<Event>, state: State, n: nat)
    requires Behind(agg, history, state, n) && (events == [] || n == |history|)
    ensures Foldable(agg, history, events, state, n, history + events)
  {
    SeenAfter(agg, history, events, state, n);
    WroteProgress(history, n, events);
  }

  /** The snapshot of the fold at `n`. */
  function EncodedAt(agg: Aggregate, codec: Codec<State>, history: seq<Event>, n: nat): StoredSnapshot
    requires n <= |history|
  {
    var state := Fold(agg, history[..n]);
    StoredSnapshot(n, codec.manifest(state), codec.encode(state))
  }

  /** What was stored before is still stored, but for the entity's snapshot when new ones were taken: that is the fold
      at the last number. */
  ghost predicate Follows(agg: Aggregate, codec: Codec<State>, key: Key, before: seq<nat>,
                          stored: map<Key, StoredSnapshot>, after: seq<nat>, stored': map<Key, StoredSnapshot>,
                          history: seq<Event>)
  {
    && before <= after
    && if before == after then stored' == stored else
         var n := after[|after| - 1];
         n <= |history| && stored' == stored[key := EncodedAt(agg, codec, history, n)]
  }

  lemma FollowsChains(agg: Aggregate, codec: Codec<State>, key: Key, a: seq<nat>, stored: map<Key, StoredSnapshot>,
                      b: seq<nat>, stored': map<Key, StoredSnapshot>, history: seq<Event>, c: seq<nat>,
                      stored'': map<Key, StoredSnapshot>, history': seq<Event>)
    requires Follows(agg, codec, key, a, stored, b, stored', history) && history <= history'
    requires Follows(agg, codec, key, b, stored', c, stored'', history')
    ensures Follows(agg, codec, key, a, stored, c, stored'', history')
  {
    if b == c && a != b {
      var n := b[|b| - 1];
      assert history'[..n] == history[..n];
    }
  }

  class Runner {
    const agg: Aggregate
    const key: Key
    const journal: Journal
    const eventCodec: Codec<Event>
    const stateCodec: Codec<State>
    var state: State
    var sequenceNr: nat
    var stashed: seq<Entry>
    var eventsSinceSnapshot: nat
    var answers: seq<Answer>
    var deferrals: seq<Deferral>
    var mailbox: seq<Message>
    var snapshots: seq<nat>
    var performed: seq<Performed>

    constructor (agg: Aggregate, key: Key, journal: Journal, eventCodec: Codec<Event>, stateCodec: Codec<State>)
      ensures this.agg == agg && this.key == key && this.journal == journal && this.eventCodec == eventCodec
              && this.stateCodec == stateCodec
      ensures state == agg.initial && sequenceNr == 0 && eventsSinceSnapshot == 0
      ensures stashed == [] && answers == [] && deferrals == [] && mailbox == [] && snapshots == []
              && performed == []
    {
      this.agg, this.key, this.journal, this.eventCodec, this.stateCodec := agg, key, journal, eventCodec, stateCodec;
      state, sequenceNr, eventsSinceSnapshot := agg.initial, 0, 0;
      stashed, answers, deferrals, mailbox, snapshots, performed := [], [], [], [], [], [];
    }

    /** Everything the entity has persisted. */
    ghost function History(): seq<Event>
      reads journal
    {
      EventsOf(journal.LogOf(key), eventCodec)
    }

    /** The stored part: gapless, decodable, the snapshot a fold at its own number. */
    ghost predicate StoredSoundly()
      reads journal
    {
      && Lawful(eventCodec) && Honest(stateCodec)
      && SoundLog(journal.LogOf(key), eventCodec)
      && (key in journal.snapshots ==> SoundSnapshot(agg, stateCodec, journal.snapshots[key], History()))
    }

    /** The step-boundary invariant: the state is the fold of the events up to the sequence number. */
    ghost predicate Holds()
      reads this, journal
    {
      && StoredSoundly() && Behind(agg, History(), state, sequenceNr)
      && (agg.snapshotEvery > 0 ==> eventsSinceSnapshot < agg.snapshotEvery)
    }

    ghost predicate Current()
      reads this, journal
    {
      sequenceNr == |History()|
    }

    ghost function Seen(): View
      reads this, journal
      requires sequenceNr <= |History()|
    {
      View(History()[..sequenceNr], stashed, answers, deferrals, mailbox, snapshots, eventsSinceSnapshot,
           performed)
    }

    /** The stored snapshots are those of before, and for this entity the fold at the last number taken since. */
    ghost predicate SnapshotsFollow(before: seq<nat>, stored: map<Key, StoredSnapshot>)
      reads this, journal
    {
      Follows(agg, stateCodec, key, before, stored, snapshots, journal.snapshots, History())
    }

    /** Nothing, or the batch, has been added to the journal, and the incarnation has not moved. */
    twostate predicate Wrote(events: seq<Event>, accepted: bool)
      reads this, journal
    {
      && accepted == (events == [] || !Collides(old(journal.LogOf(key)), sequenceNr, |events|))
      && (state, sequenceNr) == (old(state), old(sequenceNr)) && journal.snapshots == old(journal.snapshots)
      && (if accepted && events != [] then
            && journal.LogOf(key) == old(journal.LogOf(key))
                                     + Stored(events, sequenceNr, old(journal.globalSeq), eventCodec)
            && journal.globalSeq == old(journal.globalSeq) + |events|
          else journal.LogOf(key) == old(journal.LogOf(key)) && journal.globalSeq == old(journal.globalSeq))
    }

    /** The incarnation has moved past `events`, and may have taken a snapshot then. */
    twostate predicate Folded(events: seq<Event>, snapshot: bool)
      reads this, journal
    {
      && state == Replay(agg, old(state), events) && sequenceNr == old(sequenceNr) + |events|
      && journal.LogOf(key) == old(journal.LogOf(key)) && journal.globalSeq == old(journal.globalSeq)
      && journal.snapshots == if snapshot then old(journal.snapshots)[key := OwnSnapshot()] else old(journal.snapshots)
    }

    function OwnSnapshot(): StoredSnapshot
      reads this
    {
      StoredSnapshot(sequenceNr, stateCodec.manifest(state), stateCodec.encode(state))
    }

    predicate SnapshotDue(more: nat)
      reads this
    {
      agg.snapshotEvery > 0 && eventsSinceSnapshot + more >= agg.snapshotEvery
    }

    /** The write itself: accepted exactly from an incarnation that has seen everything. */
    method WriteStep(events: seq<Event>) returns (newSeqNr: Option<nat>)
      requires Holds()
      modifies journal`events, journal`globalSeq
      ensures Holds() && Seen() == old(Seen()) && Wrote(events, newSeqNr.Some?)
      ensures newSeqNr == if events == [] || old(Current()) then Some(sequenceNr + |events|) else None
      ensures newSeqNr.None? ==> History() == old(History()) && !old(Current())
      ensures newSeqNr.Some? ==> Foldable(agg, old(History()), events, state, sequenceNr, History())
    {
      ghost var log, history := journal.LogOf(key), History();
      EventsLength(log, eventCodec);
      if events != [] {
        CollidesIffStale(log, sequenceNr, |events|);
      }
      newSeqNr := journal.PersistEvents(key, events, sequenceNr, eventCodec);
      if newSeqNr.Some? {
        Written(log, history, events);
      }
    }

    /** Applies the written events to the state in memory. */
    method FoldStep(events: seq<Event>, newSeqNr: nat, ghost before: View)
      requires StoredSoundly() && newSeqNr == sequenceNr + |events|
      requires before == View(before.events, stashed, answers, deferrals, mailbox, snapshots, eventsSinceSnapshot,
                              performed)
      requires newSeqNr <= |History()| && History()[..newSeqNr] == before.events + events
      requires Behind(agg, History(), Replay(agg, state, events), newSeqNr)
      requires agg.snapshotEvery > 0 ==> eventsSinceSnapshot < agg.snapshotEvery
      modifies journal`snapshots, this`state, this`sequenceNr, this`eventsSinceSnapshot, this`snapshots
      ensures Holds() && sequenceNr == newSeqNr && journal.LogOf(key) == old(journal.LogOf(key))
      ensures Folded(events, old(SnapshotDue(|events|)))
      ensures Seen() == Persisted(agg, before, events)
      ensures SnapshotsFollow(old(snapshots), old(journal.snapshots))
    {
      var next := state;
      var i := 0;
      while i < |events|
        invariant 0 <= i <= |events|
        invariant next == Replay(agg, state, events[..i])
      {
        assert events[..i + 1][..i] == events[..i];
        next := agg.apply(next, events[i]);
        i := i + 1;
      }
      assert events[..i] == events;
      state, sequenceNr, eventsSinceSnapshot := next, newSeqNr, eventsSinceSnapshot + |events|;
      if SnapshotDue(0) {
        SnapshotStep();
      }
    }

    /** Writes a batch at the incarnation's own number and folds it in; a stale incarnation crashes instead. */
    method PersistStep(events: seq<Event>) returns (crashed: bool)
      requires Holds()
      modifies journal, this`state, this`sequenceNr, this`eventsSinceSnapshot, this`snapshots
      ensures Holds() && Progress(old(History()), old(sequenceNr), History(), sequenceNr, crashed)
      ensures !crashed ==> Seen() == Persisted(agg, old(Seen()), events)
      ensures crashed ==> Seen() == old(Seen())
      ensures SnapshotsFollow(old(snapshots), old(journal.snapshots))
    {
      ghost var before := Seen();
      var newSeqNr := WriteStep(events);
      if newSeqNr.None? {
        return true;
      }
      if * {
        return true;
      }
      FoldStep(events, newSeqNr.value, before);
      return false;
    }

    /** What the journal holds after a batch was accepted. */
    ghost method Written(log: Log, history: seq<Event>, events: seq<Event>)
      requires SoundLog(log, eventCodec) && history == EventsOf(log, eventCodec) && Lawful(eventCodec)
               && Honest(stateCodec)
      requires key in journal.snapshots ==> SoundSnapshot(agg, stateCodec, journal.snapshots[key], history)
      requires Behind(agg, history, state, sequenceNr)
      requires events == [] ==> journal.LogOf(key) == log
      requires events != [] ==> sequenceNr == |log| && exists g ::
                                journal.LogOf(key) == log + Stored(events, |log|, g, eventCodec)
      ensures StoredSoundly() && Foldable(agg, history, events, state, sequenceNr, History())
      ensures Behind(agg, History(), state, sequenceNr) && History()[..sequenceNr] == history[..sequenceNr]
    {
      EventsLength(log, eventCodec);
      if events != [] {
        var g :| journal.LogOf(key) == log + Stored(events, |log|, g, eventCodec);
        AppendedIsSound(log, events, g, eventCodec);
      } else {
        assert history + events == history;
      }
      BehindExtends(agg, history, events, state, sequenceNr);
      WrittenIsFoldable(agg, history, events, state, sequenceNr);
      if key in journal.snapshots {
        SnapshotExtends(agg, stateCodec, journal.snapshots[key], history, events);
      }
    }

    method SnapshotStep()
      requires StoredSoundly() && Behind(agg, History(), state, sequenceNr)
      modifies journal`snapshots, this`eventsSinceSnapshot, this`snapshots
      ensures Holds() && Folded([], true) && eventsSinceSnapshot == 0
      ensures snapshots == old(snapshots) + [sequenceNr] && SnapshotsFollow(old(snapshots), old(journal.snapshots))
    {
      journal.PersistSnapshot(key, state, sequenceNr, stateCodec);
      eventsSinceSnapshot := 0;
      snapshots := snapshots + [sequenceNr];
    }

    method AnswerNow(replyTo: Option<Handle>, reply: Option<Answered>)
      requires Holds()
      modifies this`answers
      ensures Holds() && Seen() == Answering(old(Seen()), replyTo, reply)
    {
      if replyTo.Some? {
        answers := answers + [Answer(replyTo.value, Replied(reply, sequenceNr))];
      }
    }

    /** Interprets a chain; without a crash the incarnation ends where `Execute` says. */
    method ExecuteEffect(effect: Decision, replyTo: Option<Handle>) returns (crashed: bool)
      requires Holds()
      modifies journal, this
      ensures Holds() && Progress(old(History()), old(sequenceNr), History(), sequenceNr, crashed)
      ensures !crashed ==> Seen() == Execute(agg, old(Seen()), effect, replyTo)
      ensures crashed ==> ExecuteBreaks(agg, old(Seen()), effect, replyTo, Seen())
      ensures SnapshotsFollow(old(snapshots), old(journal.snapshots))
      decreases |stashed|, 1, Length(effect), 1
    {
      crashed := false;
      match effect
      case Persist(events, andThen) =>
        crashed := PersistThen(events, andThen, replyTo);
      case Run(sideEffect, andThen) =>
        if * {
          return true;
        }
        performed := performed + [Performed(sideEffect, sequenceNr)];
        if * {
          return true;
        }
        crashed := ExecuteEffect(andThen, replyTo);
      case Reply(value) =>
        AnswerNow(replyTo, Some(value));
      case ReplyDeferred(deferred) =>
        deferrals := deferrals + [Deferral(deferred, replyTo, sequenceNr, false)];
      case Snapshot(andThen) =>
        crashed := SnapshotThen(andThen, replyTo);
      case Stop =>
        mailbox := mailbox + [StopNow];
      case Stash =>
      case Unstash(andThen) =>
        crashed := UnstashThen(andThen, replyTo);
      case Done =>
        AnswerNow(replyTo, None);
    }

    method PersistThen(events: seq<Event>, andThen: Decision, replyTo: Option<Handle>) returns (crashed: bool)
      requires Holds()
      modifies journal, this
      ensures Holds() && Progress(old(History()), old(sequenceNr), History(), sequenceNr, crashed)
      ensures !crashed ==> Seen() == Execute(agg, Persisted(agg, old(Seen()), events), andThen, replyTo)
      ensures crashed ==> ExecuteBreaks(agg, old(Seen()), Persist(events, andThen), replyTo, Seen())
      ensures SnapshotsFollow(old(snapshots), old(journal.snapshots))
      decreases |stashed|, 1, Length(andThen) + 1, 0
    {
      ghost var history, n, taken, stored := History(), sequenceNr, snapshots, journal.snapshots;
      crashed := PersistStep(events);
      if crashed {
        return;
      }
      ghost var history', n', taken', stored' := History(), sequenceNr, snapshots, journal.snapshots;
      crashed := ExecuteEffect(andThen, replyTo);
      ProgressChains(history, n, history', n', History(), sequenceNr, crashed);
      FollowsChains(agg, stateCodec, key, taken, stored, taken', stored', history', snapshots, journal.snapshots,
                    History());
    }

    method SnapshotThen(andThen: Decision, replyTo: Option<Handle>) returns (crashed: bool)
      requires Holds()
      modifies journal, this
      ensures Holds() && Progress(old(History()), old(sequenceNr), History(), sequenceNr, crashed)
      ensures !crashed ==> Seen() == Execute(agg, Snapped(old(Seen())), andThen, replyTo)
      ensures crashed ==> ExecuteBreaks(agg, Snapped(old(Seen())), andThen, replyTo, Seen())
      ensures SnapshotsFollow(old(snapshots), old(journal.snapshots))
      decreases |stashed|, 1, Length(andThen) + 1, 0
    {
      ghost var taken, stored := snapshots, journal.snapshots;
      SnapshotStep();
      ghost var taken', stored', history' := snapshots, journal.snapshots, History();
      crashed := ExecuteEffect(andThen, replyTo);
      FollowsChains(agg, stateCodec, key, taken, stored, taken', stored', history', snapshots, journal.snapshots,
                    History());
    }

    method UnstashThen(andThen: Decision, replyTo: Option<Handle>) returns (crashed: bool)
      requires Holds()
      modifies journal, this
      ensures Holds() && Progress(old(History()), old(sequenceNr), History(), sequenceNr, crashed)
      ensures !crashed ==> Seen()
                           == Execute(agg, ProcessAll(agg, old(Seen()).(stashed := []), old(stashed)), andThen, replyTo)
      ensures crashed ==> ExecuteBreaks(agg, old(Seen()), Unstash(andThen), replyTo, Seen())
      ensures SnapshotsFollow(old(snapshots), old(journal.snapshots))
      decreases |stashed|, 1, Length(andThen) + 1, 0
    {
      ghost var history, n, taken, stored := History(), sequenceNr, snapshots, journal.snapshots;
      crashed := ReplayStash();
      if crashed {
        return;
      }
      ghost var history', n', taken', stored' := History(), sequenceNr, snapshots, journal.snapshots;
      crashed := ExecuteEffect(andThen, replyTo);
      ProgressChains(history, n, history', n', History(), sequenceNr, crashed);
      FollowsChains(agg, stateCodec, key, taken, stored, taken', stored', history', snapshots, journal.snapshots,
                    History());
    }

    /** Empties the stash and processes each entry with its own reply handle. */
    method ReplayStash() returns (crashed: bool)
      requires Holds()
      modifies journal, this
      ensures Holds() && Progress(old(History()), old(sequenceNr), History(), sequenceNr, crashed)
      ensures !crashed ==> Seen() == ProcessAll(agg, old(Seen()).(stashed := []), old(stashed))
                           && |stashed| <= old(|stashed|)
      ensures crashed ==> ReplayBreaks(agg, old(Seen()).(stashed := []), old(stashed), Seen())
      ensures SnapshotsFollow(old(snapshots), old(journal.snapshots))
      decreases |stashed|, 0, 0, 0
    {
      ghost var before, history, n, taken, stored := Seen(), History(), sequenceNr, snapshots, journal.snapshots;
      var entries := stashed;
      stashed := [];
      var i := 0;
      crashed := false;
      while i < |entries|
        invariant 0 <= i <= |entries|
        invariant Holds() && Progress(history, n, History(), sequenceNr, false)
        invariant SnapshotsFollow(taken, stored)
        invariant |stashed| <= i && Seen() == ProcessAll(agg, before.(stashed := []), entries[..i])
      {
        ghost var history', n', taken', stored' := History(), sequenceNr, snapshots, journal.snapshots;
        crashed := ReplayEntry(entries, i, before.(stashed := []));
        ProgressChains(history, n, history', n', History(), sequenceNr, crashed);
        FollowsChains(agg, stateCodec, key, taken, stored, taken', stored', history', snapshots, journal.snapshots,
                      History());
        if crashed {
          return;
        }
        i := i + 1;
      }
      assert entries[..i] == entries;
    }

    /** The entry after those already processed. */
    method ReplayEntry(entries: seq<Entry>, i: nat, ghost start: View) returns (crashed: bool)
      requires Holds() && i < |entries| && Seen() == ProcessAll(agg, start, entries[..i])
      modifies journal, this
      ensures Holds() && Progress(old(History()), old(sequenceNr), History(), sequenceNr, crashed)
      ensures !crashed ==> Seen() == ProcessAll(agg, start, entries[..i + 1]) && |stashed| <= old(|stashed|) + 1
      ensures crashed ==> ReplayBreaks(agg, start, entries, Seen())
      ensures SnapshotsFollow(old(snapshots), old(journal.snapshots))
      decreases |stashed|, 3, 0, 0
    {
      crashed := ProcessCommand(entries[i].command, entries[i].replyTo);
      if crashed {
        BreaksAt(agg, start, entries, i, Seen());
      } else {
        NextEntry(agg, start, entries, i);
      }
    }

    method ProcessCommand(command: Command, replyTo: Option<Handle>) returns (crashed: bool)
      requires Holds()
      modifies journal, this
      ensures Holds() && Progress(old(History()), old(sequenceNr), History(), sequenceNr, crashed)
      ensures !crashed ==> Seen() == Process(agg, old(Seen()), command, replyTo)
      ensures crashed ==> ProcessBreaks(agg, old(Seen()), command, replyTo, Seen())
      ensures SnapshotsFollow(old(snapshots), old(journal.snapshots))
      decreases |stashed|, 2, 0, 0
    {
      if * {
        return true;
      }
      var effect := agg.decide(state, command);
      if effect.Stash? {
        stashed := stashed + [Entry(command, replyTo)];
        return false;
      }
      crashed := ExecuteEffect(effect, replyTo);
    }

    /** Where a replay starts: a decodable snapshot, or the initial state. */
    method ReplayStart(ignoreSnapshots: bool) returns (start: State, n: nat)
      requires StoredSoundly()
      ensures Behind(agg, History(), start, n)
      ensures var found := !ignoreSnapshots && key in journal.snapshots
                           && stateCodec.decode(journal.snapshots[key].manifest, journal.snapshots[key].data).Some?;
              n == if found then journal.snapshots[key].sequenceNr else 0
    {
      start, n := agg.initial, 0;
      if !ignoreSnapshots {
        var snapshot, undecodable := journal.LoadSnapshot(key, stateCodec);
        if !undecodable && snapshot.Some? {
          n, start := snapshot.value.0, snapshot.value.1;
        }
      }
    }

    /** Applies the later events one by one. */
    method ReplayLater(start: State, from: nat, events: seq<Event>, numbers: seq<nat>) returns (state: State, n: nat)
      requires |numbers| == |events| && forall i | 0 <= i < |numbers| :: numbers[i] == from + i + 1
      ensures state == Replay(agg, start, events) && n == from + |events|
    {
      state, n := start, from;
      var i := 0;
      while i < |events|
        invariant 0 <= i <= |events|
        invariant state == Replay(agg, start, events[..i]) && n == from + i
      {
        assert events[..i + 1][..i] == events[..i];
        state, n := agg.apply(state, events[i]), numbers[i];
        i := i + 1;
      }
      assert events[..i] == events;
    }

    /** Rebuilds the live state from the journal, whether the snapshot is there, ignored or undecodable. */
    method Recover(ignoreSnapshots: bool) returns (crashed: bool)
      requires StoredSoundly()
      modifies this`state, this`sequenceNr, this`stashed, this`eventsSinceSnapshot, this`snapshots
      ensures !crashed && Holds() && Current()
      ensures state == Fold(agg, History()) && stashed == [] && snapshots == [] && eventsSinceSnapshot == 0
    {
      var start, from := ReplayStart(ignoreSnapshots);
      AllDecode(journal.LogOf(key), eventCodec);
      EventsLength(journal.LogOf(key), eventCodec);
      var events, numbers := journal.LoadEvents(key, from, eventCodec);
      if events.None? {
        return true;
      }
      LoadedReplays(agg, journal.LogOf(key), eventCodec, start, from, events.value, numbers);
      var next, n := ReplayLater(start, from, events.value, numbers);
      state, sequenceNr, stashed, eventsSinceSnapshot, snapshots := next, n, [], 0, [];
      return false;
    }

    method Offer(message: Message)
      requires Holds()
      modifies this`mailbox
      ensures Holds() && Seen() == old(Seen()).(mailbox := old(mailbox) + [message])
    {
      mailbox := mailbox + [message];
    }

    /** One command; an ask whose handling throws learns of it. */
    method Handle(message: Message) returns (crashed: bool)
      requires Holds() && !message.StopNow?
      modifies journal, this
      ensures Holds() && Progress(old(History()), old(sequenceNr), History(), sequenceNr, crashed)
      ensures !crashed ==> Seen() == Process(agg, old(Seen()), message.command, ReplyTo(message))
      ensures crashed ==> exists broken ::
                ProcessBreaks(agg, old(Seen()), message.command, ReplyTo(message), broken)
                    && Seen() == Failed(broken, message)
      ensures SnapshotsFollow(old(snapshots), old(journal.snapshots))
    {
      crashed := ProcessCommand(message.command, ReplyTo(message));
      if crashed {
        ghost var broken := Seen();
        if message.Ask? {
          answers := answers + [Answer(message.handle, Failure)];
        }
        assert Seen() == Failed(broken, message);
      }
    }

    /** One turn of the message loop. */
    method Deliver() returns (stopped: bool, crashed: bool)
      requires Holds() && mailbox != []
      modifies journal, this
      ensures Holds() && Progress(old(History()), old(sequenceNr), History(), sequenceNr, crashed)
      ensures stopped <==> old(mailbox)[0].StopNow?
      ensures !crashed ==> Seen() == Delivered(agg, old(Seen()))
      ensures crashed ==> DeliveryBreaks(agg, old(Seen()), Seen())
      ensures SnapshotsFollow(old(snapshots), old(journal.snapshots))
    {
      var message := mailbox[0];
      mailbox := mailbox[1..];
      stopped, crashed := message.StopNow?, false;
      if !stopped {
        crashed := Handle(message);
      }
    }

    /** A deferred reply or its timeout: only the first of the two answers. */
    method Resolve(i: nat, completion: Option<Answered>)
      requires Holds() && i < |deferrals|
      modifies this`deferrals, this`answers
      ensures Holds() && Seen() == Resolved(old(Seen()), i, completion)
    {
      var d := deferrals[i];
      if !d.settled {
        deferrals := deferrals[i := d.(settled := true)];
        if d.replyTo.Some? {
          answers := answers + [Answer(d.replyTo.value, OutcomeOf(d, completion))];
        }
      }
    }

    /** Fails whatever is still queued. */
    method Terminate()
      requires Holds()
      modifies this`mailbox, this`answers
      ensures Holds() && Seen() == Terminated(old(Seen()))
    {
      var i := 0;
      while i < |mailbox|
        invariant 0 <= i <= |mailbox| && mailbox == old(mailbox)
        invariant answers == old(answers) + Failures(mailbox[..i])
      {
        assert mailbox[..i + 1][..i] == mailbox[..i];
        if mailbox[i].Ask? {
          answers := answers + [Answer(mailbox[i].handle, Failure)];
        }
        i := i + 1;
      }
      assert mailbox[..i] == mailbox;
      mailbox := [];
    }
  }

  /** Two incarnations of one entity over one journal. */
  ghost predicate Rivals(a: Runner, b: Runner) {
    a != b && a.key == b.key && a.journal == b.journal && a.agg == b.agg
    && a.eventCodec == b.eventCodec && a.stateCodec == b.stateCodec
  }

  /** Whatever another incarnation writes or snapshots, this one still stands for the prefix it has seen, and it is
      stale as soon as the other has written anything. */
  twostate lemma RivalsHold(a: Runner, b: Runner)
    requires Rivals(a, b) && old(b.Holds()) && unchanged(b)
    requires a.StoredSoundly() && old(a.History()) <= a.History()
    ensures b.Holds() && b.Seen() == old(b.Seen())
    ensures old(a.History()) != a.History() ==> !b.Current()
  {
    var more := a.History()[|old(a.History())|..];
    assert a.History() == old(a.History()) + more;
    BehindExtends(b.agg, old(b.History()), more, b.state, b.sequenceNr);
  }
}
