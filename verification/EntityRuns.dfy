/** One entity's journal and any number of incarnations over it: who can write, and what each one knows
    (src/inmem/entity-runner.ts:238-391, src/inmem/journal.ts:70-156). */
module EntityRuns {
  import opened Prelude
  import opened Aggregates
  import opened InMemJournal
  import opened EntityRunner

  /** `unfolded` has been written and not yet applied to the state. */
  datatype Incarnation = Incarnation(state: State, sequenceNr: nat, unfolded: seq<Event>, live: bool)

  /** An accepted write. */
  datatype Batch = Batch(writer: nat, start: nat, events: seq<Event>)

  datatype Codecs = Codecs(events: Codec<Event>, states: Codec<State>)

  /** The stored part, every incarnation there ever was, and the accepted writes in order. */
  datatype System = System(
    log: Log, snapshot: Option<StoredSnapshot>, globalSeq: nat, incarnations: seq<Incarnation>, batches: seq<Batch>)

  datatype Step =
    | Recovers(ignoreSnapshots: bool)
    | Writes(k: nat, events: seq<Event>)
    | Folds(k: nat)
    | Snapshots(k: nat)
    | Crashes(k: nat)
    | OthersWrite(size: nat)

  /** Where a replay starts: a decodable snapshot, or the initial state. */
  function ReplayStart(agg: Aggregate, codec: Codec<State>, snapshot: Option<StoredSnapshot>,
                       ignoreSnapshots: bool): (State, nat)
  {
    if ignoreSnapshots || snapshot.None? then (agg.initial, 0) else
      var state := codec.decode(snapshot.value.manifest, snapshot.value.data);
      if state.None? then (agg.initial, 0) else (state.value, snapshot.value.sequenceNr)
  }

  function LastOr(numbers: seq<nat>, n: nat): nat {
    if numbers == [] then n else numbers[|numbers| - 1]
  }

  predicate CanAct(s: System, k: nat) {
    k < |s.incarnations| && s.incarnations[k].live
  }

  function Dead(s: System, k: nat): System
    requires k < |s.incarnations|
  {
    s.(incarnations := s.incarnations[k := s.incarnations[k].(live := false)])
  }

  /** A write that meets a taken number throws, which ends the incarnation; a crash ends one anywhere else. */
  ghost predicate Next(agg: Aggregate, codecs: Codecs, s: System, step: Step, s': System) {
    match step
    case Recovers(ignoreSnapshots) =>
      var (start, n) := ReplayStart(agg, codecs.states, s.snapshot, ignoreSnapshots);
      var later := DecodeAll(After(s.log, n), codecs.events);
      if later.None? then s' == s else
        s' == s.(incarnations := s.incarnations + [
          Incarnation(Replay(agg, start, later.value), LastOr(Numbers(After(s.log, n)), n), [], true)])
    case Writes(k, events) =>
      && CanAct(s, k) && s.incarnations[k].unfolded == [] && events != []
      && var n := s.incarnations[k].sequenceNr;
         if Collides(s.log, n, |events|) then s' == Dead(s, k) else
           s' == System(s.log + Stored(events, n, s.globalSeq, codecs.events), s.snapshot, s.globalSeq + |events|,
                        s.incarnations[k := s.incarnations[k].(unfolded := events)], s.batches + [Batch(k, n, events)])
    case Folds(k) =>
      && CanAct(s, k)
      && var i := s.incarnations[k];
         s' == s.(incarnations := s.incarnations[k :=
           Incarnation(Replay(agg, i.state, i.unfolded), i.sequenceNr + |i.unfolded|, [], true)])
    case Snapshots(k) =>
      && CanAct(s, k) && s.incarnations[k].unfolded == []
      && var i := s.incarnations[k];
         s' == s.(snapshot := Some(StoredSnapshot(i.sequenceNr, codecs.states.manifest(i.state),
                                                  codecs.states.encode(i.state))))
    case Crashes(k) => CanAct(s, k) && s' == Dead(s, k)
    case OthersWrite(size) => s' == s.(globalSeq := s.globalSeq + size)
  }

  function History(codecs: Codecs, s: System): seq<Event> {
    EventsOf(s.log, codecs.events)
  }

  /** How far an incarnation reaches, with what it has written and not folded. */
  function Reach(i: Incarnation): nat {
    i.sequenceNr + |i.unfolded|
  }

  /** The state is the fold of what was seen, and what is unfolded follows it. */
  ghost predicate Knows(agg: Aggregate, events: seq<Event>, i: Incarnation) {
    Behind(agg, events, i.state, i.sequenceNr) && Reach(i) <= |events| && events[i.sequenceNr..Reach(i)] == i.unfolded
  }

  function Joined(batches: seq<Batch>): seq<Event> {
    if batches == [] then [] else Joined(batches[..|batches| - 1]) + batches[|batches| - 1].events
  }

  /** Each batch begins where those before it end. */
  ghost predicate Tiled(batches: seq<Batch>) {
    forall i | 0 <= i < |batches| :: batches[i].start == |Joined(batches[..i])|
  }

  ghost predicate Inv(agg: Aggregate, codecs: Codecs, s: System) {
    && SoundLog(s.log, codecs.events)
    && (s.snapshot.Some? ==> SoundSnapshot(agg, codecs.states, s.snapshot.value, History(codecs, s)))
    && (forall k | 0 <= k < |s.incarnations| :: Knows(agg, History(codecs, s), s.incarnations[k]))
    && History(codecs, s) == Joined(s.batches) && Tiled(s.batches)
  }

  // ---- Each step ----

  lemma KnowsExtends(agg: Aggregate, events: seq<Event>, more: seq<Event>, i: Incarnation)
    requires Knows(agg, events, i)
    ensures Knows(agg, events + more, i)
  {
    BehindExtends(agg, events, more, i.state, i.sequenceNr);
    assert (events + more)[i.sequenceNr..Reach(i)] == events[i.sequenceNr..Reach(i)];
  }

  lemma TiledOneMore(batches: seq<Batch>, b: Batch)
    requires Tiled(batches) && b.start == |Joined(batches)|
    ensures Tiled(batches + [b]) && Joined(batches + [b]) == Joined(batches) + b.events
  {
    assert (batches + [b])[..|batches|] == batches;
    forall i | 0 <= i < |batches + [b]| ensures (batches + [b])[i].start == |Joined((batches + [b])[..i])| {
      if i < |batches| {
        assert (batches + [b])[..i] == batches[..i];
      }
    }
  }

  /** An accepted write comes from an incarnation whose state is the fold of everything before it. */
  lemma AcceptedIsCurrent(agg: Aggregate, codecs: Codecs, s: System, k: nat, events: seq<Event>)
    requires Inv(agg, codecs, s) && k < |s.incarnations| && events != []
    ensures var i := s.incarnations[k];
            !Collides(s.log, i.sequenceNr, |events|) <==> i.sequenceNr == |s.log|
    ensures var i := s.incarnations[k];
            i.sequenceNr == |s.log| ==> i.state == Fold(agg, History(codecs, s)) && |History(codecs, s)| == |s.log|
  {
    var i := s.incarnations[k];
    assert Knows(agg, History(codecs, s), i);
    EventsLength(s.log, codecs.events);
    CollidesIffStale(s.log, i.sequenceNr, |events|);
    assert History(codecs, s)[..|s.log|] == History(codecs, s);
  }

  lemma WriteKeeps(agg: Aggregate, codecs: Codecs, s: System, k: nat, events: seq<Event>, s': System)
    requires Lawful(codecs.events) && Inv(agg, codecs, s) && Next(agg, codecs, s, Writes(k, events), s')
    requires s.incarnations[k].sequenceNr == |s.log|
    ensures Inv(agg, codecs, s') && History(codecs, s') == History(codecs, s) + events
            && |History(codecs, s)| == |s.log|
    ensures s'.batches == s.batches + [Batch(k, |s.log|, events)]
  {
    var history := History(codecs, s);
    AcceptedIsCurrent(agg, codecs, s, k, events);
    AppendedIsSound(s.log, events, s.globalSeq, codecs.events);
    if s.snapshot.Some? {
      SnapshotExtends(agg, codecs.states, s.snapshot.value, history, events);
    }
    forall j | 0 <= j < |s'.incarnations| ensures Knows(agg, history + events, s'.incarnations[j]) {
      assert Knows(agg, history, s.incarnations[j]);
      KnowsExtends(agg, history, events, s.incarnations[j]);
      if j == k {
        assert (history + events)[|history|..|history| + |events|] == events;
      }
    }
    TiledOneMore(s.batches, Batch(k, |s.log|, events));
  }

  lemma RecoveredKnows(agg: Aggregate, codecs: Codecs, s: System, ignoreSnapshots: bool)
    requires Inv(agg, codecs, s) && Honest(codecs.states)
    ensures var (start, n) := ReplayStart(agg, codecs.states, s.snapshot, ignoreSnapshots);
            var later := DecodeAll(After(s.log, n), codecs.events);
            && later.Some? && Replay(agg, start, later.value) == Fold(agg, History(codecs, s))
            && LastOr(Numbers(After(s.log, n)), n) == |History(codecs, s)| == |s.log|
  {
    var (start, n) := ReplayStart(agg, codecs.states, s.snapshot, ignoreSnapshots);
    assert History(codecs, s)[..0] == [];
    EventsLength(s.log, codecs.events);
    ReplayCompletes(agg, s.log, codecs.events, start, n);
    LaterNumbers(s.log, n);
  }

  lemma FoldKeeps(agg: Aggregate, events: seq<Event>, i: Incarnation)
    requires Knows(agg, events, i)
    ensures Knows(agg, events, Incarnation(Replay(agg, i.state, i.unfolded), Reach(i), [], true))
  {
    assert events[..Reach(i)] == events[..i.sequenceNr] + i.unfolded;
    ReplayConcat(agg, agg.initial, events[..i.sequenceNr], i.unfolded);
    assert events[Reach(i)..Reach(i)] == [];
  }

  lemma SnapshotKeeps(agg: Aggregate, codecs: Codecs, events: seq<Event>, i: Incarnation)
    requires Honest(codecs.states) && Knows(agg, events, i)
    ensures SoundSnapshot(agg, codecs.states,
                          StoredSnapshot(i.sequenceNr, codecs.states.manifest(i.state), codecs.states.encode(i.state)),
                              events)
  {
  }

  lemma RecoveryKeeps(agg: Aggregate, codecs: Codecs, s: System, ignoreSnapshots: bool, s': System)
    requires Honest(codecs.states) && Inv(agg, codecs, s) && Next(agg, codecs, s, Recovers(ignoreSnapshots), s')
    ensures Inv(agg, codecs, s')
    ensures s'.incarnations == s.incarnations + [Incarnation(Fold(agg, History(codecs, s)), |s.log|, [], true)]
  {
    RecoveredKnows(agg, codecs, s, ignoreSnapshots);
    assert History(codecs, s)[..|s.log|] == History(codecs, s) && History(codecs, s)[|s.log|..|s.log|] == [];
    JoinedKeeps(agg, codecs, s, Incarnation(Fold(agg, History(codecs, s)), |s.log|, [], true));
  }

  lemma JoinedKeeps(agg: Aggregate, codecs: Codecs, s: System, i: Incarnation)
    requires Inv(agg, codecs, s) && Knows(agg, History(codecs, s), i)
    ensures Inv(agg, codecs, s.(incarnations := s.incarnations + [i]))
  {
    var s' := s.(incarnations := s.incarnations + [i]);
    forall k | 0 <= k < |s'.incarnations| ensures Knows(agg, History(codecs, s), s'.incarnations[k]) {
      if k < |s.incarnations| {
        assert s'.incarnations[k] == s.incarnations[k];
      }
    }
  }

  lemma ReplacedKeeps(agg: Aggregate, codecs: Codecs, s: System, k: nat, i: Incarnation)
    requires Inv(agg, codecs, s) && k < |s.incarnations| && Knows(agg, History(codecs, s), i)
    ensures Inv(agg, codecs, s.(incarnations := s.incarnations[k := i]))
  {
  }

  lemma DeadKeeps(agg: Aggregate, codecs: Codecs, s: System, k: nat)
    requires Inv(agg, codecs, s) && k < |s.incarnations|
    ensures Inv(agg, codecs, Dead(s, k))
  {
    assert Knows(agg, History(codecs, s), s.incarnations[k]);
    ReplacedKeeps(agg, codecs, s, k, s.incarnations[k].(live := false));
  }

  lemma StepKeeps(agg: Aggregate, codecs: Codecs, s: System, step: Step, s': System)
    requires Lawful(codecs.events) && Honest(codecs.states)
    requires Inv(agg, codecs, s) && Next(agg, codecs, s, step, s')
    ensures Inv(agg, codecs, s')
  {
    match step
    case Recovers(ignoreSnapshots) => RecoveryKeeps(agg, codecs, s, ignoreSnapshots, s');
    case Writes(k, events) =>
      AcceptedIsCurrent(agg, codecs, s, k, events);
      if s.incarnations[k].sequenceNr == |s.log| {
        WriteKeeps(agg, codecs, s, k, events, s');
      } else {
        DeadKeeps(agg, codecs, s, k);
      }
    case Folds(k) =>
      var i := s.incarnations[k];
      FoldKeeps(agg, History(codecs, s), i);
      ReplacedKeeps(agg, codecs, s, k, Incarnation(Replay(agg, i.state, i.unfolded), Reach(i), [], true));
    case Snapshots(k) => SnapshotKeeps(agg, codecs, History(codecs, s), s.incarnations[k]);
    case Crashes(k) => DeadKeeps(agg, codecs, s, k);
    case OthersWrite(size) =>
  }

  // ---- Whole runs ----

  ghost predicate StepAt(agg: Aggregate, codecs: Codecs, run: seq<System>, steps: seq<Step>, i: nat)
    requires |run| == |steps| + 1 && i < |steps|
  {
    Next(agg, codecs, run[i], steps[i], run[i + 1])
  }

  ghost predicate IsRun(agg: Aggregate, codecs: Codecs, run: seq<System>, steps: seq<Step>) {
    && Lawful(codecs.events) && Honest(codecs.states)
    && |run| == |steps| + 1 && run[0].log == [] && run[0].snapshot.None? && run[0].incarnations == []
        && run[0].batches == []
    && forall i: nat | i < |steps| :: StepAt(agg, codecs, run, steps, i)
  }

  /** Whatever writes, folds, snapshots, crashes and recoveries are interleaved, every incarnation's state is the fold
      of what it has seen, the snapshot is the fold at its own number, and the history is the accepted batches one
      after another: no position has two writers. */
  lemma {:induction false} AllHold(agg: Aggregate, codecs: Codecs, run: seq<System>, steps: seq<Step>, i: nat)
    requires IsRun(agg, codecs, run, steps) && i < |run|
    ensures Inv(agg, codecs, run[i])
  {
    if i > 0 {
      AllHold(agg, codecs, run, steps, i - 1);
      assert StepAt(agg, codecs, run, steps, i - 1);
      StepKeeps(agg, codecs, run[i - 1], steps[i - 1], run[i]);
    }
  }

  /** Another has written past what the incarnation reaches. */
  predicate Stale(s: System, k: nat)
    requires k < |s.incarnations|
  {
    Reach(s.incarnations[k]) < |s.log|
  }

  ghost predicate OthersStale(s: System, k: nat) {
    forall l | 0 <= l < |s.incarnations| && l != k :: Reach(s.incarnations[l]) < |s.log|
  }

  ghost predicate Accepted(s: System, s': System, k: nat) {
    |s'.batches| > |s.batches| && s'.batches[|s.batches|].writer == k
  }

  /** An accepted write was decided on the whole history, and leaves every other incarnation stale. */
  lemma WriterIsCurrent(agg: Aggregate, codecs: Codecs, run: seq<System>, steps: seq<Step>, i: nat, k: nat)
    requires IsRun(agg, codecs, run, steps) && i < |steps| && Accepted(run[i], run[i + 1], k)
    ensures k < |run[i].incarnations| == |run[i + 1].incarnations| && steps[i].Writes? && steps[i].k == k
    ensures run[i].incarnations[k].state == Fold(agg, History(codecs, run[i]))
    ensures History(codecs, run[i + 1]) == History(codecs, run[i]) + steps[i].events
    ensures OthersStale(run[i + 1], k)
  {
    AllHold(agg, codecs, run, steps, i);
    assert StepAt(agg, codecs, run, steps, i);
    var s := run[i];
    AcceptedIsCurrent(agg, codecs, s, k, steps[i].events);
    WriteKeeps(agg, codecs, s, k, steps[i].events, run[i + 1]);
    var s' := run[i + 1];
    forall l | 0 <= l < |s'.incarnations| && l != k ensures Reach(s'.incarnations[l]) < |s'.log| {
      assert Knows(agg, History(codecs, s), s.incarnations[l]);
    }
  }

  lemma StaleStep(agg: Aggregate, codecs: Codecs, s: System, step: Step, s': System, k: nat)
    requires Lawful(codecs.events) && Honest(codecs.states)
    requires Inv(agg, codecs, s) && Next(agg, codecs, s, step, s') && k < |s.incarnations| && Stale(s, k)
    ensures k < |s'.incarnations| && Stale(s', k) && !Accepted(s, s', k)
  {
    if step.Writes? {
      AcceptedIsCurrent(agg, codecs, s, step.k, step.events);
    }
  }

  /** A stale incarnation stays stale and has no write accepted ever again. */
  lemma {:induction false} StaleForever(agg: Aggregate, codecs: Codecs, run: seq<System>, steps: seq<Step>, i: nat,
                                        j: nat, k: nat)
    requires IsRun(agg, codecs, run, steps) && i <= j < |run| && k < |run[i].incarnations| && Stale(run[i], k)
    ensures k < |run[j].incarnations| && Stale(run[j], k)
    ensures j < |steps| ==> !Accepted(run[j], run[j + 1], k)
    decreases j
  {
    if i < j {
      StaleForever(agg, codecs, run, steps, i, j - 1, k);
      AllHold(agg, codecs, run, steps, j - 1);
      assert StepAt(agg, codecs, run, steps, j - 1);
      StaleStep(agg, codecs, run[j - 1], steps[j - 1], run[j], k);
    }
    if j < |steps| {
      AllHold(agg, codecs, run, steps, j);
      assert StepAt(agg, codecs, run, steps, j);
      StaleStep(agg, codecs, run[j], steps[j], run[j + 1], k);
    }
  }

  /** Once one incarnation's write is accepted, another's can be only if that one has recovered since. */
  lemma OneIncarnationWrites(agg: Aggregate, codecs: Codecs, run: seq<System>, steps: seq<Step>, i: nat, k: nat, j: nat,
                             l: nat)
    requires IsRun(agg, codecs, run, steps) && i < j < |steps|
    requires Accepted(run[i], run[i + 1], k) && Accepted(run[j], run[j + 1], l) && k != l
    ensures l >= |run[i + 1].incarnations|
  {
    WriterIsCurrent(agg, codecs, run, steps, i, k);
    if l < |run[i + 1].incarnations| {
      assert Stale(run[i + 1], l);
      StaleForever(agg, codecs, run, steps, i + 1, j, l);
    }
  }

  /** Recovery after any crash yields the state of every incarnation that has seen everything. */
  lemma RecoveryIsLive(agg: Aggregate, codecs: Codecs, run: seq<System>, steps: seq<Step>, i: nat)
    requires IsRun(agg, codecs, run, steps) && i < |steps| && steps[i].Recovers?
    ensures var recovered := |run[i].incarnations|;
            && |run[i + 1].incarnations| == recovered + 1 && !Stale(run[i + 1], recovered)
            && run[i + 1].incarnations[recovered].state == Fold(agg, History(codecs, run[i]))
            && forall k | 0 <= k < recovered && run[i].incarnations[k].sequenceNr == |run[i].log| ::
                 run[i].incarnations[k].state == run[i + 1].incarnations[recovered].state
  {
    AllHold(agg, codecs, run, steps, i);
    assert StepAt(agg, codecs, run, steps, i);
    var s := run[i];
    RecoveryKeeps(agg, codecs, s, steps[i].ignoreSnapshots, run[i + 1]);
    EventsLength(s.log, codecs.events);
    forall k | 0 <= k < |s.incarnations| && s.incarnations[k].sequenceNr == |s.log|
      ensures s.incarnations[k].state == Fold(agg, History(codecs, s))
    {
      assert Knows(agg, History(codecs, s), s.incarnations[k]);
      assert History(codecs, s)[..|s.log|] == History(codecs, s);
    }
  }

  // ---- What the runner does is a move ----

  /** The runner and its journal are incarnation `k` of the system, with `unfolded` still to be applied. */
  ghost predicate Shows(r: Runner, s: System, k: nat, unfolded: seq<Event>, live: bool)
    reads r, r.journal
  {
    && Stores(r, s)
    && k < |s.incarnations| && s.incarnations[k] == Incarnation(r.state, r.sequenceNr, unfolded, live)
  }

  ghost predicate Stores(r: Runner, s: System)
    reads r, r.journal
  {
    && s.log == r.journal.LogOf(r.key) && s.globalSeq == r.journal.globalSeq
    && s.snapshot == if r.key in r.journal.snapshots then Some(r.journal.snapshots[r.key]) else None
  }

  function CodecsOf(r: Runner): Codecs {
    Codecs(r.eventCodec, r.stateCodec)
  }

  /** Writing a batch is a write of the machine, which ends a stale incarnation. */
  twostate lemma WriteIsMove(r: Runner, events: seq<Event>, accepted: bool, s: System, k: nat) returns (s': System)
    requires events != [] && r.Wrote(events, accepted) && old(Shows(r, s, k, [], true))
    ensures Next(r.agg, CodecsOf(r), s, Writes(k, events), s')
    ensures Shows(r, s', k, if accepted then events else [], accepted)
  {
    s' := if !accepted then Dead(s, k) else
      System(s.log + Stored(events, r.sequenceNr, s.globalSeq, r.eventCodec), s.snapshot, s.globalSeq + |events|,
             s.incarnations[k := s.incarnations[k].(unfolded := events)],
             s.batches + [Batch(k, r.sequenceNr, events)]);
  }

  /** Folding a batch is a fold of the machine, followed by a snapshot when one was taken. */
  twostate lemma FoldIsMove(r: Runner, events: seq<Event>, snapshot: bool, s: System, k: nat)
      returns (folded: System, s': System)
    requires r.Folded(events, snapshot) && old(Shows(r, s, k, events, true))
    ensures Next(r.agg, CodecsOf(r), s, Folds(k), folded)
    ensures if snapshot then Next(r.agg, CodecsOf(r), folded, Snapshots(k), s') else s' == folded
    ensures Shows(r, s', k, [], true)
  {
    folded := s.(incarnations := s.incarnations[k := Incarnation(r.state, r.sequenceNr, [], true)]);
    s' := if snapshot then folded.(snapshot := Some(r.OwnSnapshot())) else folded;
  }

  /** A requested snapshot is one of the machine. */
  twostate lemma SnapshotIsMove(r: Runner, s: System, k: nat) returns (s': System)
    requires r.Folded([], true) && old(Shows(r, s, k, [], true))
    ensures Next(r.agg, CodecsOf(r), s, Snapshots(k), s') && Shows(r, s', k, [], true)
  {
    s' := s.(snapshot := Some(r.OwnSnapshot()));
  }

  /** What a recovery ends with is the new incarnation of the machine. */
  lemma RecoverIsMove(r: Runner, ignoreSnapshots: bool, s: System) returns (s': System)
    requires Inv(r.agg, CodecsOf(r), s) && Stores(r, s) && r.Holds() && r.Current()
    ensures Next(r.agg, CodecsOf(r), s, Recovers(ignoreSnapshots), s')
    ensures Shows(r, s', |s.incarnations|, [], true)
  {
    RecoveredKnows(r.agg, CodecsOf(r), s, ignoreSnapshots);
    assert r.History()[..r.sequenceNr] == r.History();
    s' := s.(incarnations := s.incarnations + [Incarnation(r.state, r.sequenceNr, [], true)]);
  }
}
