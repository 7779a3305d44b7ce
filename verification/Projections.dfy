/** Projections: the offset-guarded fold, its store and runners
    (src/projection/index.ts, src/projection/tailing.ts). */
module Projections {
  import opened Prelude

  type Event(==, !new)
  type ViewDoc(==, !new)
  type Id = nat
  type Source = (Id, Id) // category and entity

  datatype Record = Record(category: Id, entityId: Id, sequenceNr: nat, event: Event)

  datatype Envelope = Envelope(view: ViewDoc, sequenceNr: nat)

  datatype Projection = Projection(id: Id, initial: ViewDoc, evolve: (ViewDoc, Event, Id) -> ViewDoc)

  /** The view an event of an entity goes to. */
  type Route = (Event, Id) -> Id

  datatype Tables = Tables(views: map<(Id, Id), Envelope>, offsets: map<(Id, Id, Id), nat>)

  function ViewOf(t: Tables, p: Id, view: Id): Option<Envelope> {
    if (p, view) in t.views then Some(t.views[(p, view)]) else None
  }

  function Offset(t: Tables, p: Id, s: Source): nat {
    if (p, s.0, s.1) in t.offsets then t.offsets[(p, s.0, s.1)] else 0
  }

  function SourceOf(r: Record): Source {
    (r.category, r.entityId)
  }

  // ---- The store ----

  function LaterThan(envelope: Envelope, existing: Option<Envelope>): Envelope {
    if existing.Some? then envelope.(sequenceNr := Max(envelope.sequenceNr, existing.value.sequenceNr)) else envelope
  }

  /** View and offset move together, or not at all when the write is stale. */
  function WithViewAndOffset(t: Tables, p: Id, view: Id, envelope: Envelope, s: Source): Tables {
    if envelope.sequenceNr <= Offset(t, p, s) then t else
      Tables(t.views[(p, view) := LaterThan(envelope, ViewOf(t, p, view))],
             t.offsets[(p, s.0, s.1) := envelope.sequenceNr])
  }

  function HigherOf(existing: Option<Envelope>, number: nat): nat {
    if existing.Some? && existing.value.sequenceNr > number then existing.value.sequenceNr else number
  }

  /** A number at or below the offset changes nothing; a later one becomes the offset, and the view is replaced with at
      least the number it had. Nothing else changes either way. */
  ghost predicate MovesTogether(t: Tables, t': Tables, p: Id, view: Id, envelope: Envelope, s: Source) {
    if envelope.sequenceNr <= Offset(t, p, s) then t' == t else
      && Offset(t', p, s) == envelope.sequenceNr
      && ViewOf(t', p, view) == Some(Envelope(envelope.view, HigherOf(ViewOf(t, p, view), envelope.sequenceNr)))
      && (forall q: Id, v: Id | (q, v) != (p, view) :: ViewOf(t', q, v) == ViewOf(t, q, v))
      && (forall q: Id, x: Source | (q, x) != (p, s) :: Offset(t', q, x) == Offset(t, q, x))
  }

  function Cleared(t: Tables, p: Id): Tables {
    Tables(map k | k in t.views && k.0 != p :: t.views[k], map k | k in t.offsets && k.0 != p :: t.offsets[k])
  }

  function Current(proj: Projection, existing: Option<Envelope>): ViewDoc {
    if existing.Some? then existing.value.view else proj.initial
  }

  function Guarded(t: Tables, proj: Projection, r: Record, view: Id): Tables {
    if r.sequenceNr <= Offset(t, proj.id, SourceOf(r)) then t else
      var evolved := proj.evolve(Current(proj, ViewOf(t, proj.id, view)), r.event, r.entityId);
      WithViewAndOffset(t, proj.id, view, Envelope(evolved, r.sequenceNr), SourceOf(r))
  }

  /** Only the record's view and its source's offset change, and only for a new number. */
  lemma GuardedTouches(t: Tables, proj: Projection, r: Record, view: Id)
    ensures var t' := Guarded(t, proj, r, view);
            && (forall p: Id, v: Id | (p, v) != (proj.id, view) :: ViewOf(t', p, v) == ViewOf(t, p, v))
            && (forall p: Id, s: Source | (p, s) != (proj.id, SourceOf(r)) :: Offset(t', p, s) == Offset(t, p, s))
            && Offset(t', proj.id, SourceOf(r)) == Max(Offset(t, proj.id, SourceOf(r)), r.sequenceNr)
  {
  }

  /** The views and offsets of every other projection are there, unchanged, and nothing is new among them. */
  ghost predicate KeepsOthers(t: Tables, t': Tables, p: Id) {
    && (forall k: (Id, Id) | k.0 != p ::
          (k in t'.views <==> k in t.views) && (k in t.views ==> t'.views[k] == t.views[k]))
    && (forall k: (Id, Id, Id) | k.0 != p ::
          (k in t'.offsets <==> k in t.offsets) && (k in t.offsets ==> t'.offsets[k] == t.offsets[k]))
  }

  ghost predicate HoldsNothing(t: Tables, p: Id) {
    (forall k | k in t.views :: k.0 != p) && (forall k | k in t.offsets :: k.0 != p)
  }

  lemma {:induction false} DeliveryKeepsOthers(t: Tables, proj: Projection, route: Route, records: seq<Record>)
    ensures KeepsOthers(t, DeliverAll(t, proj, route, records), proj.id)
  {
    if records != [] {
      DeliveryKeepsOthers(t, proj, route, records[..|records| - 1]);
    }
  }

  lemma {:induction false} SourcesKeepOthers(t: Tables, proj: Projection, sources: seq<(Route, seq<Record>)>)
    ensures KeepsOthers(t, DeliverSources(t, proj, sources), proj.id)
  {
    if sources != [] {
      var (route, records) := sources[|sources| - 1];
      SourcesKeepOthers(t, proj, sources[..|sources| - 1]);
      DeliveryKeepsOthers(DeliverSources(t, proj, sources[..|sources| - 1]), proj, route, records);
    }
  }

  class ProjectionStore {
    var views: map<(Id, Id), Envelope>
    var offsets: map<(Id, Id, Id), nat>

    constructor ()
      ensures Content() == Tables(map[], map[])
    {
      views, offsets := map[], map[];
    }

    function Content(): Tables
      reads this
    {
      Tables(views, offsets)
    }

    function Get(p: Id, view: Id): Option<Envelope>
      reads this
    {
      ViewOf(Content(), p, view)
    }

    function GetOffset(p: Id, s: Source): nat
      reads this
    {
      Offset(Content(), p, s)
    }

    /** Never rolls a view back. */
    method Put(p: Id, view: Id, envelope: Envelope)
      modifies this
      ensures offsets == old(offsets)
      ensures old(Get(p, view)).Some? && envelope.sequenceNr <= old(Get(p, view)).value.sequenceNr
              ==> views == old(views)
      ensures old(Get(p, view)).None? || envelope.sequenceNr > old(Get(p, view)).value.sequenceNr
              ==> views == old(views)[(p, view) := envelope]
    {
      var existing := Get(p, view);
      if existing.Some? && envelope.sequenceNr <= existing.value.sequenceNr {
        return;
      }
      views := views[(p, view) := envelope];
    }

    method PutWithOffset(p: Id, view: Id, envelope: Envelope, s: Source)
      modifies this
      ensures Content() == WithViewAndOffset(old(Content()), p, view, envelope, s)
      ensures MovesTogether(old(Content()), Content(), p, view, envelope, s)
    {
      if envelope.sequenceNr <= GetOffset(p, s) {
        return;
      }
      var existing := Get(p, view);
      var held := if existing.Some? then existing.value.sequenceNr else 0;
      var effective := envelope.(sequenceNr := Max(envelope.sequenceNr, held));
      views := views[(p, view) := effective];
      offsets := offsets[(p, s.0, s.1) := envelope.sequenceNr];
    }

    method SetOffset(p: Id, s: Source, sequenceNr: nat)
      modifies this
      ensures Content() == Rewound(old(Content()), p, s, sequenceNr)
    {
      offsets := offsets[(p, s.0, s.1) := sequenceNr];
    }

    method Clear(p: Id)
      modifies this
      ensures Content() == Cleared(old(Content()), p)
      ensures KeepsOthers(old(Content()), Content(), p) && HoldsNothing(Content(), p)
    {
      var viewKeys := views.Keys;
      while viewKeys != {}
        invariant viewKeys <= old(views).Keys && offsets == old(offsets)
        invariant forall k :: k in views <==> k in old(views) && (k.0 != p || k in viewKeys)
        invariant forall k | k in views :: views[k] == old(views)[k]
        decreases viewKeys
      {
        var k :| k in viewKeys;
        if k.0 == p {
          views := views - {k};
        }
        viewKeys := viewKeys - {k};
      }
      var offsetKeys := offsets.Keys;
      while offsetKeys != {}
        invariant offsetKeys <= old(offsets).Keys
        invariant views == Cleared(old(Content()), p).views
        invariant forall k :: k in offsets <==> k in old(offsets) && (k.0 != p || k in offsetKeys)
        invariant forall k | k in offsets :: offsets[k] == old(offsets)[k]
        decreases offsetKeys
      {
        var k :| k in offsetKeys;
        if k.0 == p {
          offsets := offsets - {k};
        }
        offsetKeys := offsetKeys - {k};
      }
    }

    /** True when the event was applied, false when it was already folded. */
    method OffsetGuardedFold(proj: Projection, r: Record, view: Id) returns (applied: bool)
      modifies this
      ensures Content() == Guarded(old(Content()), proj, r, view)
      ensures applied <==> r.sequenceNr > old(GetOffset(proj.id, SourceOf(r)))
    {
      if r.sequenceNr <= GetOffset(proj.id, SourceOf(r)) {
        return false;
      }
      var evolved := proj.evolve(Current(proj, Get(proj.id, view)), r.event, r.entityId);
      PutWithOffset(proj.id, view, Envelope(evolved, r.sequenceNr), SourceOf(r));
      return true;
    }

    /** One pass over a category's events. */
    method RunSource(proj: Projection, route: Route, records: seq<Record>)
      modifies this
      ensures Content() == DeliverAll(old(Content()), proj, route, records)
    {
      var i := 0;
      while i < |records|
        invariant 0 <= i <= |records|
        invariant Content() == DeliverAll(old(Content()), proj, route, records[..i])
      {
        assert records[..i + 1][..i] == records[..i];
        var applied := OffsetGuardedFold(proj, records[i], route(records[i].event, records[i].entityId));
        i := i + 1;
      }
      assert records[..i] == records;
    }

    method RunProjection(proj: Projection, records: seq<Record>)
      modifies this
      ensures Content() == DeliverAll(old(Content()), proj, OwnView, records)
    {
      RunSource(proj, OwnView, records);
    }

    method RunMultiStreamProjection(proj: Projection, sources: seq<(Route, seq<Record>)>)
      modifies this
      ensures Content() == DeliverSources(old(Content()), proj, sources)
    {
      var i := 0;
      while i < |sources|
        invariant 0 <= i <= |sources|
        invariant Content() == DeliverSources(old(Content()), proj, sources[..i])
      {
        assert sources[..i + 1][..i] == sources[..i];
        RunSource(proj, sources[i].0, sources[i].1);
        i := i + 1;
      }
      assert sources[..i] == sources;
    }

    method RebuildProjection(proj: Projection, records: seq<Record>)
      modifies this
      ensures Content() == DeliverAll(Cleared(old(Content()), proj.id), proj, OwnView, records)
      ensures KeepsOthers(old(Content()), Content(), proj.id)
    {
      Clear(proj.id);
      RunProjection(proj, records);
      DeliveryKeepsOthers(Cleared(old(Content()), proj.id), proj, OwnView, records);
    }

    method RebuildMultiStreamProjection(proj: Projection, sources: seq<(Route, seq<Record>)>)
      modifies this
      ensures Content() == DeliverSources(Cleared(old(Content()), proj.id), proj, sources)
      ensures KeepsOthers(old(Content()), Content(), proj.id)
    {
      Clear(proj.id);
      RunMultiStreamProjection(proj, sources);
      SourcesKeepOthers(Cleared(old(Content()), proj.id), proj, sources);
    }
  }

  function Rewound(t: Tables, p: Id, s: Source, n: nat): Tables {
    t.(offsets := t.offsets[(p, s.0, s.1) := n])
  }

  /** A single stream keeps one view per entity. */
  function OwnView(event: Event, entityId: Id): Id {
    entityId
  }

  function DeliverAll(t: Tables, proj: Projection, route: Route, records: seq<Record>): Tables {
    if records == [] then t else
      var last := records[|records| - 1];
      Guarded(DeliverAll(t, proj, route, records[..|records| - 1]), proj, last, route(last.event, last.entityId))
  }

  function DeliverSources(t: Tables, proj: Projection, sources: seq<(Route, seq<Record>)>): Tables {
    if sources == [] then t else
      var (route, records) := sources[|sources| - 1];
      DeliverAll(DeliverSources(t, proj, sources[..|sources| - 1]), proj, route, records)
  }

  // ---- Single streams: the view is the fold of exactly the events up to the offset ----

  type Histories = map<Id, seq<Event>>

  function HistoryOf(histories: Histories, e: Id): seq<Event> {
    if e in histories then histories[e] else []
  }

  function FoldView(proj: Projection, e: Id, events: seq<Event>): ViewDoc {
    if events == [] then proj.initial
        else proj.evolve(FoldView(proj, e, events[..|events| - 1]), events[|events| - 1], e)
  }

  ghost predicate MirrorsEntity(t: Tables, proj: Projection, category: Id, e: Id, events: seq<Event>) {
    var n := Offset(t, proj.id, (category, e));
    && n <= |events|
    && ViewOf(t, proj.id, e) == if n == 0 then None else Some(Envelope(FoldView(proj, e, events[..n]), n))
  }

  ghost predicate Mirrors(t: Tables, proj: Projection, category: Id, histories: Histories) {
    forall e :: MirrorsEntity(t, proj, category, e, HistoryOf(histories, e))
  }

  /** A delivery from the history, at most one past what is folded. */
  predicate Follows(t: Tables, proj: Projection, category: Id, histories: Histories, r: Record) {
    var events := HistoryOf(histories, r.entityId);
    && r.category == category && 1 <= r.sequenceNr <= |events| && r.event == events[r.sequenceNr - 1]
    && r.sequenceNr <= Offset(t, proj.id, (category, r.entityId)) + 1
  }

  lemma DeliveryKeeps(t: Tables, proj: Projection, category: Id, histories: Histories, r: Record)
    requires Mirrors(t, proj, category, histories) && Follows(t, proj, category, histories, r)
    ensures Mirrors(Guarded(t, proj, r, r.entityId), proj, category, histories)
  {
    var t' := Guarded(t, proj, r, r.entityId);
    GuardedTouches(t, proj, r, r.entityId);
    forall e ensures MirrorsEntity(t', proj, category, e, HistoryOf(histories, e)) {
      assert MirrorsEntity(t, proj, category, e, HistoryOf(histories, e));
      if e == r.entityId {
        EntityDelivery(t, proj, category, HistoryOf(histories, e), r);
      }
    }
  }

  lemma EntityDelivery(t: Tables, proj: Projection, category: Id, events: seq<Event>, r: Record)
    requires MirrorsEntity(t, proj, category, r.entityId, events) && r.category == category
    requires 1 <= r.sequenceNr <= |events| && r.event == events[r.sequenceNr - 1]
    requires r.sequenceNr <= Offset(t, proj.id, (category, r.entityId)) + 1
    ensures MirrorsEntity(Guarded(t, proj, r, r.entityId), proj, category, r.entityId, events)
  {
    var n := r.sequenceNr;
    assert events[..n][..n - 1] == events[..n - 1] && events[..n][n - 1] == r.event;
    assert events[..0] == [];
  }

  function CountOf(records: seq<Record>, e: Id): nat {
    if records == [] then 0 else
      CountOf(records[..|records| - 1], e) + if records[|records| - 1].entityId == e then 1 else 0
  }

  /** The i-th record continues its entity's numbering. */
  ghost predicate InTurn(category: Id, histories: Histories, records: seq<Record>, i: nat)
    requires i < |records|
  {
    var r := records[i];
    var k := CountOf(records[..i], r.entityId);
    && r.category == category && r.sequenceNr == k + 1 && k < |HistoryOf(histories, r.entityId)|
    && r.event == HistoryOf(histories, r.entityId)[k]
  }

  /** All events of the category, each entity's in order, entities mixed in any way. */
  ghost predicate Lists(category: Id, histories: Histories, records: seq<Record>) {
    && (forall i: nat | i < |records| :: InTurn(category, histories, records, i))
    && forall e :: CountOf(records, e) == |HistoryOf(histories, e)|
  }

  lemma {:induction false} PassKeeps(t: Tables, proj: Projection, category: Id, histories: Histories,
                                     records: seq<Record>, i: nat)
    requires Mirrors(t, proj, category, histories) && i <= |records|
    requires forall j: nat | j < |records| :: InTurn(category, histories, records, j)
    ensures var t' := DeliverAll(t, proj, OwnView, records[..i]);
            && Mirrors(t', proj, category, histories)
            && (forall e :: CountOf(records[..i], e) <= Offset(t', proj.id, (category, e)))
            && (forall e :: Offset(t, proj.id, (category, e)) <= Offset(t', proj.id, (category, e)))
  {
    if i > 0 {
      PassKeeps(t, proj, category, histories, records, i - 1);
      var before := DeliverAll(t, proj, OwnView, records[..i - 1]);
      assert records[..i][..i - 1] == records[..i - 1];
      assert InTurn(category, histories, records, i - 1);
      DeliveryKeeps(before, proj, category, histories, records[i - 1]);
      GuardedTouches(before, proj, records[i - 1], records[i - 1].entityId);
    }
  }

  /** A pass over everything leaves every view at its full history, whatever was folded before. */
  lemma PassCompletes(t: Tables, proj: Projection, category: Id, histories: Histories, records: seq<Record>)
    requires Mirrors(t, proj, category, histories) && Lists(category, histories, records)
    ensures var t' := DeliverAll(t, proj, OwnView, records);
            && Mirrors(t', proj, category, histories)
            && forall e :: Offset(t', proj.id, (category, e)) == |HistoryOf(histories, e)|
  {
    PassKeeps(t, proj, category, histories, records, |records|);
    assert records[..|records|] == records;
    var t' := DeliverAll(t, proj, OwnView, records);
    forall e ensures Offset(t', proj.id, (category, e)) == |HistoryOf(histories, e)| {
      assert MirrorsEntity(t', proj, category, e, HistoryOf(histories, e));
    }
  }

  lemma ClearedMirrors(t: Tables, proj: Projection, category: Id, histories: Histories)
    ensures Mirrors(Cleared(t, proj.id), proj, category, histories)
    ensures forall s :: Offset(Cleared(t, proj.id), proj.id, s) == 0
    ensures forall v :: ViewOf(Cleared(t, proj.id), proj.id, v) == None
  {
  }

  /** A rebuild gives every view the fold of its full history, from any store content. */
  lemma RebuildIsExact(t: Tables, proj: Projection, category: Id, histories: Histories, records: seq<Record>)
    requires Lists(category, histories, records)
    ensures var t' := DeliverAll(Cleared(t, proj.id), proj, OwnView, records);
            && Mirrors(t', proj, category, histories)
            && forall e :: Offset(t', proj.id, (category, e)) == |HistoryOf(histories, e)|
  {
    ClearedMirrors(t, proj, category, histories);
    PassCompletes(Cleared(t, proj.id), proj, category, histories, records);
  }

  // ---- Runs: tails, re-reads, crashes and rebuilds ----

  /** Each tail remembers how far it has read each entity. */
  datatype System = System(tables: Tables, histories: Histories, tails: seq<map<Id, nat>>)

  function Position(tail: map<Id, nat>, e: Id): nat {
    if e in tail then tail[e] else 0
  }

  function Advanced(tail: map<Id, nat>, e: Id): map<Id, nat> {
    tail[e := Position(tail, e) + 1]
  }

  /** Batch passes are tails from the start; a crash ends every tail and keeps the tables. */
  datatype Step =
    | Appends(e: Id, event: Event)
    | TailStarts(from: map<Id, nat>)
    | TailDelivers(k: nat, e: Id)
    | Crashes
    | Rebuilds(records: seq<Record>)
    | RebuildCrashes(records: seq<Record>, done: nat)

  function RecordAt(category: Id, histories: Histories, e: Id, k: nat): Record
    requires k < |HistoryOf(histories, e)|
  {
    Record(category, e, k + 1, HistoryOf(histories, e)[k])
  }

  ghost predicate Next(proj: Projection, category: Id, s: System, step: Step, s': System) {
    match step
    case Appends(e, event) => s' == s.(histories := s.histories[e := HistoryOf(s.histories, e) + [event]])
    case TailStarts(from) =>
      && (forall e :: Position(from, e) <= Offset(s.tables, proj.id, (category, e)))
      && s' == s.(tails := s.tails + [from])
    case TailDelivers(k, e) =>
      && k < |s.tails| && Position(s.tails[k], e) < |HistoryOf(s.histories, e)|
      && s' == s.(tables := Guarded(s.tables, proj, RecordAt(category, s.histories, e, Position(s.tails[k], e)), e),
                  tails := s.tails[k := Advanced(s.tails[k], e)])
    case Crashes => s' == s.(tails := [])
    case Rebuilds(records) =>
      && Lists(category, s.histories, records)
      && s' == s.(tables := DeliverAll(Cleared(s.tables, proj.id), proj, OwnView, records))
    case RebuildCrashes(records, done) =>
      && Lists(category, s.histories, records) && done <= |records|
      && s' == s.(tables := DeliverAll(Cleared(s.tables, proj.id), proj, OwnView, records[..done]), tails := [])
  }

  /** No tail has read past what is folded, nor past the history. */
  ghost predicate TailsFolded(proj: Projection, category: Id, s: System) {
    forall k: nat, e: Id | k < |s.tails| :: Position(s.tails[k], e) <= Offset(s.tables, proj.id, (category, e))
  }

  ghost predicate Inv(proj: Projection, category: Id, s: System) {
    Mirrors(s.tables, proj, category, s.histories) && TailsFolded(proj, category, s)
  }

  lemma AppendKeeps(proj: Projection, category: Id, t: Tables, histories: Histories, e: Id, event: Event)
    requires Mirrors(t, proj, category, histories)
    ensures Mirrors(t, proj, category, histories[e := HistoryOf(histories, e) + [event]])
  {
    var histories' := histories[e := HistoryOf(histories, e) + [event]];
    forall x ensures MirrorsEntity(t, proj, category, x, HistoryOf(histories', x)) {
      assert MirrorsEntity(t, proj, category, x, HistoryOf(histories, x));
      var n := Offset(t, proj.id, (category, x));
      assert HistoryOf(histories', x)[..n] == HistoryOf(histories, x)[..n];
    }
  }

  lemma TailKeeps(proj: Projection, category: Id, s: System, k: nat, e: Id, s': System)
    requires Inv(proj, category, s) && Next(proj, category, s, TailDelivers(k, e), s')
    ensures Inv(proj, category, s')
  {
    var r := RecordAt(category, s.histories, e, Position(s.tails[k], e));
    DeliveryKeeps(s.tables, proj, category, s.histories, r);
    GuardedTouches(s.tables, proj, r, e);
  }

  lemma RebuildKeeps(proj: Projection, category: Id, s: System, records: seq<Record>)
    requires Inv(proj, category, s) && Lists(category, s.histories, records)
    ensures Inv(proj, category, s.(tables := DeliverAll(Cleared(s.tables, proj.id), proj, OwnView, records)))
  {
    RebuildIsExact(s.tables, proj, category, s.histories, records);
    forall k: nat, e: Id | k < |s.tails| ensures Position(s.tails[k], e) <= |HistoryOf(s.histories, e)| {
      assert MirrorsEntity(s.tables, proj, category, e, HistoryOf(s.histories, e));
    }
  }

  lemma StepKeeps(proj: Projection, category: Id, s: System, step: Step, s': System)
    requires Inv(proj, category, s) && Next(proj, category, s, step, s')
    ensures Inv(proj, category, s')
  {
    match step
    case Appends(e, event) => AppendKeeps(proj, category, s.tables, s.histories, e, event);
    case TailStarts(_) =>
    case TailDelivers(k, e) => TailKeeps(proj, category, s, k, e, s');
    case Crashes =>
    case Rebuilds(records) => RebuildKeeps(proj, category, s, records);
    case RebuildCrashes(records, done) =>
      ClearedMirrors(s.tables, proj, category, s.histories);
      PassKeeps(Cleared(s.tables, proj.id), proj, category, s.histories, records, done);
  }

  ghost predicate StepAt(proj: Projection, category: Id, run: seq<System>, steps: seq<Step>, i: nat)
    requires |run| == |steps| + 1 && i < |steps|
  {
    Next(proj, category, run[i], steps[i], run[i + 1])
  }

  ghost predicate IsRun(proj: Projection, category: Id, run: seq<System>, steps: seq<Step>) {
    && |run| == |steps| + 1 && run[0] == System(Tables(map[], map[]), map[], [])
    && forall i: nat | i < |steps| :: StepAt(proj, category, run, steps, i)
  }

  /** Under appends, passes, re-reads, crashes and rebuilds in any order, every view is at all times
      the fold of exactly its entity's events up to its offset. */
  lemma {:induction false} ViewsFoldHistories(proj: Projection, category: Id, run: seq<System>, steps: seq<Step>,
                                              i: nat)
    requires IsRun(proj, category, run, steps) && i <= |steps|
    ensures Inv(proj, category, run[i])
  {
    if i == 0 {
      assert forall e :: MirrorsEntity(run[0].tables, proj, category, e, HistoryOf(map[], e));
    } else {
      ViewsFoldHistories(proj, category, run, steps, i - 1);
      assert StepAt(proj, category, run, steps, i - 1);
      StepKeeps(proj, category, run[i - 1], steps[i - 1], run[i]);
    }
  }

  /** What tail `k` leaves when it delivers all that is left of an entity's events, one after another. */
  lemma {:induction false} TailCatchesUp(proj: Projection, category: Id, s: System, k: nat, e: Id)
      returns (run: seq<System>, steps: seq<Step>)
    requires Inv(proj, category, s) && k < |s.tails|
    ensures |run| == |steps| + 1 && run[0] == s && forall i: nat | i < |steps| :: StepAt(proj, category, run, steps, i)
    ensures |steps| == |HistoryOf(s.histories, e)| - Position(s.tails[k], e)
    ensures forall i | 0 <= i < |steps| :: steps[i] == TailDelivers(k, e)
    ensures var s' := run[|steps|];
            && Inv(proj, category, s') && s'.histories == s.histories
            && Offset(s'.tables, proj.id, (category, e)) == |HistoryOf(s.histories, e)|
    decreases |HistoryOf(s.histories, e)| - Position(s.tails[k], e)
  {
    assert MirrorsEntity(s.tables, proj, category, e, HistoryOf(s.histories, e));
    assert Position(s.tails[k], e) <= Offset(s.tables, proj.id, (category, e));
    if Position(s.tails[k], e) == |HistoryOf(s.histories, e)| {
      run, steps := [s], [];
    } else {
      var r := RecordAt(category, s.histories, e, Position(s.tails[k], e));
      var next := s.(tables := Guarded(s.tables, proj, r, e), tails := s.tails[k := Advanced(s.tails[k], e)]);
      TailKeeps(proj, category, s, k, e, next);
      var later, more := TailCatchesUp(proj, category, next, k, e);
      run, steps := [s] + later, [TailDelivers(k, e)] + more;
      forall i: nat | i < |steps| ensures StepAt(proj, category, run, steps, i) {
        if i > 0 {
          assert StepAt(proj, category, later, more, i - 1);
          assert run[i] == later[i - 1] && run[i + 1] == later[i] && steps[i] == more[i - 1];
        }
      }
    }
  }

  // ---- Where the guard does not help ----

  /** A rewind keeps the views right exactly when it rewinds nothing. */
  lemma RewindKeepsIff(t: Tables, proj: Projection, category: Id, histories: Histories, e: Id, n: nat)
    requires Mirrors(t, proj, category, histories)
    ensures Mirrors(Rewound(t, proj.id, (category, e), n), proj, category, histories)
            <==> n == Offset(t, proj.id, (category, e))
  {
    var t' := Rewound(t, proj.id, (category, e), n);
    assert MirrorsEntity(t, proj, category, e, HistoryOf(histories, e));
    assert forall v :: ViewOf(t', proj.id, v) == ViewOf(t, proj.id, v);
    if n == Offset(t, proj.id, (category, e)) {
      forall x ensures MirrorsEntity(t', proj, category, x, HistoryOf(histories, x)) {
        assert MirrorsEntity(t, proj, category, x, HistoryOf(histories, x));
      }
    } else {
      assert !MirrorsEntity(t', proj, category, e, HistoryOf(histories, e));
    }
  }

  /** The SQLite store clears in two statements; this is the state between them. */
  function HalfCleared(t: Tables, p: Id): Tables {
    t.(views := Cleared(t, p).views)
  }

  /** A crash between the two loses the folded events of every view, so it is harmless exactly when nothing was
      folded. */
  lemma HalfClearedKeepsIff(t: Tables, proj: Projection, category: Id, histories: Histories)
    requires Mirrors(t, proj, category, histories)
    ensures Mirrors(HalfCleared(t, proj.id), proj, category, histories)
            <==> forall e :: Offset(t, proj.id, (category, e)) == 0
  {
    var t' := HalfCleared(t, proj.id);
    assert forall e :: Offset(t', proj.id, (category, e)) == Offset(t, proj.id, (category, e));
    assert forall e :: ViewOf(t', proj.id, e) == None;
    if Mirrors(t', proj, category, histories) {
      forall e ensures Offset(t, proj.id, (category, e)) == 0 {
        assert MirrorsEntity(t', proj, category, e, HistoryOf(histories, e));
      }
    }
  }

  /** One event is appended, and a tail delivers it. */
  lemma OneEventRun(proj: Projection, category: Id, event: Event) returns (run: seq<System>, steps: seq<Step>)
    ensures IsRun(proj, category, run, steps) && |run| == 4 && HistoryOf(run[3].histories, 0) == [event]
    ensures ViewOf(run[3].tables, proj.id, 0) == Some(Envelope(proj.evolve(proj.initial, event, 0), 1))
    ensures Offset(run[3].tables, proj.id, (category, 0)) == 1
  {
    var empty := Tables(map[], map[]);
    var histories: Histories := map[0 := [event]];
    var r := Record(category, 0, 1, event);
    steps := [Appends(0, event), TailStarts(map[]), TailDelivers(0, 0)];
    run := [System(empty, map[], []), System(empty, histories, []), System(empty, histories, [map[]]),
            System(Guarded(empty, proj, r, 0), histories, [Advanced(map[], 0)])];
    assert HistoryOf(map[], 0) + [event] == [event];
    forall i: nat | i < |steps| ensures StepAt(proj, category, run, steps, i) {
      assert i == 0 || i == 1 || i == 2;
    }
  }

  /** Rewound to 0, the offset lets the event be folded into the view again. */
  lemma RewindFoldsTwice(proj: Projection, category: Id, event: Event) returns (run: seq<System>, steps: seq<Step>)
    ensures IsRun(proj, category, run, steps) && |run| == 4 && HistoryOf(run[3].histories, 0) == [event]
    ensures var again := Guarded(Rewound(run[3].tables, proj.id, (category, 0), 0), proj,
                                 Record(category, 0, 1, event), 0);
            ViewOf(again, proj.id, 0)
            == Some(Envelope(proj.evolve(proj.evolve(proj.initial, event, 0), event, 0), 1))
  {
    run, steps := OneEventRun(proj, category, event);
  }

  /** With the views gone and the offsets kept, redelivering the event brings no view back. */
  lemma HalfClearedStaysEmpty(proj: Projection, category: Id, event: Event)
      returns (run: seq<System>, steps: seq<Step>)
    ensures IsRun(proj, category, run, steps) && |run| == 4 && HistoryOf(run[3].histories, 0) == [event]
    ensures var again := Guarded(HalfCleared(run[3].tables, proj.id), proj, Record(category, 0, 1, event), 0);
            ViewOf(again, proj.id, 0) == None
  {
    run, steps := OneEventRun(proj, category, event);
  }

  lemma {:induction false} FoldedChangesNothing(t: Tables, proj: Projection, route: Route, records: seq<Record>)
    requires forall i | 0 <= i < |records| :: records[i].sequenceNr <= Offset(t, proj.id, SourceOf(records[i]))
    ensures DeliverAll(t, proj, route, records) == t
  {
    if records != [] {
      FoldedChangesNothing(t, proj, route, records[..|records| - 1]);
    }
  }

  lemma {:induction false} PassCovers(t: Tables, proj: Projection, route: Route, records: seq<Record>, i: nat)
    requires i < |records|
    ensures records[i].sequenceNr <= Offset(DeliverAll(t, proj, route, records), proj.id, SourceOf(records[i]))
    decreases |records|
  {
    var front, last := records[..|records| - 1], records[|records| - 1];
    GuardedTouches(DeliverAll(t, proj, route, front), proj, last, route(last.event, last.entityId));
    if i < |front| {
      PassCovers(t, proj, route, front, i);
    }
  }

  /** A second source of the same category shares the offsets of the first, so its pass adds nothing to its own
      views. */
  lemma SameCategoryAddsNothing(t: Tables, proj: Projection, first: Route, second: Route, records: seq<Record>)
    ensures var t' := DeliverAll(t, proj, first, records);
            DeliverAll(t', proj, second, records) == t'
  {
    var t' := DeliverAll(t, proj, first, records);
    forall i | 0 <= i < |records| ensures records[i].sequenceNr <= Offset(t', proj.id, SourceOf(records[i])) {
      PassCovers(t, proj, first, records, i);
    }
    FoldedChangesNothing(t', proj, second, records);
  }

  // ---- Multiple streams: the schedule does not matter ----

  function Lookup(views: map<Id, Envelope>, view: Id): Option<Envelope> {
    if view in views then Some(views[view]) else None
  }

  /** A record routed to its view. */
  datatype Routed = Routed(record: Record, view: Id)

  function Shown(proj: Projection, views: map<Id, Envelope>, x: Routed): map<Id, Envelope> {
    var existing := Lookup(views, x.view);
    views[x.view := LaterThan(Envelope(proj.evolve(Current(proj, existing), x.record.event, x.record.entityId),
                                       x.record.sequenceNr), existing)]
  }

  /** The views after folding records without any guard. */
  function ShowAll(proj: Projection, xs: seq<Routed>): map<Id, Envelope> {
    if xs == [] then map[] else Shown(proj, ShowAll(proj, xs[..|xs| - 1]), xs[|xs| - 1])
  }

  function Evolved(proj: Projection, v: ViewDoc, r: Record): ViewDoc {
    proj.evolve(v, r.event, r.entityId)
  }

  /** Folding the two records gives the same in either order. */
  ghost predicate Commute(proj: Projection, r: Record, s: Record) {
    forall v: ViewDoc :: Evolved(proj, Evolved(proj, v, r), s) == Evolved(proj, Evolved(proj, v, s), r)
  }

  /** Two records of distinct sources that meet in a view. */
  predicate Meet(x: Routed, y: Routed) {
    SourceOf(x.record) != SourceOf(y.record) && x.view == y.view
  }

  /** Records of distinct sources that meet commute; within a source the order may matter. */
  ghost predicate CommutesIn(proj: Projection, xs: seq<Routed>) {
    forall x, y | x in xs && y in xs && Meet(x, y) :: Commute(proj, x.record, y.record)
  }

  lemma Swapped(proj: Projection, views: map<Id, Envelope>, x: Routed, y: Routed)
    requires Meet(x, y) ==> Commute(proj, x.record, y.record)
    requires SourceOf(x.record) != SourceOf(y.record)
    ensures Shown(proj, Shown(proj, views, x), y) == Shown(proj, Shown(proj, views, y), x)
  {
    if x.view == y.view {
      var r, s, v := x.record, y.record, Current(proj, Lookup(views, x.view));
      assert Evolved(proj, Evolved(proj, v, r), s) == Evolved(proj, Evolved(proj, v, s), r);
    }
  }

  lemma ShowOneMore(proj: Projection, xs: seq<Routed>, x: Routed)
    ensures ShowAll(proj, xs + [x]) == Shown(proj, ShowAll(proj, xs), x)
  {
    assert (xs + [x])[..|xs|] == xs;
  }

  lemma {:induction false} MovedToEnd(proj: Projection, before: seq<Routed>, x: Routed, after: seq<Routed>)
    requires forall y | y in after :: SourceOf(y.record) != SourceOf(x.record)
    requires forall y | y in after && Meet(x, y) :: Commute(proj, x.record, y.record)
    ensures ShowAll(proj, before + [x] + after) == ShowAll(proj, before + after + [x])
  {
    if after == [] {
      assert before + [x] + after == before + after + [x];
    } else {
      var front, y := after[..|after| - 1], after[|after| - 1];
      MovedToEnd(proj, before, x, front);
      assert before + [x] + after == before + [x] + front + [y] && before + after == before + front + [y];
      ShowOneMore(proj, before + [x] + front, y);
      ShowOneMore(proj, before + front, x);
      ShowOneMore(proj, before + front, y);
      ShowOneMore(proj, before + after, x);
      Swapped(proj, ShowAll(proj, before + front), x, y);
    }
  }

  /** The records of one source, in order. */
  function Of(xs: seq<Routed>, s: Source): seq<Routed> {
    if xs == [] then [] else
      var rest := Of(xs[..|xs| - 1], s);
      if SourceOf(xs[|xs| - 1].record) == s then rest + [xs[|xs| - 1]] else rest
  }

  lemma {:induction false} OfConcat(a: seq<Routed>, b: seq<Routed>, s: Source)
    ensures Of(a + b, s) == Of(a, s) + Of(b, s)
  {
    if b == [] {
      assert a + b == a;
    } else {
      OfConcat(a, b[..|b| - 1], s);
      assert (a + b)[..|a + b| - 1] == a + b[..|b| - 1];
    }
  }

  /** The last record of a source, with nothing of that source behind it. */
  lemma {:induction false} LastOf(xs: seq<Routed>, s: Source) returns (k: nat)
    requires Of(xs, s) != []
    ensures k < |xs| && xs[k] == Of(xs, s)[|Of(xs, s)| - 1] && SourceOf(xs[k].record) == s
    ensures forall i | k < i < |xs| :: SourceOf(xs[i].record) != s
  {
    if SourceOf(xs[|xs| - 1].record) == s {
      k := |xs| - 1;
    } else {
      k := LastOf(xs[..|xs| - 1], s);
    }
  }

  lemma {:induction false} OfNone(xs: seq<Routed>, s: Source)
    requires forall i | 0 <= i < |xs| :: SourceOf(xs[i].record) != s
    ensures Of(xs, s) == []
  {
    if xs != [] {
      OfNone(xs[..|xs| - 1], s);
    }
  }

  lemma {:induction false} InOf(xs: seq<Routed>, x: Routed)
    ensures x in xs <==> x in Of(xs, SourceOf(x.record))
  {
    if xs != [] {
      InOf(xs[..|xs| - 1], x);
      assert xs == xs[..|xs| - 1] + [xs[|xs| - 1]];
    }
  }

  lemma NoneLeft(xs: seq<Routed>)
    requires forall s :: Of(xs, s) == []
    ensures xs == []
  {
    if xs != [] {
      var left := Of(xs, SourceOf(xs[|xs| - 1].record));
    }
  }

  lemma SameFront(a: seq<Routed>, b: seq<Routed>, x: Routed)
    requires a + [x] == b + [x]
    ensures a == b
  {
    assert (a + [x])[..|a|] == a && (b + [x])[..|b|] == b;
  }

  lemma OfOne(x: Routed, t: Source)
    ensures Of([x], t) == if SourceOf(x.record) == t then [x] else []
  {
  }

  /** Two schedules with the same records per source show the same views. */
  lemma {:induction false} SchedulesAgree(proj: Projection, a: seq<Routed>, b: seq<Routed>)
    requires CommutesIn(proj, a) && forall s :: Of(a, s) == Of(b, s)
    ensures ShowAll(proj, a) == ShowAll(proj, b)
  {
    if a == [] {
      NoneLeft(b);
    } else {
      var front, x := a[..|a| - 1], a[|a| - 1];
      var s := SourceOf(x.record);
      assert Of(a, s) == Of(front, s) + [x];
      var k := LastOf(b, s);
      var before, after := b[..k], b[k + 1..];
      assert b == before + [x] + after;
      forall y | y in after ensures y in a {
        InOf(b, y);
        InOf(a, y);
      }
      MovedToEnd(proj, before, x, after);
      forall t ensures Of(front, t) == Of(before + after, t) {
        OneRemoved(front, x, before, after, t);
      }
      SchedulesAgree(proj, front, before + after);
      ShowOneMore(proj, before + after, x);
      assert a == front + [x];
      ShowOneMore(proj, front, x);
    }
  }

  lemma OfParts(before: seq<Routed>, x: Routed, after: seq<Routed>, t: Source)
    ensures Of(before + [x] + after, t) == Of(before, t) + Of([x], t) + Of(after, t)
  {
    OfConcat(before + [x], after, t);
    OfConcat(before, [x], t);
  }

  lemma OneRemoved(front: seq<Routed>, x: Routed, before: seq<Routed>, after: seq<Routed>, t: Source)
    requires Of(front + [x], t) == Of(before + [x] + after, t)
    requires forall i | 0 <= i < |after| :: SourceOf(after[i].record) != SourceOf(x.record)
    ensures Of(front, t) == Of(before + after, t)
  {
    OfConcat(front, [x], t);
    OfParts(before, x, after, t);
    OfConcat(before, after, t);
    OfOne(x, t);
    if t == SourceOf(x.record) {
      OfNone(after, t);
    }
    Cancels(Of(front, t), Of(before, t), Of(after, t), Of([x], t), x);
  }

  lemma Cancels(front: seq<Routed>, before: seq<Routed>, after: seq<Routed>, own: seq<Routed>, x: Routed)
    requires front + own == before + own + after && (own == [] || (own == [x] && after == []))
    ensures front == before + after
  {
    if own == [] {
      assert front + own == front && before + own == before;
    } else {
      assert before + own + after == before + own && before + after == before;
      SameFront(front, before, x);
    }
  }

  // ---- Through the guard ----

  /** Deliveries to any views; a source's records come from its one history. */
  function DeliverRouted(t: Tables, proj: Projection, xs: seq<Routed>): Tables {
    if xs == [] then t else Guarded(DeliverRouted(t, proj, xs[..|xs| - 1]), proj, xs[|xs| - 1].record,
                                    xs[|xs| - 1].view)
  }

  /** The deliveries that the guard lets through. */
  function Applied(t: Tables, proj: Projection, xs: seq<Routed>): seq<Routed> {
    if xs == [] then [] else
      var front, last := xs[..|xs| - 1], xs[|xs| - 1];
      var before := DeliverRouted(t, proj, front);
      if last.record.sequenceNr <= Offset(before, proj.id, SourceOf(last.record)) then Applied(t, proj, front)
      else Applied(t, proj, front) + [last]
  }

  type Streams = map<Source, seq<Routed>>

  function StreamOf(streams: Streams, s: Source): seq<Routed> {
    if s in streams then streams[s] else []
  }

  /** The streams hold this record at its number. */
  predicate Holds(streams: Streams, x: Routed) {
    var stream := StreamOf(streams, SourceOf(x.record));
    1 <= x.record.sequenceNr <= |stream| && stream[x.record.sequenceNr - 1] == x
  }

  /** The source's stream holds the delivery at its number, at most one past what is folded. */
  predicate InStream(t: Tables, proj: Projection, streams: Streams, x: Routed) {
    Holds(streams, x) && x.record.sequenceNr <= Offset(t, proj.id, SourceOf(x.record)) + 1
  }

  predicate Admissible(t: Tables, proj: Projection, streams: Streams, xs: seq<Routed>) {
    if xs == [] then true else
      Admissible(t, proj, streams, xs[..|xs| - 1])
          && InStream(DeliverRouted(t, proj, xs[..|xs| - 1]), proj, streams, xs[|xs| - 1])
  }

  /** Records of distinct source entities that meet in a view commute; nothing is asked within an entity. */
  ghost predicate CommutesAcross(proj: Projection, streams: Streams) {
    forall x, y | Holds(streams, x) && Holds(streams, y) && Meet(x, y) :: Commute(proj, x.record, y.record)
  }

  lemma {:induction false} AppliedAreHeld(t: Tables, proj: Projection, streams: Streams, xs: seq<Routed>)
    requires Admissible(t, proj, streams, xs)
    ensures forall x | x in Applied(t, proj, xs) :: Holds(streams, x)
  {
    if xs != [] {
      AppliedAreHeld(t, proj, streams, xs[..|xs| - 1]);
    }
  }

  ghost predicate Fresh(t: Tables, p: Id) {
    (forall s: Source :: Offset(t, p, s) == 0) && forall v: Id :: ViewOf(t, p, v) == None
  }

  lemma {:induction false} AppliedOf(t: Tables, proj: Projection, streams: Streams, xs: seq<Routed>, s: Source)
    requires Fresh(t, proj.id) && Admissible(t, proj, streams, xs)
    ensures AppliedUpTo(proj, streams, Applied(t, proj, xs), s, Offset(DeliverRouted(t, proj, xs), proj.id, s))
  {
    if xs != [] {
      var front, last := xs[..|xs| - 1], xs[|xs| - 1];
      AppliedOf(t, proj, streams, front, s);
      var before := DeliverRouted(t, proj, front);
      GuardedTouches(before, proj, last.record, last.view);
      if last.record.sequenceNr > Offset(before, proj.id, SourceOf(last.record)) {
        OneApplied(proj, streams, Applied(t, proj, front), last, s, Offset(before, proj.id, s));
      }
    }
  }

  /** What was applied of a source is the start of its stream. */
  predicate AppliedUpTo(proj: Projection, streams: Streams, applied: seq<Routed>, s: Source, n: nat) {
    n <= |StreamOf(streams, s)| && Of(applied, s) == StreamOf(streams, s)[..n]
  }

  lemma OneApplied(proj: Projection, streams: Streams, applied: seq<Routed>, x: Routed, s: Source, n: nat)
    requires AppliedUpTo(proj, streams, applied, s, n)
    requires SourceOf(x.record) == s ==> n < |StreamOf(streams, s)| && x == StreamOf(streams, s)[n]
                                         && x.record.sequenceNr == n + 1
    ensures AppliedUpTo(proj, streams, applied + [x], s, if SourceOf(x.record) == s then x.record.sequenceNr else n)
  {
    OfConcat(applied, [x], s);
    OfOne(x, s);
  }

  lemma {:induction false} AppliedShows(t: Tables, proj: Projection, xs: seq<Routed>, v: Id)
    requires Fresh(t, proj.id)
    ensures ViewOf(DeliverRouted(t, proj, xs), proj.id, v) == Lookup(ShowAll(proj, Applied(t, proj, xs)), v)
  {
    if xs != [] {
      var front, last := xs[..|xs| - 1], xs[|xs| - 1];
      AppliedShows(t, proj, front, v);
      AppliedShows(t, proj, front, last.view);
      ShowOneMore(proj, Applied(t, proj, front), last);
      GuardedTouches(DeliverRouted(t, proj, front), proj, last.record, last.view);
    }
  }

  /** Any two schedules of deliveries, with re-reads, that folded the same events show the same views. */
  lemma ScheduleDoesNotMatter(proj: Projection, streams: Streams, t: Tables, a: seq<Routed>, u: Tables, b: seq<Routed>)
    requires CommutesAcross(proj, streams) && Fresh(t, proj.id) && Fresh(u, proj.id)
    requires Admissible(t, proj, streams, a) && Admissible(u, proj, streams, b)
    requires forall s :: Offset(DeliverRouted(t, proj, a), proj.id, s) == Offset(DeliverRouted(u, proj, b), proj.id, s)
    ensures forall v :: ViewOf(DeliverRouted(t, proj, a), proj.id, v) == ViewOf(DeliverRouted(u, proj, b), proj.id, v)
  {
    forall s ensures Of(Applied(t, proj, a), s) == Of(Applied(u, proj, b), s) {
      AppliedOf(t, proj, streams, a, s);
      AppliedOf(u, proj, streams, b, s);
      assert Offset(DeliverRouted(t, proj, a), proj.id, s) == Offset(DeliverRouted(u, proj, b), proj.id, s);
    }
    AppliedAreHeld(t, proj, streams, a);
    SchedulesAgree(proj, Applied(t, proj, a), Applied(u, proj, b));
    forall v ensures ViewOf(DeliverRouted(t, proj, a), proj.id, v) == ViewOf(DeliverRouted(u, proj, b), proj.id, v) {
      AppliedShows(t, proj, a, v);
      AppliedShows(u, proj, b, v);
    }
  }

  function RoutedAll(route: Route, records: seq<Record>): seq<Routed> {
    seq(|records|, i requires 0 <= i < |records| => Routed(records[i], route(records[i].event, records[i].entityId)))
  }

  /** The runners deliver each source's records along its route. */
  lemma {:induction false} PassIsSchedule(t: Tables, proj: Projection, route: Route, records: seq<Record>)
    ensures DeliverAll(t, proj, route, records) == DeliverRouted(t, proj, RoutedAll(route, records))
  {
    if records != [] {
      PassIsSchedule(t, proj, route, records[..|records| - 1]);
      assert RoutedAll(route, records)[..|records| - 1] == RoutedAll(route, records[..|records| - 1]);
    }
  }

  lemma {:induction false} DeliverConcat(t: Tables, proj: Projection, a: seq<Routed>, b: seq<Routed>)
    ensures DeliverRouted(t, proj, a + b) == DeliverRouted(DeliverRouted(t, proj, a), proj, b)
  {
    if b == [] {
      assert a + b == a;
    } else {
      DeliverConcat(t, proj, a, b[..|b| - 1]);
      assert (a + b)[..|a + b| - 1] == a + b[..|b| - 1];
    }
  }

  lemma AdmissibleOneMore(t: Tables, proj: Projection, streams: Streams, xs: seq<Routed>, x: Routed)
    ensures Admissible(t, proj, streams, xs + [x])
            <==> Admissible(t, proj, streams, xs) && InStream(DeliverRouted(t, proj, xs), proj, streams, x)
  {
    assert (xs + [x])[..|xs|] == xs;
  }

  lemma {:induction false} AdmissibleConcat(t: Tables, proj: Projection, streams: Streams, a: seq<Routed>,
                                            b: seq<Routed>)
    requires Admissible(t, proj, streams, a) && Admissible(DeliverRouted(t, proj, a), proj, streams, b)
    ensures Admissible(t, proj, streams, a + b)
  {
    if b == [] {
      assert a + b == a;
    } else {
      var front, last := b[..|b| - 1], b[|b| - 1];
      assert b == front + [last];
      Regroup(a, front, [last]);
      AdmissibleOneMore(DeliverRouted(t, proj, a), proj, streams, front, last);
      AdmissibleConcat(t, proj, streams, a, front);
      DeliverConcat(t, proj, a, front);
      AdmissibleOneMore(t, proj, streams, a + front, last);
    }
  }

  /** The streams hold a category's histories, each event routed. */
  ghost predicate StreamsHold(streams: Streams, route: Route, category: Id, histories: Histories) {
    forall e: Id ::
      var stream, events := StreamOf(streams, (category, e)), HistoryOf(histories, e);
      |stream| == |events| && forall k | 0 <= k < |events| ::
          stream[k] == Routed(Record(category, e, k + 1, events[k]), route(events[k], e))
  }

  /** At every point of a pass the events listed so far of an entity are folded. */
  lemma {:induction false} ListedAreFolded(t: Tables, proj: Projection, route: Route, category: Id,
                                           histories: Histories, records: seq<Record>, i: nat, e: Id)
    requires i <= |records| && forall j: nat | j < |records| :: InTurn(category, histories, records, j)
    ensures CountOf(records[..i], e) <= Offset(DeliverAll(t, proj, route, records[..i]), proj.id, (category, e))
  {
    if i > 0 {
      ListedAreFolded(t, proj, route, category, histories, records, i - 1, e);
      var before, r := DeliverAll(t, proj, route, records[..i - 1]), records[i - 1];
      assert records[..i][..i - 1] == records[..i - 1];
      assert InTurn(category, histories, records, i - 1);
      GuardedTouches(before, proj, r, route(r.event, r.entityId));
    }
  }

  lemma {:induction false} PassIsAdmissible(t: Tables, proj: Projection, streams: Streams, route: Route, category: Id,
                                            histories: Histories,
                                            records: seq<Record>, i: nat)
    requires i <= |records| && forall j: nat | j < |records| :: InTurn(category, histories, records, j)
    requires StreamsHold(streams, route, category, histories)
    ensures Admissible(t, proj, streams, RoutedAll(route, records[..i]))
  {
    if i > 0 {
      PassIsAdmissible(t, proj, streams, route, category, histories, records, i - 1);
      assert records[..i][..i - 1] == records[..i - 1];
      assert RoutedAll(route, records[..i])[..i - 1] == RoutedAll(route, records[..i - 1]);
      assert InTurn(category, histories, records, i - 1);
      ListedAreFolded(t, proj, route, category, histories, records, i - 1, records[i - 1].entityId);
      PassIsSchedule(t, proj, route, records[..i - 1]);
    }
  }

  /** One source of a multi-stream projection: its category, its route, what the journal holds and how it is listed. */
  datatype Feed = Feed(category: Id, route: Route, histories: Histories, records: seq<Record>)

  function PairsOf(feeds: seq<Feed>): (r: seq<(Route, seq<Record>)>)
    ensures |r| == |feeds|
  {
    if feeds == [] then [] else PairsOf(feeds[..|feeds| - 1]) + [(feeds[|feeds| - 1].route, feeds[|feeds| - 1].records)]
  }

  function RoutedFeeds(feeds: seq<Feed>): seq<Routed> {
    if feeds == [] then [] else
      RoutedFeeds(feeds[..|feeds| - 1]) + RoutedAll(feeds[|feeds| - 1].route, feeds[|feeds| - 1].records)
  }

  ghost predicate FeedsHold(streams: Streams, feeds: seq<Feed>) {
    forall i | 0 <= i < |feeds| ::
      Lists(feeds[i].category, feeds[i].histories, feeds[i].records)
          && StreamsHold(streams, feeds[i].route, feeds[i].category, feeds[i].histories)
  }

  /** The multi-stream runner delivers an admissible schedule. */
  lemma {:induction false} MultiStreamPassIsSchedule(t: Tables, proj: Projection, streams: Streams, feeds: seq<Feed>)
    requires FeedsHold(streams, feeds)
    ensures DeliverSources(t, proj, PairsOf(feeds)) == DeliverRouted(t, proj, RoutedFeeds(feeds))
    ensures Admissible(t, proj, streams, RoutedFeeds(feeds))
  {
    if feeds != [] {
      var front, last := feeds[..|feeds| - 1], feeds[|feeds| - 1];
      MultiStreamPassIsSchedule(t, proj, streams, front);
      var before := DeliverRouted(t, proj, RoutedFeeds(front));
      assert PairsOf(feeds)[..|feeds| - 1] == PairsOf(front);
      PassIsSchedule(before, proj, last.route, last.records);
      DeliverConcat(t, proj, RoutedFeeds(front), RoutedAll(last.route, last.records));
      assert last == feeds[|feeds| - 1] && last.records[..|last.records|] == last.records;
      PassIsAdmissible(before, proj, streams, last.route, last.category, last.histories, last.records, |last.records|);
      AdmissibleConcat(t, proj, streams, RoutedFeeds(front), RoutedAll(last.route, last.records));
    }
  }

  /** A rebuild by batch shows the views of any tailing schedule that folded as much of every source. */
  lemma BatchAgreesWithTails(proj: Projection, streams: Streams, feeds: seq<Feed>, t: Tables, u: Tables,
                             tailed: seq<Routed>)
    requires CommutesAcross(proj, streams) && FeedsHold(streams, feeds)
    requires Fresh(u, proj.id) && Admissible(u, proj, streams, tailed)
    requires var rebuilt := DeliverSources(Cleared(t, proj.id), proj, PairsOf(feeds));
             forall s :: Offset(rebuilt, proj.id, s) == Offset(DeliverRouted(u, proj, tailed), proj.id, s)
    ensures var rebuilt := DeliverSources(Cleared(t, proj.id), proj, PairsOf(feeds));
            forall v :: ViewOf(rebuilt, proj.id, v) == ViewOf(DeliverRouted(u, proj, tailed), proj.id, v)
  {
    MultiStreamPassIsSchedule(Cleared(t, proj.id), proj, streams, feeds);
    ClearedMirrors(t, proj, 0, map[]);
    ScheduleDoesNotMatter(proj, streams, Cleared(t, proj.id), RoutedFeeds(feeds), u, tailed);
  }

  // ---- What commuting asks of a projection ----

  /** The view has independent slots, and each event goes to the slot of its key by `step`. */
  ghost predicate Slotted<K(!new), S(!new)>(proj: Projection, key: (Event, Id) -> K, get: (ViewDoc, K) -> S,
                                            put: (ViewDoc, K, S) -> ViewDoc, step: (S, Event) -> S) {
    && (forall v, k, l, a, b | k != l :: put(put(v, k, a), l, b) == put(put(v, l, b), k, a))
    && (forall v, k, l, a | k != l :: get(put(v, k, a), l) == get(v, l))
    && forall v, e, id :: proj.evolve(v, e, id) == put(v, key(e, id), step(get(v, key(e, id)), e))
  }

  /** Views with a slot per source commute across sources, whatever the steps inside a slot do. */
  lemma SlotsCommute<K(!new), S(!new)>(proj: Projection, streams: Streams, key: (Event, Id) -> K,
                                       get: (ViewDoc, K) -> S, put: (ViewDoc, K, S) -> ViewDoc, step: (S, Event) -> S)
    requires Slotted(proj, key, get, put, step)
    requires forall x, y | Holds(streams, x) && Holds(streams, y) && Meet(x, y) ::
               key(x.record.event, x.record.entityId) != key(y.record.event, y.record.entityId)
    ensures CommutesAcross(proj, streams)
  {
    forall x, y | Holds(streams, x) && Holds(streams, y) && Meet(x, y) ensures Commute(proj, x.record, y.record) {
      var (k, l) := (key(x.record.event, x.record.entityId), key(y.record.event, y.record.entityId));
      forall v: ViewDoc
        ensures Evolved(proj, Evolved(proj, v, x.record), y.record)
                == Evolved(proj, Evolved(proj, v, y.record), x.record)
      {
        var a, b := step(get(v, k), x.record.event), step(get(v, l), y.record.event);
        assert put(put(v, k, a), l, b) == put(put(v, l, b), k, a);
        assert get(put(v, k, a), l) == get(v, l) && get(put(v, l, b), k) == get(v, k);
      }
    }
  }

  /** Two entities each append a digit to their own number in one shared view. */
  function Digits(pack: (nat, nat) -> ViewDoc, unpack: ViewDoc -> (nat, nat), one: Event): Projection {
    Projection(0, pack(0, 0), (v, e, id) =>
      var (numbers, digit) := (unpack(v), if e == one then 1 else 0);
      if id == 0 then pack(2 * numbers.0 + digit, numbers.1) else pack(numbers.0, 2 * numbers.1 + digit))
  }

  function DigitStreams(one: Event, zero: Event): Streams {
    map[(0, 0) := [Routed(Record(0, 0, 1, one), 7), Routed(Record(0, 0, 2, zero), 7)],
        (0, 1) := [Routed(Record(0, 1, 1, one), 7), Routed(Record(0, 1, 2, zero), 7)]]
  }

  lemma DigitsCommute(pack: (nat, nat) -> ViewDoc, unpack: ViewDoc -> (nat, nat), one: Event, r: Record, s: Record)
    requires forall a: nat, b: nat :: unpack(pack(a, b)) == (a, b)
    requires r.entityId == 0 <==> s.entityId != 0
    ensures Commute(Digits(pack, unpack, one), r, s)
  {
    var proj := Digits(pack, unpack, one);
    forall v: ViewDoc ensures Evolved(proj, Evolved(proj, v, r), s) == Evolved(proj, Evolved(proj, v, s), r) {
      var (a, b) := unpack(v);
      var digitR, digitS := if r.event == one then 1 else 0, if s.event == one then 1 else 0;
      if r.entityId == 0 {
        assert Evolved(proj, v, r) == pack(2 * a + digitR, b) && Evolved(proj, v, s) == pack(a, 2 * b + digitS);
      } else {
        assert Evolved(proj, v, r) == pack(a, 2 * b + digitR) && Evolved(proj, v, s) == pack(2 * a + digitS, b);
      }
    }
  }

  /** The order of an entity's own events matters, the entities share a view, and still the schedule does not matter. */
  lemma OrderMayMatterWithin(pack: (nat, nat) -> ViewDoc, unpack: ViewDoc -> (nat, nat), one: Event, zero: Event)
    requires one != zero && forall a: nat, b: nat :: unpack(pack(a, b)) == (a, b)
    ensures var proj, streams := Digits(pack, unpack, one), DigitStreams(one, zero);
            && CommutesAcross(proj, streams)
            && Meet(streams[(0, 0)][0], streams[(0, 1)][1])
            && !Commute(proj, streams[(0, 0)][0].record, streams[(0, 0)][1].record)
  {
    var proj, streams := Digits(pack, unpack, one), DigitStreams(one, zero);
    forall x, y | Holds(streams, x) && Holds(streams, y) && Meet(x, y) ensures Commute(proj, x.record, y.record) {
      var s, t := SourceOf(x.record), SourceOf(y.record);
      assert s in streams && t in streams && s.0 == t.0 == 0;
      DigitsCommute(pack, unpack, one, x.record, y.record);
    }
    var r, s, v := streams[(0, 0)][0].record, streams[(0, 0)][1].record, pack(0, 0);
    assert unpack(Evolved(proj, Evolved(proj, v, r), s)) == (2, 0);
    assert unpack(Evolved(proj, Evolved(proj, v, s), r)) == (1, 0);
  }
}
