/** The in-memory tail of a category: backlog first, then live events (src/inmem/journal.ts:178-248). */
module InMemTail {
  import opened Prelude

  type EntityId = nat
  type Payload(==, !new)

  datatype Record = Record(globalSeq: nat, entityId: EntityId, sequenceNr: nat, payload: Payload)

  /** The category's part of the journal, its entities in the order of their first event. */
  datatype Journal = Journal(entities: seq<EntityId>, logs: map<EntityId, seq<Record>>, globalSeq: nat)

  function LogOf(j: Journal, e: EntityId): seq<Record> {
    if e in j.logs then j.logs[e] else []
  }

  /** An entity's own events, numbered 1, 2, 3 and so on. */
  ghost predicate Numbered(log: seq<Record>, e: EntityId) {
    forall i | 0 <= i < |log| :: log[i].entityId == e && log[i].sequenceNr == i + 1
  }

  ghost predicate Sound(j: Journal) {
    Distinct(j.entities) && SetOf(j.entities) == j.logs.Keys && forall e :: Numbered(LogOf(j, e), e)
  }

  /** A contiguous batch. */
  function Batch(j: Journal, e: EntityId, payloads: seq<Payload>): (batch: seq<Record>)
    ensures |batch| == |payloads|
  {
    seq(|payloads|, i requires 0 <= i < |payloads| =>
        Record(j.globalSeq + i + 1, e, |LogOf(j, e)| + i + 1, payloads[i]))
  }

  function Written(j: Journal, e: EntityId, payloads: seq<Payload>): Journal {
    if payloads == [] then j else
      Journal(if e in j.logs then j.entities
              else j.entities + [e], j.logs[e := LogOf(j, e) + Batch(j, e, payloads)], j.globalSeq + |payloads|)
  }

  /** A write appends one record per payload to its entity, numbered on, and leaves the other entities alone. */
  lemma WrittenHolds(j: Journal, e: EntityId, payloads: seq<Payload>)
    ensures var before, after := LogOf(j, e), LogOf(Written(j, e, payloads), e);
            && |after| == |before| + |payloads| && before <= after
            && forall i | 0 <= i < |payloads| ::
                 after[|before| + i] == Record(j.globalSeq + i + 1, e, |before| + i + 1, payloads[i])
    ensures forall x | x != e :: LogOf(Written(j, e, payloads), x) == LogOf(j, x)
    ensures Written(j, e, payloads).globalSeq == j.globalSeq + |payloads|
    ensures Written(j, e, payloads).entities
         == j.entities + if payloads != [] && e !in j.logs then [e] else []
  {
  }

  function Of(records: seq<Record>, e: EntityId): seq<Record> {
    if records == [] then [] else
      var front := Of(records[..|records| - 1], e);
      if records[|records| - 1].entityId == e then front + [records[|records| - 1]] else front
  }

  /** The records after the start cursor. */
  function Later(records: seq<Record>, after: nat): seq<Record> {
    if records == [] then [] else
      var front := Later(records[..|records| - 1], after);
      if records[|records| - 1].globalSeq > after then front + [records[|records| - 1]] else front
  }

  lemma {:induction false} OfConcat(a: seq<Record>, b: seq<Record>, e: EntityId)
    ensures Of(a + b, e) == Of(a, e) + Of(b, e)
  {
    if b == [] {
      assert a + b == a;
    } else {
      OfConcat(a, b[..|b| - 1], e);
      assert (a + b)[..|a + b| - 1] == a + b[..|b| - 1];
    }
  }

  lemma {:induction false} LaterConcat(a: seq<Record>, b: seq<Record>, after: nat)
    ensures Later(a + b, after) == Later(a, after) + Later(b, after)
  {
    if b == [] {
      assert a + b == a;
    } else {
      LaterConcat(a, b[..|b| - 1], after);
      assert (a + b)[..|a + b| - 1] == a + b[..|b| - 1];
    }
  }

  lemma {:induction false} OfOwn(log: seq<Record>, e: EntityId, x: EntityId)
    requires forall i | 0 <= i < |log| :: log[i].entityId == e
    ensures Of(log, x) == if x == e then log else []
  {
    if log != [] {
      OfOwn(log[..|log| - 1], e, x);
    }
  }

  lemma OfHead(records: seq<Record>, e: EntityId)
    requires records != []
    ensures Of(records, e) == (if records[0].entityId == e then [records[0]] else []) + Of(records[1..], e)
  {
    assert records == [records[0]] + records[1..];
    OfConcat([records[0]], records[1..], e);
    OfOwn([records[0]], records[0].entityId, e);
  }

  // ---- The tail ----

  /** `marks` is the per-entity high-water mark; `yielded` what the consumer got. */
  datatype Tail = Tail(after: nat, backlog: seq<Record>, queue: seq<Record>, marks: map<EntityId, nat>,
                       yielded: seq<Record>)

  function Mark(tail: Tail, e: EntityId): nat {
    if e in tail.marks then tail.marks[e] else 0
  }

  /** One backlog record: always marked, yielded when after the cursor. */
  function Replayed(tail: Tail): Tail
    requires tail.backlog != []
  {
    var r := tail.backlog[0];
    tail.(backlog := tail.backlog[1..],
          marks := tail.marks[r.entityId := Max(Mark(tail, r.entityId), r.sequenceNr)],
          yielded := if r.globalSeq <= tail.after then tail.yielded else tail.yielded + [r])
  }

  /** One live record: skipped when at or below the mark of its entity. */
  function Drained(tail: Tail): Tail
    requires tail.queue != []
  {
    var r, rest := tail.queue[0], tail.(queue := tail.queue[1..]);
    if r.sequenceNr <= Mark(tail, r.entityId) then rest else
      rest.(marks := tail.marks[r.entityId := r.sequenceNr],
            yielded := if r.globalSeq <= tail.after then tail.yielded else tail.yielded + [r])
  }

  predicate Idle(tail: Tail) {
    tail.backlog == [] && tail.queue == []
  }

  /** The backlog before the queue. */
  function Advanced(tail: Tail): Tail
    requires !Idle(tail)
  {
    if tail.backlog != [] then Replayed(tail) else Drained(tail)
  }

  /** What the mark covers was yielded, the rest is in backlog and queue. */
  ghost predicate ExactFor(j: Journal, tail: Tail, e: EntityId) {
    var log, n := LogOf(j, e), Mark(tail, e);
    && n <= |log|
    && log[n..] == Of(tail.backlog, e) + Of(tail.queue, e)
    && Of(tail.yielded, e) == Later(log[..n], tail.after)
  }

  ghost predicate Exact(j: Journal, tail: Tail) {
    forall e :: ExactFor(j, tail, e)
  }

  /** Each event after the start cursor exactly once, ascending per entity: emitted, or still held. */
  lemma ExactMeansOnce(j: Journal, tail: Tail, e: EntityId)
    requires Exact(j, tail)
    ensures Of(tail.yielded, e) + Later(Of(tail.backlog, e) + Of(tail.queue, e), tail.after)
            == Later(LogOf(j, e), tail.after)
  {
    assert ExactFor(j, tail, e);
    var log, n := LogOf(j, e), Mark(tail, e);
    assert log == log[..n] + log[n..];
    LaterConcat(log[..n], log[n..], tail.after);
  }

  /** The next record of an entity is the one right behind its mark, so the seam filter never drops one. */
  lemma FilterNeverFires(j: Journal, tail: Tail)
    requires Sound(j) && Exact(j, tail) && tail.backlog == [] && tail.queue != []
    ensures tail.queue[0].sequenceNr == Mark(tail, tail.queue[0].entityId) + 1
  {
    var r := tail.queue[0];
    var e := r.entityId;
    assert ExactFor(j, tail, e) && Numbered(LogOf(j, e), e);
    OfHead(tail.queue, e);
    NextBehindMark(LogOf(j, e), Mark(tail, e), e, r, Of(tail.queue[1..], e));
  }

  lemma NextBehindMark(log: seq<Record>, n: nat, e: EntityId, r: Record, rest: seq<Record>)
    requires Numbered(log, e) && n <= |log| && log[n..] == [r] + rest
    ensures n < |log| && log[n] == r && r.sequenceNr == n + 1 && log[n + 1..] == rest && log[..n + 1] == log[..n] + [r]
  {
    assert log[n..][0] == r && log[n..][1..] == rest;
    assert log[n + 1..] == log[n..][1..];
  }

  lemma LaterOneMore(records: seq<Record>, r: Record, after: nat)
    ensures Later(records + [r], after) == if r.globalSeq > after then Later(records, after) + [r]
            else Later(records, after)
  {
    assert (records + [r])[..|records|] == records;
  }

  lemma OfOneMore(records: seq<Record>, r: Record, e: EntityId)
    ensures Of(records + [r], e) == if r.entityId == e then Of(records, e) + [r] else Of(records, e)
  {
    assert (records + [r])[..|records|] == records;
  }

  /** Moving one record behind its entity's mark keeps the entity exact. */
  lemma EntityAdvances(j: Journal, tail: Tail, tail': Tail, e: EntityId, r: Record)
    requires Numbered(LogOf(j, e), e) && ExactFor(j, tail, e) && tail'.after == tail.after
    requires Of(tail.backlog, e) + Of(tail.queue, e) == [r] + (Of(tail'.backlog, e) + Of(tail'.queue, e))
    requires Mark(tail', e) == r.sequenceNr && r.entityId == e
    requires tail'.yielded == if r.globalSeq <= tail.after then tail.yielded else tail.yielded + [r]
    ensures ExactFor(j, tail', e)
  {
    NextBehindMark(LogOf(j, e), Mark(tail, e), e, r, Of(tail'.backlog, e) + Of(tail'.queue, e));
    LaterOneMore(LogOf(j, e)[..Mark(tail, e)], r, tail.after);
    OfOneMore(tail.yielded, r, e);
  }

  lemma OthersStay(j: Journal, tail: Tail, tail': Tail, e: EntityId, r: Record)
    requires ExactFor(j, tail, e) && tail'.after == tail.after && r.entityId != e
    requires Of(tail.backlog, e) == Of(tail'.backlog, e) && Of(tail.queue, e) == Of(tail'.queue, e)
             && Mark(tail', e) == Mark(tail, e)
    requires tail'.yielded == if r.globalSeq <= tail.after then tail.yielded else tail.yielded + [r]
    ensures ExactFor(j, tail', e)
  {
    OfOneMore(tail.yielded, r, e);
  }

  lemma ReplayKeeps(j: Journal, tail: Tail)
    requires Sound(j) && Exact(j, tail) && tail.backlog != []
    ensures Exact(j, Replayed(tail))
  {
    var r, tail' := tail.backlog[0], Replayed(tail);
    forall e ensures ExactFor(j, tail', e) {
      assert ExactFor(j, tail, e) && Numbered(LogOf(j, e), e);
      OfHead(tail.backlog, e);
      if e == r.entityId {
        Regroup([r], Of(tail'.backlog, e), Of(tail.queue, e));
        NextBehindMark(LogOf(j, e), Mark(tail, e), e, r, Of(tail'.backlog, e) + Of(tail.queue, e));
        EntityAdvances(j, tail, tail', e, r);
      } else {
        assert [] + Of(tail'.backlog, e) == Of(tail'.backlog, e);
        OthersStay(j, tail, tail', e, r);
      }
    }
  }

  lemma DrainKeeps(j: Journal, tail: Tail)
    requires Sound(j) && Exact(j, tail) && tail.backlog == [] && tail.queue != []
    ensures Exact(j, Drained(tail))
  {
    var r, tail' := tail.queue[0], Drained(tail);
    FilterNeverFires(j, tail);
    forall e ensures ExactFor(j, tail', e) {
      assert ExactFor(j, tail, e) && Numbered(LogOf(j, e), e);
      OfHead(tail.queue, e);
      assert [] + Of(tail.queue, e) == Of(tail.queue, e) && [] + Of(tail'.queue, e) == Of(tail'.queue, e);
      if e == r.entityId {
        EntityAdvances(j, tail, tail', e, r);
      } else {
        OthersStay(j, tail, tail', e, r);
      }
    }
  }

  /** The listener queues every event of the category as it is written. */
  function Notified(tail: Tail, batch: seq<Record>): Tail {
    tail.(queue := tail.queue + batch)
  }

  lemma WriteKeeps(j: Journal, tail: Tail, e: EntityId, payloads: seq<Payload>)
    requires Sound(j) && Exact(j, tail)
    ensures Exact(Written(j, e, payloads), Notified(tail, Batch(j, e, payloads)))
  {
    var batch := Batch(j, e, payloads);
    var j', tail' := Written(j, e, payloads), Notified(tail, batch);
    forall x ensures ExactFor(j', tail', x) {
      assert ExactFor(j, tail, x);
      OfOwn(batch, e, x);
      if x == e {
        OwnWrite(j, tail, j', e, batch);
      } else {
        OtherWrite(j, tail, j', x, batch);
      }
    }
  }

  lemma OwnWrite(j: Journal, tail: Tail, j': Journal, e: EntityId, batch: seq<Record>)
    requires ExactFor(j, tail, e) && LogOf(j', e) == LogOf(j, e) + batch && Of(batch, e) == batch
    ensures ExactFor(j', Notified(tail, batch), e)
  {
    var log, n := LogOf(j, e), Mark(tail, e);
    OfConcat(tail.queue, batch, e);
    assert (log + batch)[n..] == log[n..] + batch && (log + batch)[..n] == log[..n];
    Regroup(Of(tail.backlog, e), Of(tail.queue, e), batch);
  }

  lemma OtherWrite(j: Journal, tail: Tail, j': Journal, x: EntityId, batch: seq<Record>)
    requires ExactFor(j, tail, x) && LogOf(j', x) == LogOf(j, x) && Of(batch, x) == []
    ensures ExactFor(j', Notified(tail, batch), x)
  {
    OfConcat(tail.queue, batch, x);
    assert Of(tail.queue, x) + [] == Of(tail.queue, x);
  }

  lemma WriteKeepsSound(j: Journal, e: EntityId, payloads: seq<Payload>)
    requires Sound(j)
    ensures Sound(Written(j, e, payloads))
  {
    var j' := Written(j, e, payloads);
    forall x ensures Numbered(LogOf(j', x), x) {
      assert Numbered(LogOf(j, x), x);
    }
  }

  // ---- Starting: subscribe and copy the backlog in one go ----

  function BacklogOf(j: Journal, entities: seq<EntityId>): seq<Record> {
    if entities == [] then [] else BacklogOf(j, entities[..|entities| - 1]) + LogOf(j, entities[|entities| - 1])
  }

  lemma OwnLog(j: Journal, x: EntityId, e: EntityId)
    requires Sound(j)
    ensures Of(LogOf(j, x), e) == if x == e then LogOf(j, x) else []
  {
    assert Numbered(LogOf(j, x), x);
    OfOwn(LogOf(j, x), x, e);
  }

  lemma {:induction false} BacklogHolds(j: Journal, entities: seq<EntityId>, e: EntityId)
    requires Sound(j) && Distinct(entities)
    ensures Of(BacklogOf(j, entities), e) == if e in entities then LogOf(j, e) else []
  {
    if entities != [] {
      var front, last := entities[..|entities| - 1], entities[|entities| - 1];
      BacklogHolds(j, front, e);
      assert e in entities <==> e in front || e == last;
      assert e in front ==> e != last;
      OwnLog(j, last, e);
      OfConcat(BacklogOf(j, front), LogOf(j, last), e);
    }
  }

  lemma BacklogOneMore(j: Journal, i: nat)
    requires i < |j.entities|
    ensures BacklogOf(j, j.entities[..i + 1]) == BacklogOf(j, j.entities[..i]) + LogOf(j, j.entities[i])
  {
    assert j.entities[..i + 1][..i] == j.entities[..i];
  }

  function StartedAt(j: Journal, after: nat): Tail {
    Tail(after, BacklogOf(j, j.entities), [], map[], [])
  }

  lemma StartIsExact(j: Journal, after: nat)
    requires Sound(j)
    ensures Exact(j, StartedAt(j, after))
  {
    var tail := StartedAt(j, after);
    forall e ensures ExactFor(j, tail, e) {
      BacklogHolds(j, j.entities, e);
      assert e in SetOf(j.entities) <==> e in j.logs;
      assert LogOf(j, e)[0..] == LogOf(j, e) && LogOf(j, e)[..0] == [];
      assert LogOf(j, e) + [] == LogOf(j, e);
    }
  }

  // ---- Runs ----

  datatype Step = Writes(e: EntityId, payloads: seq<Payload>) | OtherCategoryWrites(count: nat) | Advances

  datatype System = System(journal: Journal, tail: Tail)

  ghost predicate Next(s: System, step: Step, s': System) {
    match step
    case Writes(e, payloads) =>
      s' == System(Written(s.journal, e, payloads), Notified(s.tail, Batch(s.journal, e, payloads)))
    case OtherCategoryWrites(count) => s' == s.(journal := s.journal.(globalSeq := s.journal.globalSeq + count))
    case Advances => !Idle(s.tail) && s' == s.(tail := Advanced(s.tail))
  }

  lemma StepKeeps(s: System, step: Step, s': System)
    requires Sound(s.journal) && Exact(s.journal, s.tail) && Next(s, step, s')
    ensures Sound(s'.journal) && Exact(s'.journal, s'.tail) && s'.tail.after == s.tail.after
  {
    match step
    case Writes(e, payloads) =>
      WriteKeepsSound(s.journal, e, payloads);
      WriteKeeps(s.journal, s.tail, e, payloads);
    case OtherCategoryWrites(_) =>
      forall e ensures Numbered(LogOf(s'.journal, e), e) && ExactFor(s'.journal, s'.tail, e) {
        assert Numbered(LogOf(s.journal, e), e) && ExactFor(s.journal, s.tail, e);
      }
    case Advances =>
      if s.tail.backlog != [] {
        ReplayKeeps(s.journal, s.tail);
      } else {
        DrainKeeps(s.journal, s.tail);
      }
  }

  ghost predicate StepAt(run: seq<System>, steps: seq<Step>, i: nat)
    requires |run| == |steps| + 1 && i < |steps|
  {
    Next(run[i], steps[i], run[i + 1])
  }

  /** Over every interleaving of contiguous writes and pulls, each event of the category after the start
      cursor has been emitted or is still held, exactly once, ascending per entity. */
  lemma {:induction false} EachEventOnce(run: seq<System>, steps: seq<Step>, after: nat, i: nat)
    requires |run| == |steps| + 1 && Sound(run[0].journal) && run[0].tail == StartedAt(run[0].journal, after)
    requires forall j: nat | j < |steps| :: StepAt(run, steps, j)
    requires i <= |steps|
    ensures Sound(run[i].journal) && Exact(run[i].journal, run[i].tail) && run[i].tail.after == after
  {
    if i == 0 {
      StartIsExact(run[0].journal, after);
    } else {
      EachEventOnce(run, steps, after, i - 1);
      assert StepAt(run, steps, i - 1);
      StepKeeps(run[i - 1], steps[i - 1], run[i]);
    }
  }

  // ---- Without contiguous numbers ----

  /** The tail after `n` live records, whatever their numbers; the journal itself would accept writes in any order. */
  function DrainedBy(tail: Tail, n: nat): (r: Tail)
    requires n <= |tail.queue|
    ensures r.queue == tail.queue[n..] && r.after == tail.after
  {
    if n == 0 then tail else Drained(DrainedBy(tail, n - 1))
  }

  /** The largest number of the entity that came before, in the backlog or among the first `n` live records. */
  ghost predicate IsLargest(tail: Tail, n: nat, e: EntityId, mark: nat)
    requires n <= |tail.queue|
  {
    && Mark(tail, e) <= mark
    && (forall k | 0 <= k < n && tail.queue[k].entityId == e :: tail.queue[k].sequenceNr <= mark)
    && (mark == Mark(tail, e) || exists k :: 0 <= k < n && tail.queue[k].entityId == e
                                             && tail.queue[k].sequenceNr == mark)
  }

  lemma {:induction false} MarkIsLargest(tail: Tail, n: nat, e: EntityId)
    requires n <= |tail.queue|
    ensures IsLargest(tail, n, e, Mark(DrainedBy(tail, n), e))
  {
    if n > 0 {
      MarkIsLargest(tail, n - 1, e);
      assert DrainedBy(tail, n - 1).queue[0] == tail.queue[n - 1];
    }
  }

  /** Among live records with any numbers, one after the cursor is lost exactly when some number of its entity that came
      before it, in the backlog or live, is at least its own. */
  lemma LostIff(tail: Tail, i: nat)
    requires i < |tail.queue| && tail.queue[i].globalSeq > tail.after
    ensures var r := tail.queue[i];
            DrainedBy(tail, i + 1).yielded == DrainedBy(tail, i).yielded
            <==> r.sequenceNr <= Mark(tail, r.entityId)
                 || exists k :: 0 <= k < i && tail.queue[k].entityId == r.entityId
                                && r.sequenceNr <= tail.queue[k].sequenceNr
  {
    var r, before := tail.queue[i], DrainedBy(tail, i);
    MarkIsLargest(tail, i, r.entityId);
    assert before.queue[0] == r;
    assert |before.yielded + [r]| == |before.yielded| + 1;
  }

  /** The events 2 and 1 of one entity arrive live in that order: the second to arrive is lost. */
  lemma LostOutOfOrder(a: Payload, b: Payload)
    ensures var first, second := Record(1, 0, 2, a), Record(2, 0, 1, b);
            DrainedBy(Tail(0, [], [first, second], map[], []), 2).yielded == [first]
  {
    var first, second := Record(1, 0, 2, a), Record(2, 0, 1, b);
    var tail := Tail(0, [], [first, second], map[], []);
    var once := DrainedBy(tail, 1);
    assert once == Drained(DrainedBy(tail, 0)) && once.yielded == [] + [first];
    LostIff(tail, 1);
  }

  /** The generator behind `tailAllEvents`. */
  class CategoryTail {
    var tail: Tail

    /** Subscribing and copying the backlog happen before anything else can be written. */
    constructor (j: Journal, after: nat)
      requires Sound(j)
      ensures tail == StartedAt(j, after) && Exact(j, tail) && tail.after == after && tail.yielded == []
    {
      var backlog := [];
      var i := 0;
      while i < |j.entities|
        invariant 0 <= i <= |j.entities|
        invariant backlog == BacklogOf(j, j.entities[..i])
      {
        BacklogOneMore(j, i);
        var log, k := LogOf(j, j.entities[i]), 0;
        ghost var before := backlog;
        while k < |log|
          invariant 0 <= k <= |log|
          invariant backlog == before + log[..k]
        {
          backlog := backlog + [log[k]];
          k := k + 1;
        }
        assert log[..k] == log;
        i := i + 1;
      }
      assert j.entities[..i] == j.entities;
      tail := Tail(after, backlog, [], map[], []);
      StartIsExact(j, after);
    }

    /** The listener. */
    method Notify(batch: seq<Record>)
      modifies this
      ensures tail == Notified(old(tail), batch)
    {
      tail := tail.(queue := tail.queue + batch);
    }

    /** Runs to the next yield; nothing means that the tail waits, with nothing left to hand out. */
    method Pull(j: Journal) returns (r: Option<Record>)
      requires Sound(j) && Exact(j, tail)
      modifies this
      ensures Exact(j, tail) && tail.after == old(tail).after
      ensures tail.yielded == if r.Some? then old(tail).yielded + [r.value] else old(tail).yielded
      ensures r.None? ==> Idle(tail) && forall e :: Of(tail.yielded, e) == Later(LogOf(j, e), tail.after)
    {
      while !Idle(tail)
        invariant Exact(j, tail) && tail.after == old(tail).after && tail.yielded == old(tail).yielded
        decreases |tail.backlog| + |tail.queue|
      {
        var x := if tail.backlog != [] then tail.backlog[0] else tail.queue[0];
        if tail.backlog != [] {
          ReplayKeeps(j, tail);
        } else {
          FilterNeverFires(j, tail);
          DrainKeeps(j, tail);
        }
        tail := Advanced(tail);
        if x.globalSeq > tail.after {
          return Some(x);
        }
      }
      forall e ensures Of(tail.yielded, e) == Later(LogOf(j, e), tail.after) {
        ExactMeansOnce(j, tail, e);
        assert Of(tail.yielded, e) + [] == Of(tail.yielded, e);
      }
      return None;
    }
  }
}
