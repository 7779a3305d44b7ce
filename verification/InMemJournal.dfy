/** The in-memory journal: batches, replay and snapshots (src/inmem/journal.ts). */
module InMemJournal {
  import opened Prelude
  import opened Aggregates

  datatype StoredEvent = StoredEvent(globalSeq: nat, sequenceNr: nat, manifest: string, data: Data)

  datatype StoredSnapshot = StoredSnapshot(sequenceNr: nat, manifest: string, data: Data)

  type Log = seq<StoredEvent>

  function Stored<E>(events: seq<E>, start: nat, globalSeq: nat, codec: Codec<E>): (log: Log)
    ensures |log| == |events|
  {
    seq(|events|, i requires 0 <= i < |events| =>
      StoredEvent(globalSeq + i + 1, start + i + 1, codec.manifest(events[i]), codec.encode(events[i])))
  }

  predicate Taken(log: Log, sequenceNr: nat) {
    exists i :: 0 <= i < |log| && log[i].sequenceNr == sequenceNr
  }

  /** Some number of the batch is taken already. */
  ghost predicate Collides(log: Log, start: nat, size: nat) {
    exists n :: start < n <= start + size && Taken(log, n)
  }

  /** Numbered 1, 2, 3 and so on. */
  ghost predicate Numbered(log: Log) {
    forall i | 0 <= i < |log| :: log[i].sequenceNr == i + 1
  }

  /** Within a gapless history of an incarnation's own past, a write collides exactly when it is stale. */
  lemma CollidesIffStale(log: Log, start: nat, size: nat)
    requires Numbered(log) && start <= |log| && size > 0
    ensures Collides(log, start, size) <==> start < |log|
  {
    if start < |log| {
      assert log[start].sequenceNr == start + 1;
      assert Taken(log, start + 1);
    }
  }

  ghost predicate AscendsTo(log: Log, last: nat) {
    && (forall i, j | 0 <= i < j < |log| :: log[i].globalSeq < log[j].globalSeq)
    && forall i | 0 <= i < |log| :: 0 < log[i].globalSeq <= last
  }

  ghost predicate Apart(a: Log, b: Log) {
    forall i, j | 0 <= i < |a| && 0 <= j < |b| :: a[i].globalSeq != b[j].globalSeq
  }

  ghost predicate AllNumbered(logs: map<Key, Log>, last: nat) {
    && (forall key | key in logs :: AscendsTo(logs[key], last))
    && forall a, b | a in logs && b in logs && a != b :: Apart(logs[a], logs[b])
  }

  lemma AppendKeepsNumbered<E>(logs: map<Key, Log>, key: Key, log: Log, events: seq<E>, start: nat, last: nat,
                               codec: Codec<E>)
    requires AllNumbered(logs, last) && log == if key in logs then logs[key] else []
    ensures AllNumbered(logs[key := log + Stored(events, start, last, codec)], last + |events|)
  {
    var logs' := logs[key := log + Stored(events, start, last, codec)];
    StoredAscends(log, events, start, last, codec);
    forall a | a in logs' && a != key ensures Apart(logs'[a], logs'[key]) && Apart(logs'[key], logs'[a]) {
      assert key in logs ==> Apart(logs[a], logs[key]) && Apart(logs[key], logs[a]);
      assert AscendsTo(logs[a], last);
    }
  }

  /** A batch goes on with the global numbers, one by one, and with the entity's. */
  lemma StoredAscends<E>(log: Log, events: seq<E>, start: nat, globalSeq: nat, codec: Codec<E>)
    ensures AscendsTo(log, globalSeq)
            ==> AscendsTo(log + Stored(events, start, globalSeq, codec), globalSeq + |events|)
    ensures forall i | 0 <= i < |events| ::
              Stored(events, start, globalSeq, codec)[i].globalSeq == globalSeq + i + 1
              && Stored(events, start, globalSeq, codec)[i].sequenceNr == start + i + 1
  {
  }

  function DecodeAll<E>(log: Log, codec: Codec<E>): Option<seq<E>> {
    if log == [] then Some([]) else
      var front, last := DecodeAll(log[..|log| - 1], codec), codec.decode(log[|log| - 1].manifest, log[|log| - 1].data);
      if front.Some? && last.Some? then Some(front.value + [last.value]) else None
  }

  lemma {:induction false} DecodeLength<E>(log: Log, codec: Codec<E>)
    ensures DecodeAll(log, codec).Some? ==> |DecodeAll(log, codec).value| == |log|
  {
    if log != [] {
      DecodeLength(log[..|log| - 1], codec);
    }
  }

  lemma DecodeOneMore<E>(log: Log, last: StoredEvent, codec: Codec<E>)
    ensures DecodeAll(log + [last], codec)
         == var front, x := DecodeAll(log, codec), codec.decode(last.manifest, last.data);
            if front.Some? && x.Some? then Some(front.value + [x.value]) else None
  {
    assert (log + [last])[..|log|] == log;
  }

  lemma {:induction false} DecodeConcat<E>(a: Log, b: Log, codec: Codec<E>)
    requires DecodeAll(a, codec).Some? && DecodeAll(b, codec).Some?
    ensures DecodeAll(a + b, codec) == Some(DecodeAll(a, codec).value + DecodeAll(b, codec).value)
  {
    if b == [] {
      assert a + b == a;
      assert DecodeAll(a, codec).value + [] == DecodeAll(a, codec).value;
    } else {
      var front, last := b[..|b| - 1], b[|b| - 1];
      DecodeConcat(a, front, codec);
      Regroup(a, front, [last]);
      assert b == front + [last];
      DecodeOneMore(a + front, last, codec);
      Regroup(DecodeAll(a, codec).value, DecodeAll(front, codec).value, [codec.decode(last.manifest, last.data).value]);
    }
  }

  /** Both parts of a decodable history decode, to the two parts of its events. */
  lemma {:induction false} DecodeParts<E>(a: Log, b: Log, codec: Codec<E>)
    requires DecodeAll(a + b, codec).Some?
    ensures DecodeAll(a, codec).Some? && DecodeAll(b, codec).Some?
    ensures DecodeAll(a + b, codec).value == DecodeAll(a, codec).value + DecodeAll(b, codec).value
    ensures |DecodeAll(a, codec).value| == |a|
  {
    if b == [] {
      assert a + b == a;
    } else {
      var front, last := b[..|b| - 1], b[|b| - 1];
      assert b == front + [last];
      Regroup(a, front, [last]);
      DecodeOneMore(a + front, last, codec);
      DecodeParts(a, front, codec);
      DecodeOneMore(front, last, codec);
      DecodeConcat(a, b, codec);
    }
    DecodeLength(a, codec);
  }

  /** Storing and decoding gives the events back. */
  lemma {:induction false} StoredDecodes<E(!new)>(events: seq<E>, start: nat, globalSeq: nat, codec: Codec<E>)
    requires Lawful(codec)
    ensures DecodeAll(Stored(events, start, globalSeq, codec), codec) == Some(events)
  {
    var log := Stored(events, start, globalSeq, codec);
    if events != [] {
      var front, last := events[..|events| - 1], events[|events| - 1];
      StoredDecodes(front, start, globalSeq, codec);
      assert log == Stored(front, start, globalSeq, codec) + [log[|log| - 1]];
      assert codec.decode(codec.manifest(last), codec.encode(last)) == Some(last);
      DecodeOneMore(Stored(front, start, globalSeq, codec), log[|log| - 1], codec);
      assert events == front + [last];
    }
  }

  /** The entries numbered above `from`. */
  function After(log: Log, from: nat): Log {
    if log == [] then [] else
      var front := After(log[..|log| - 1], from);
      if log[|log| - 1].sequenceNr > from then front + [log[|log| - 1]] else front
  }

  function Numbers(log: Log): seq<nat> {
    seq(|log|, i requires 0 <= i < |log| => log[i].sequenceNr)
  }

  lemma {:induction false} AfterIsSuffix(log: Log, from: nat)
    requires Numbered(log)
    ensures After(log, from) == if from <= |log| then log[from..] else []
  {
    if log != [] {
      AfterIsSuffix(log[..|log| - 1], from);
    }
  }

  predicate Decodes<E>(entry: StoredEvent, codec: Codec<E>) {
    codec.decode(entry.manifest, entry.data).Some?
  }

  /** Loading fails exactly when a later entry does not decode. */
  lemma {:induction false} UndecodableIff<E>(log: Log, from: nat, codec: Codec<E>)
    ensures DecodeAll(After(log, from), codec).None?
        <==> exists i :: 0 <= i < |log| && log[i].sequenceNr > from && !Decodes(log[i], codec)
  {
    if log != [] {
      var front, last := log[..|log| - 1], log[|log| - 1];
      UndecodableIff(front, from, codec);
      if DecodeAll(After(front, from), codec).None? {
        var i :| 0 <= i < |front| && front[i].sequenceNr > from && !Decodes(front[i], codec);
        assert log[i] == front[i];
      }
      if last.sequenceNr > from {
        DecodeOneMore(After(front, from), last, codec);
        assert !Decodes(last, codec) ==> !Decodes(log[|log| - 1], codec);
      }
    }
  }

  lemma {:induction false} DecodedAt<E>(log: Log, codec: Codec<E>)
    requires DecodeAll(log, codec).Some?
    ensures var r := DecodeAll(log, codec).value;
            |r| == |log| && forall i | 0 <= i < |r| :: Some(r[i]) == codec.decode(log[i].manifest, log[i].data)
  {
    if log != [] {
      DecodedAt(log[..|log| - 1], codec);
    }
  }

  /** Decoding entry by entry is decoding the log. */
  lemma {:induction false} DecodedAll<E>(log: Log, codec: Codec<E>, events: seq<E>)
    requires |events| == |log| && forall i | 0 <= i < |log| ::
             Some(events[i]) == codec.decode(log[i].manifest, log[i].data)
    ensures DecodeAll(log, codec) == Some(events)
  {
    if log != [] {
      DecodedAll(log[..|log| - 1], codec, events[..|log| - 1]);
      assert events == events[..|log| - 1] + [events[|log| - 1]];
    }
  }

  /** The events of the entries behind the first `from`, with their numbers. */
  ghost predicate AreAbove<E>(log: Log, from: nat, codec: Codec<E>, events: seq<E>, numbers: seq<nat>)
    requires from <= |log|
  {
    && |events| == |numbers| == |log| - from
    && (forall i | 0 <= i < |numbers| :: numbers[i] == from + i + 1)
    && forall i | 0 <= i < |events| :: Some(events[i]) == codec.decode(log[from + i].manifest, log[from + i].data)
  }

  class Journal {
    var events: map<Key, Log>
    var snapshots: map<Key, StoredSnapshot>
    var globalSeq: nat

    constructor ()
      ensures events == map[] && snapshots == map[] && globalSeq == 0 && GloballyNumbered()
    {
      events, snapshots, globalSeq := map[], map[], 0;
    }

    /** Every entry has a global number of its own, ascending within an entity, up to the last one given. */
    ghost predicate GloballyNumbered()
      reads this
    {
      AllNumbered(events, globalSeq)
    }

    function LogOf(key: Key): Log
      reads this
    {
      if key in events then events[key] else []
    }

    /** All of the batch is stored, or nothing when one of its numbers is taken. */
    method PersistEvents<E>(key: Key, newEvents: seq<E>, start: nat, codec: Codec<E>) returns (r: Option<nat>)
      modifies this`events, this`globalSeq
      ensures r == if newEvents != [] && Collides(old(LogOf(key)), start, |newEvents|) then None
              else Some(start + |newEvents|)
      ensures r.None? || newEvents == [] ==> events == old(events) && globalSeq == old(globalSeq)
      ensures r.Some? && newEvents != [] ==>
                && events == old(events)[key := old(LogOf(key)) + Stored(newEvents, start, old(globalSeq), codec)]
                && globalSeq == old(globalSeq) + |newEvents|
      ensures old(GloballyNumbered()) ==> GloballyNumbered()
    {
      if |newEvents| == 0 {
        return Some(start);
      }
      var existing := LogOf(key);
      var stored := Stored(newEvents, start, globalSeq, codec);
      var taken := set i | 0 <= i < |existing| :: existing[i].sequenceNr;
      assert forall n :: n in taken <==> Taken(existing, n);
      var i := 0;
      while i < |stored|
        invariant 0 <= i <= |stored|
        invariant forall n | start < n <= start + i :: !Taken(existing, n)
      {
        if stored[i].sequenceNr in taken {
          return None;
        }
        i := i + 1;
      }
      if AllNumbered(events, globalSeq) {
        AppendKeepsNumbered(events, key, existing, newEvents, start, globalSeq, codec);
      }
      globalSeq := globalSeq + |stored|;
      events := events[key := existing + stored];
      return Some(start + |newEvents|);
    }

    /** From a gapless log exactly the events above `from`, in order with their numbers; None exactly when some entry
        above `from` does not decode. */
    method LoadEvents<E>(key: Key, from: nat, codec: Codec<E>) returns (r: Option<seq<E>>, numbers: seq<nat>)
      ensures r.None? <==> exists i :: 0 <= i < |LogOf(key)| && LogOf(key)[i].sequenceNr > from
                                       && !Decodes(LogOf(key)[i], codec)
      ensures r.Some? && Numbered(LogOf(key)) && from <= |LogOf(key)|
              ==> AreAbove(LogOf(key), from, codec, r.value, numbers)
    {
      var later := After(LogOf(key), from);
      r, numbers := DecodeAll(later, codec), Numbers(later);
      UndecodableIff(LogOf(key), from, codec);
      if Numbered(LogOf(key)) {
        AfterIsSuffix(LogOf(key), from);
      }
      if r.Some? {
        DecodedAt(later, codec);
      }
    }

    method PersistSnapshot<S>(key: Key, state: S, sequenceNr: nat, codec: Codec<S>)
      modifies this`snapshots
      ensures snapshots == old(snapshots)[key := StoredSnapshot(sequenceNr, codec.manifest(state), codec.encode(state))]
    {
      snapshots := snapshots[key := StoredSnapshot(sequenceNr, codec.manifest(state), codec.encode(state))];
    }

    /** The decoded snapshot; `undecodable` reports one that does not decode. */
    method LoadSnapshot<S>(key: Key, codec: Codec<S>) returns (snap: Option<(nat, S)>, undecodable: bool)
      ensures undecodable <==> key in snapshots && codec.decode(snapshots[key].manifest, snapshots[key].data).None?
      ensures snap.Some? <==> key in snapshots && !undecodable
      ensures snap.Some? ==> snap.value.0 == snapshots[key].sequenceNr
                             && Some(snap.value.1) == codec.decode(snapshots[key].manifest, snapshots[key].data)
    {
      if key !in snapshots {
        return None, false;
      }
      var stored := snapshots[key];
      var state := codec.decode(stored.manifest, stored.data);
      if state.None? {
        return None, true;
      }
      return Some((stored.sequenceNr, state.value)), false;
    }
  }
}
