/** Aggregates and codecs, both abstract (src/core/aggregate.ts, src/core/codec.ts). */
module Aggregates {
  import opened Prelude
  import opened Effects

  type Command(==, !new)
  type Answered(==, !new)
  type Event(==, !new)
  type State(==, !new)
  type Data(==, !new)

  type Key = (nat, nat) // category and entity

  datatype Codec<!T> = Codec(manifest: T -> string, encode: T -> Data, decode: (string, Data) -> Option<T>)

  ghost predicate Lawful<T(!new)>(codec: Codec<T>) {
    forall x: T :: codec.decode(codec.manifest(x), codec.encode(x)) == Some(x)
  }

  /** Decoding may fail, as after a change of schema, but never yields another value. */
  ghost predicate Honest<T(!new)>(codec: Codec<T>) {
    forall x: T :: codec.decode(codec.manifest(x), codec.encode(x)).Some?
                   ==> codec.decode(codec.manifest(x), codec.encode(x)) == Some(x)
  }

  type Decision = Effect<Event, Answered>

  datatype Aggregate = Aggregate(
    initial: State, apply: (State, Event) -> State, decide: (State, Command) -> Decision, snapshotEvery: int)

  function Replay(agg: Aggregate, state: State, events: seq<Event>): State {
    if events == [] then state else agg.apply(Replay(agg, state, events[..|events| - 1]), events[|events| - 1])
  }

  /** The state after a history. */
  function Fold(agg: Aggregate, events: seq<Event>): State {
    Replay(agg, agg.initial, events)
  }

  /** Replaying applies every event, one after another, to what the earlier ones have led to. */
  lemma ReplayApplies(agg: Aggregate, state: State, events: seq<Event>, ev: Event)
    ensures Replay(agg, state, events + [ev]) == agg.apply(Replay(agg, state, events), ev)
    ensures Replay(agg, state, []) == state && Fold(agg, []) == agg.initial
  {
    assert (events + [ev])[..|events|] == events;
  }

  lemma {:induction false} ReplayConcat(agg: Aggregate, state: State, a: seq<Event>, b: seq<Event>)
    ensures Replay(agg, state, a + b) == Replay(agg, Replay(agg, state, a), b)
  {
    if b == [] {
      assert a + b == a;
    } else {
      ReplayConcat(agg, state, a, b[..|b| - 1]);
      assert (a + b)[..|a + b| - 1] == a + b[..|b| - 1];
    }
  }
}
