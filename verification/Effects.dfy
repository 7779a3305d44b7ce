/** Effects: declarative chains of what a decision asks for (src/core/effect.ts). */
module Effects {
  import opened Prelude

  type SideEffect = nat
  type DeferredId = nat

  datatype Effect<+Event, +Reply> =
    | Persist(events: seq<Event>, andThen: Effect<Event, Reply>)
    | Run(sideEffect: SideEffect, andThen: Effect<Event, Reply>)
    | Reply(value: Reply)
    | ReplyDeferred(deferred: DeferredId)
    | Snapshot(andThen: Effect<Event, Reply>)
    | Stop
    | Stash
    | Unstash(andThen: Effect<Event, Reply>)
    | Done

  function AppendToChain<E, R>(effect: Effect<E, R>, next: Effect<E, R>): Effect<E, R> {
    match effect
    case Persist(events, andThen) => Persist(events, AppendToChain(andThen, next))
    case Run(sideEffect, andThen) => Run(sideEffect, AppendToChain(andThen, next))
    case Snapshot(andThen) => Snapshot(AppendToChain(andThen, next))
    case Unstash(andThen) => Unstash(AppendToChain(andThen, next))
    case Done => next
    case _ => effect
  }

  /** What the chain ends in. */
  function Terminator<E, R>(effect: Effect<E, R>): Effect<E, R> {
    match effect
    case Persist(_, andThen) => Terminator(andThen)
    case Run(_, andThen) => Terminator(andThen)
    case Snapshot(andThen) => Terminator(andThen)
    case Unstash(andThen) => Terminator(andThen)
    case _ => effect
  }

  function HasReply<E, R>(effect: Effect<E, R>): bool {
    match effect
    case Reply(_) => true
    case ReplyDeferred(_) => true
    case Persist(_, andThen) => HasReply(andThen)
    case Run(_, andThen) => HasReply(andThen)
    case Snapshot(andThen) => HasReply(andThen)
    case Unstash(andThen) => HasReply(andThen)
    case _ => false
  }

  function ExtractEvents<E, R>(effect: Effect<E, R>): seq<E> {
    match effect
    case Persist(events, andThen) => events + ExtractEvents(andThen)
    case Run(_, andThen) => ExtractEvents(andThen)
    case Snapshot(andThen) => ExtractEvents(andThen)
    case Unstash(andThen) => ExtractEvents(andThen)
    case _ => []
  }

  function SideEffectsOf<E, R>(effect: Effect<E, R>): seq<SideEffect> {
    match effect
    case Run(sideEffect, andThen) => [sideEffect] + SideEffectsOf(andThen)
    case Persist(_, andThen) => SideEffectsOf(andThen)
    case Snapshot(andThen) => SideEffectsOf(andThen)
    case Unstash(andThen) => SideEffectsOf(andThen)
    case _ => []
  }

  predicate HasSnapshot<E, R>(effect: Effect<E, R>) {
    match effect
    case Snapshot(_) => true
    case Persist(_, andThen) => HasSnapshot(andThen)
    case Run(_, andThen) => HasSnapshot(andThen)
    case Unstash(andThen) => HasSnapshot(andThen)
    case _ => false
  }

  predicate HasUnstash<E, R>(effect: Effect<E, R>) {
    match effect
    case Unstash(_) => true
    case Persist(_, andThen) => HasUnstash(andThen)
    case Run(_, andThen) => HasUnstash(andThen)
    case Snapshot(andThen) => HasUnstash(andThen)
    case _ => false
  }

  // ---- Chains form a monoid in which replies, stops and stashes absorb what follows ----

  lemma {:induction false} AppendAssociates<E, R>(a: Effect<E, R>, b: Effect<E, R>, c: Effect<E, R>)
    ensures AppendToChain(AppendToChain(a, b), c) == AppendToChain(a, AppendToChain(b, c))
  {
    if a.Persist? || a.Run? || a.Snapshot? || a.Unstash? {
      AppendAssociates(a.andThen, b, c);
    }
  }

  lemma {:induction false} DoneIsNeutral<E, R>(a: Effect<E, R>)
    ensures AppendToChain(Done, a) == a && AppendToChain(a, Done) == a
  {
    if a.Persist? || a.Run? || a.Snapshot? || a.Unstash? {
      DoneIsNeutral(a.andThen);
    }
  }

  lemma {:induction false} AppendEnds<E, R>(a: Effect<E, R>, b: Effect<E, R>)
    ensures Terminator(AppendToChain(a, b)) == if Terminator(a).Done? then Terminator(b) else Terminator(a)
    ensures !Terminator(a).Done? ==> AppendToChain(a, b) == a
  {
    if a.Persist? || a.Run? || a.Snapshot? || a.Unstash? {
      AppendEnds(a.andThen, b);
    }
  }

  /** A chain takes no more effects exactly when it ends in a terminal one. */
  lemma AbsorbsIff<E, R>(a: Effect<E, R>)
    ensures (forall b :: AppendToChain(a, b) == a) <==> !Terminator(a).Done?
  {
    forall b ensures !Terminator(a).Done? ==> AppendToChain(a, b) == a {
      AppendEnds(a, b);
    }
    if Terminator(a).Done? {
      AppendEnds(a, Stop);
      assert AppendToChain(a, Stop) != a;
    }
  }

  /** Appending adds the later events exactly when the earlier chain lets them through. */
  lemma {:induction false} AppendedEvents<E, R>(a: Effect<E, R>, b: Effect<E, R>)
    ensures ExtractEvents(AppendToChain(a, b)) == ExtractEvents(a) + if Terminator(a).Done? then ExtractEvents(b)
            else []
    ensures HasReply(AppendToChain(a, b)) <==> HasReply(a) || (Terminator(a).Done? && HasReply(b))
  {
    if a.Persist? || a.Run? || a.Snapshot? || a.Unstash? {
      AppendedEvents(a.andThen, b);
    }
    if a.Persist? {
      Regroup(a.events, ExtractEvents(a.andThen), if Terminator(a).Done? then ExtractEvents(b) else []);
    }
  }

  /** A chain replies exactly when it ends in a reply. */
  lemma {:induction false} ReplyIsLast<E, R>(a: Effect<E, R>)
    ensures HasReply(a) <==> Terminator(a).Reply? || Terminator(a).ReplyDeferred?
  {
    if a.Persist? || a.Run? || a.Snapshot? || a.Unstash? {
      ReplyIsLast(a.andThen);
    }
  }
}
