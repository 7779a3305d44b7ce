/** What each operation of the token game leaves, place by place and in order, and how it is counted
    (src/petrinet/executable-flow.ts:96-254). */
module PetriOrder {
  import opened Prelude
  import opened PetriSchema
  import opened PetriTokens

  // ---- Taking: the earliest token of each required tag, the others in their order ----

  ghost predicate FirstOfItsTag(tokens: seq<Token>, i: nat)
    requires i < |tokens|
  {
    forall j | 0 <= j < i :: tokens[j].tag != tokens[i].tag
  }

  /** The tokens that are, or are not, the first of a required tag, in order. */
  ghost function Earliest(tokens: seq<Token>, required: set<Tag>, taken: bool): seq<Token> {
    if tokens == [] then [] else
      var front, last := tokens[..|tokens| - 1], tokens[|tokens| - 1];
      Earliest(front, required, taken)
      + if taken == (last.tag in required && FirstOfItsTag(tokens, |tokens| - 1)) then [last] else []
  }

  lemma {:induction false} EarliestByHead(head: Token, tail: seq<Token>, required: set<Tag>, later: set<Tag>,
                                          taken: bool)
    requires later == required - {head.tag}
    ensures Earliest([head] + tail, required, taken)
         == (if taken == (head.tag in required) then [head] else []) + Earliest(tail, later, taken)
  {
    var tokens := [head] + tail;
    if tail == [] {
      assert tokens[..0] == [] && tokens == [head];
      assert FirstOfItsTag(tokens, 0);
    } else {
      var front, last := tail[..|tail| - 1], tail[|tail| - 1];
      EarliestByHead(head, front, required, later, taken);
      assert tokens[..|tokens| - 1] == [head] + front && tokens[|tokens| - 1] == last;
      assert FirstOfItsTag(tokens, |tokens| - 1) <==> last.tag != head.tag && FirstOfItsTag(tail, |tail| - 1) by {
        assert forall j | 0 <= j < |tail| :: tokens[j + 1] == tail[j];
        assert tokens[0] == head;
        if FirstOfItsTag(tokens, |tokens| - 1) {
          forall j | 0 <= j < |tail| - 1 ensures tail[j].tag != last.tag {
            assert tokens[j + 1].tag != last.tag;
          }
        }
      }
    }
  }

  /** A start takes the earliest token of each required tag and leaves the others in order. */
  lemma {:induction false} TakesEarliest(tokens: seq<Token>, required: set<Tag>)
    ensures Taken(tokens, required) == Earliest(tokens, required, true)
    ensures Remaining(tokens, required) == Earliest(tokens, required, false)
  {
    if tokens != [] {
      var head, tail := tokens[0], tokens[1..];
      assert tokens == [head] + tail;
      if head.tag in required {
        TakesEarliest(tail, required - {head.tag});
        EarliestByHead(head, tail, required, required - {head.tag}, true);
        EarliestByHead(head, tail, required, required - {head.tag}, false);
      } else {
        TakesEarliest(tail, required);
        assert required - {head.tag} == required;
        EarliestByHead(head, tail, required, required, true);
        EarliestByHead(head, tail, required, required, false);
      }
    }
  }

  // ---- What each operation leaves ----

  /** Only these places and transitions may differ, the net keeps its limits, and `n` changes at `now` are counted. */
  ghost predicate Touches(flow: ExecutableFlow, flow': ExecutableFlow, places: set<PlaceId>,
                          transitions: set<TransitionId>, n: nat, now: int)
  {
    && flow'.places.Keys == flow.places.Keys && flow'.transitions.Keys == flow.transitions.Keys
    && (forall p | p in flow.places && p !in places :: flow'.places[p] == flow.places[p])
    && (forall t | t in flow.transitions && t !in transitions :: flow'.transitions[t] == flow.transitions[t])
    && (flow'.placeIds, flow'.transitionIds) == (flow.placeIds, flow.transitionIds)
    && (flow'.maxTransitionRetries, flow'.backoffBaseMillis) == (flow.maxTransitionRetries, flow.backoffBaseMillis)
    && flow'.number == flow.number + n && flow'.updated == if n > 0 then now else flow.updated
  }

  /** The place has got `tokens` at its end, from `span` when there is one. */
  ghost predicate Gets(place: PlaceInstance, place': PlaceInstance, tokens: seq<Token>, span: Option<SpanId>) {
    && (place'.id, place'.accepts, place'.kind) == (place.id, place.accepts, place.kind)
    && place'.tokens == place.tokens + tokens
    && place'.lastSpan == if tokens != [] && span.Some? then span else place.lastSpan
  }

  function Accepted(tokens: seq<Token>, accepts: set<Tag>): seq<Token> {
    if tokens == [] then [] else
      var last := tokens[|tokens| - 1];
      Accepted(tokens[..|tokens| - 1], accepts) + if last.tag in accepts then [last] else []
  }

  /** What `results` send to a place and it accepts, in order. */
  function SentTo(results: Results, id: PlaceId, accepts: set<Tag>): seq<Token> {
    if results == [] then [] else
      var last := results[|results| - 1];
      SentTo(results[..|results| - 1], id, accepts) + if last.0 == id then Accepted(last.1, accepts) else []
  }

  /** How many of the results their places accept. */
  function AcceptedCount(flow: ExecutableFlow, results: Results): nat {
    if results == [] then 0 else
      var (id, tokens) := results[|results| - 1];
      AcceptedCount(flow, results[..|results| - 1])
      + if id in flow.places then |Accepted(tokens, flow.places[id].accepts)| else 0
  }

  lemma AddIs(flow: ExecutableFlow, id: PlaceId, token: Token, span: Option<SpanId>, now: int)
    ensures var flow' := AddToken(flow, id, token, span, now);
            if id in flow.places && token.tag in flow.places[id].accepts
            then Touches(flow, flow', {id}, {}, 1, now) && Gets(flow.places[id], flow'.places[id], [token], span)
            else flow' == flow
  {
  }

  lemma {:induction false} AddTokensIs(flow: ExecutableFlow, id: PlaceId, tokens: seq<Token>, span: Option<SpanId>,
                                       now: int)
    ensures var flow' := AddTokens(flow, id, tokens, span, now);
            if id in flow.places
            then var arrived := Accepted(tokens, flow.places[id].accepts);
                 Touches(flow, flow', {id}, {}, |arrived|, now)
                 && Gets(flow.places[id], flow'.places[id], arrived, span)
            else flow' == flow
  {
    if tokens != [] {
      var front, last := tokens[..|tokens| - 1], tokens[|tokens| - 1];
      AddTokensIs(flow, id, front, span, now);
      AddIs(AddTokens(flow, id, front, span, now), id, last, span, now);
    }
  }

  /** Every place gets what the results send to it and it accepts, at the end and in order. */
  ghost predicate Arrived(flow: ExecutableFlow, flow': ExecutableFlow, results: Results, span: Option<SpanId>) {
    flow'.places.Keys == flow.places.Keys && forall p | p in flow.places ::
      Gets(flow.places[p], flow'.places[p], SentTo(results, p, flow.places[p].accepts), span)
  }

  lemma {:induction false} ResultsArrive(flow: ExecutableFlow, results: Results, span: Option<SpanId>, now: int)
    ensures var flow' := AddResults(flow, results, span, now);
            && Touches(flow, flow', flow.places.Keys, {}, AcceptedCount(flow, results), now)
            && Arrived(flow, flow', results, span)
  {
    if results != [] {
      var front := results[..|results| - 1];
      var (id, tokens) := results[|results| - 1];
      var before := AddResults(flow, front, span, now);
      ResultsArrive(flow, front, span, now);
      AddTokensIs(before, id, tokens, span, now);
      OneMoreArrives(flow, before, AddTokens(before, id, tokens, span, now), results, span);
    }
  }

  lemma OneMoreArrives(flow: ExecutableFlow, before: ExecutableFlow, flow': ExecutableFlow, results: Results,
                       span: Option<SpanId>)
    requires results != [] && Arrived(flow, before, results[..|results| - 1], span)
    requires flow'.places.Keys == before.places.Keys
    requires var (id, tokens) := results[|results| - 1];
             && (forall p | p in before.places && p != id :: flow'.places[p] == before.places[p])
             && (id in before.places ==>
                   Gets(before.places[id], flow'.places[id], Accepted(tokens, before.places[id].accepts), span))
    ensures Arrived(flow, flow', results, span)
  {
    var front := results[..|results| - 1];
    var (id, tokens) := results[|results| - 1];
    forall p | p in flow.places
      ensures Gets(flow.places[p], flow'.places[p], SentTo(results, p, flow.places[p].accepts), span)
    {
      var accepts := flow.places[p].accepts;
      assert Gets(flow.places[p], before.places[p], SentTo(front, p, accepts), span);
      Regroup(flow.places[p].tokens, SentTo(front, p, accepts), if p == id then Accepted(tokens, accepts) else []);
    }
  }

  /** What is recorded as produced are all results, one place after another. */
  lemma {:induction false} ProducedInOrder(a: Results, b: Results)
    ensures AllTokens(a + b) == AllTokens(a) + AllTokens(b)
    ensures forall id, tokens :: AllTokens([(id, tokens)]) == tokens
  {
    forall id: PlaceId, tokens: seq<Token> ensures AllTokens([(id, tokens)]) == tokens {
      assert [(id, tokens)][..0] == [];
      assert [] + tokens == tokens;
    }
    if b == [] {
      assert a + b == a;
    } else {
      ProducedInOrder(a, b[..|b| - 1]);
      assert (a + b)[..|a + b| - 1] == a + b[..|b| - 1];
      Regroup(AllTokens(a), AllTokens(b[..|b| - 1]), b[|b| - 1].1);
    }
  }

  /** A completion delivers its results and closes the transition, for good as far as attempts go. */
  lemma CompletionIs(flow: ExecutableFlow, id: TransitionId, results: Results, span: SpanId, now: int)
    requires id in flow.transitions
    ensures var flow', t := CompletedFlow(flow, id, results, span, now), flow.transitions[id];
            && Touches(flow, flow', flow.places.Keys, {id}, AcceptedCount(flow, results) + 1, now)
            && Arrived(flow, flow', results, Some(span))
            && flow'.transitions[id] == TransitionInstance(
                 t.id, t.from, t.consumes, t.consumed, t.produces, AllTokens(results), Completed, 0, None)
  {
    ResultsArrive(flow, results, Some(span), now);
  }

  /** A start leaves the tokens it does not take in order at the place, and holds what it takes. */
  lemma StartIs(flow: ExecutableFlow, id: TransitionId, place: PlaceId, consumed: seq<Token>, now: int)
    requires id in flow.transitions && place in flow.places
    ensures var flow', p, t := Started(flow, id, place, consumed, now), flow.places[place], flow.transitions[id];
            && Touches(flow, flow', {place}, {id}, 1, now)
            && flow'.places[place]
               == PlaceInstance(p.id, p.accepts, p.kind, Earliest(p.tokens, t.consumes, false), p.lastSpan)
            && flow'.transitions[id] == TransitionInstance(
                 t.id, t.from, t.consumes, Some(consumed), t.produces, t.produced, Ongoing, t.retryAttempts,
                 t.nextRetryAt)
  {
    TakesEarliest(flow.places[place].tokens, flow.transitions[id].consumes);
  }

  /** A failure returns what is held to the end of the place and counts an attempt; up to the limit the next one is due
      after the backoff. */
  lemma FailureIs(flow: ExecutableFlow, id: TransitionId, place: PlaceId, now: int)
    requires id in flow.transitions && place in flow.places
    ensures var flow', t := FailedFlow(flow, id, place, now), flow.transitions[id];
            && Touches(flow, flow', {place}, {id}, 1, now)
            && Gets(flow.places[place], flow'.places[place], if t.consumed.Some? then t.consumed.value else [], None)
            && var again := t.retryAttempts < flow.maxTransitionRetries;
               flow'.transitions[id] == TransitionInstance(
                 t.id, t.from, t.consumes, t.consumed, t.produces, t.produced, if again then NotStarted else Failed,
                 t.retryAttempts + 1,
                 if again then Some(now + RetryDelay(flow, t.retryAttempts + 1)) else None)
  {
  }
}
