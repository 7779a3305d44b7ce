/** The token game of a running Petri net (src/petrinet/executable-flow.ts). */
module PetriTokens {
  import opened Prelude
  import opened PetriSchema

  type SpanId = nat

  /** A tag and the rest of the token. */
  datatype Token = Token(tag: Tag, body: int)

  datatype PlaceInstance = PlaceInstance(id: PlaceId, accepts: set<Tag>, kind: PlaceType, tokens: seq<Token>,
                                         lastSpan: Option<SpanId>)

  datatype TransitionState = NotStarted | Ongoing | Completed | Failed

  datatype TransitionInstance = TransitionInstance(
    id: TransitionId, from: PlaceId, consumes: set<Tag>, consumed: Option<seq<Token>>, produces: map<Tag, PlaceId>,
    produced: seq<Token>, state: TransitionState, retryAttempts: nat, nextRetryAt: Option<int>)

  /** The two id lists give the insertion order of the maps. */
  datatype ExecutableFlow = ExecutableFlow(
    placeIds: seq<PlaceId>, places: map<PlaceId, PlaceInstance>,
    transitionIds: seq<TransitionId>, transitions: map<TransitionId, TransitionInstance>,
    updated: int, number: nat, maxTransitionRetries: int, backoffBaseMillis: int)

  // ---- Token operations ----

  function Tick(flow: ExecutableFlow, now: int): ExecutableFlow {
    flow.(updated := now, number := flow.number + 1)
  }

  function WithPlace(flow: ExecutableFlow, id: PlaceId, place: PlaceInstance): ExecutableFlow {
    flow.(places := flow.places[id := place])
  }

  function WithTransition(flow: ExecutableFlow, id: TransitionId, transition: TransitionInstance): ExecutableFlow {
    flow.(transitions := flow.transitions[id := transition])
  }

  predicate AcceptedAt(flow: ExecutableFlow, id: PlaceId, tag: Tag) {
    id in flow.places && tag in flow.places[id].accepts
  }

  function WithToken(place: PlaceInstance, token: Token, span: Option<SpanId>): PlaceInstance {
    place.(tokens := place.tokens + [token], lastSpan := if span.Some? then span else place.lastSpan)
  }

  function AddToken(flow: ExecutableFlow, id: PlaceId, token: Token, span: Option<SpanId>, now: int): ExecutableFlow {
    if !AcceptedAt(flow, id, token.tag) then flow else
      var place := flow.places[id];
      Tick(WithPlace(flow, id, WithToken(place, token, span)), now)
  }

  function AddTokens(flow: ExecutableFlow, id: PlaceId, tokens: seq<Token>, span: Option<SpanId>,
                     now: int): ExecutableFlow
  {
    if tokens == [] then flow else
      AddToken(AddTokens(flow, id, tokens[..|tokens| - 1], span, now), id, tokens[|tokens| - 1], span, now)
  }

  type Results = seq<(PlaceId, seq<Token>)>

  function AddResults(flow: ExecutableFlow, results: Results, span: Option<SpanId>, now: int): ExecutableFlow {
    if results == [] then flow else
      var (id, tokens) := results[|results| - 1];
      AddTokens(AddResults(flow, results[..|results| - 1], span, now), id, tokens, span, now)
  }

  function AllTokens(results: Results): seq<Token> {
    if results == [] then [] else AllTokens(results[..|results| - 1]) + results[|results| - 1].1
  }

  // ---- Taking tokens ----

  /** What is left when the first token of each required tag is taken. */
  function Remaining(tokens: seq<Token>, required: set<Tag>): seq<Token> {
    if tokens == [] then []
    else if tokens[0].tag in required then Remaining(tokens[1..], required - {tokens[0].tag})
    else [tokens[0]] + Remaining(tokens[1..], required)
  }

  /** The first token of each required tag. */
  function Taken(tokens: seq<Token>, required: set<Tag>): seq<Token> {
    if tokens == [] then []
    else if tokens[0].tag in required then [tokens[0]] + Taken(tokens[1..], required - {tokens[0].tag})
    else Taken(tokens[1..], required)
  }

  function TagCount(tokens: seq<Token>, tag: Tag): nat {
    if tokens == [] then 0 else (if tokens[0].tag == tag then 1 else 0) + TagCount(tokens[1..], tag)
  }

  /** How often a token occurs. */
  function Count(tokens: seq<Token>, x: Token): nat {
    if tokens == [] then 0 else (if tokens[0] == x then 1 else 0) + Count(tokens[1..], x)
  }

  lemma {:induction false} CountConcat(a: seq<Token>, b: seq<Token>, x: Token)
    ensures Count(a + b, x) == Count(a, x) + Count(b, x)
  {
    if a == [] {
      assert a + b == b;
    } else {
      CountConcat(a[1..], b, x);
      assert (a + b)[1..] == a[1..] + b;
    }
  }

  lemma {:induction false} CountHas(tokens: seq<Token>, x: Token)
    ensures Count(tokens, x) > 0 <==> x in tokens
  {
    if tokens != [] {
      CountHas(tokens[1..], x);
      assert tokens == [tokens[0]] + tokens[1..];
    }
  }

  /** The same tokens, in any order. */
  ghost predicate SameTokens(a: seq<Token>, b: seq<Token>) {
    forall x :: Count(a, x) == Count(b, x)
  }

  lemma {:induction false} TakenAndRemaining(tokens: seq<Token>, required: set<Tag>, x: Token)
    ensures Count(Taken(tokens, required), x) + Count(Remaining(tokens, required), x) == Count(tokens, x)
  {
    if tokens != [] {
      TakenAndRemaining(tokens[1..], if tokens[0].tag in required then required - {tokens[0].tag} else required, x);
    }
  }

  lemma {:induction false} TakenOncePerTag(tokens: seq<Token>, required: set<Tag>, tag: Tag)
    ensures TagCount(Taken(tokens, required), tag) == if tag in required && TagCount(tokens, tag) > 0 then 1 else 0
  {
    if tokens != [] {
      TakenOncePerTag(tokens[1..], if tokens[0].tag in required then required - {tokens[0].tag} else required, tag);
    }
  }

  lemma {:induction false} TagCountConcat(a: seq<Token>, b: seq<Token>, tag: Tag)
    ensures TagCount(a + b, tag) == TagCount(a, tag) + TagCount(b, tag)
  {
    if a == [] {
      assert a + b == b;
    } else {
      TagCountConcat(a[1..], b, tag);
      assert (a + b)[1..] == a[1..] + b;
    }
  }

  lemma TagCountWithout(b: seq<Token>, i: nat, tag: Tag, x: Token)
    requires i < |b|
    ensures TagCount(b, tag) == TagCount(b[..i] + b[i + 1..], tag) + if b[i].tag == tag then 1 else 0
    ensures Count(b, x) == Count(b[..i] + b[i + 1..], x) + if b[i] == x then 1 else 0
  {
    assert b == b[..i] + ([b[i]] + b[i + 1..]);
    TagCountConcat(b[..i], b[i + 1..], tag);
    TagCountConcat(b[..i], [b[i]] + b[i + 1..], tag);
    CountConcat(b[..i], b[i + 1..], x);
    CountConcat(b[..i], [b[i]] + b[i + 1..], x);
  }

  /** Counting by tag ignores the order. */
  lemma {:induction false} TagCountPermutes(a: seq<Token>, b: seq<Token>, tag: Tag)
    requires SameTokens(a, b)
    ensures TagCount(a, tag) == TagCount(b, tag)
  {
    if a == [] {
      if b != [] {
        CountHas(b, b[0]);
        assert false;
      }
    } else {
      assert Count(a, a[0]) > 0;
      CountHas(b, a[0]);
      var i :| 0 <= i < |b| && b[i] == a[0];
      var b' := b[..i] + b[i + 1..];
      forall x ensures Count(a[1..], x) == Count(b', x) {
        assert Count(a, x) == Count(b, x);
        TagCountWithout(b, i, tag, x);
      }
      TagCountPermutes(a[1..], b', tag);
      TagCountWithout(b, i, tag, a[0]);
    }
  }

  lemma {:induction false} TakeNothing(tokens: seq<Token>)
    ensures Remaining(tokens, {}) == tokens && Taken(tokens, {}) == []
  {
    if tokens != [] {
      TakeNothing(tokens[1..]);
    }
  }

  predicate FirstWithTag(tokens: seq<Token>, tag: Tag, k: nat) {
    k < |tokens| && tokens[k].tag == tag && forall i | 0 <= i < k :: tokens[i].tag != tag
  }

  /** The tags may be taken in any order. */
  lemma {:induction false} TakeOne(tokens: seq<Token>, required: set<Tag>, tag: Tag, k: nat, x: Token)
    requires tag in required && FirstWithTag(tokens, tag, k)
    ensures var rest := tokens[..k] + tokens[k + 1..];
            && Remaining(tokens, required) == Remaining(rest, required - {tag})
            && Count(Taken(tokens, required), x) == Count(Taken(rest, required - {tag}), x) + if tokens[k] == x then 1
                else 0
  {
    var rest := tokens[..k] + tokens[k + 1..];
    if k == 0 {
      assert rest == tokens[1..];
    } else {
      var head := tokens[0].tag;
      var required' := if head in required then required - {head} else required;
      TakeOne(tokens[1..], required', tag, k - 1, x);
      assert rest[1..] == tokens[1..][..k - 1] + tokens[1..][k..];
      assert required - {tag} - {head} == required - {head} - {tag};
      assert rest[0] == tokens[0];
    }
  }

  lemma {:induction false} TakeAbsent(tokens: seq<Token>, required: set<Tag>, tag: Tag)
    requires forall i | 0 <= i < |tokens| :: tokens[i].tag != tag
    ensures Remaining(tokens, required - {tag}) == Remaining(tokens, required)
    ensures Taken(tokens, required - {tag}) == Taken(tokens, required)
  {
    if tokens != [] {
      var head := tokens[0].tag;
      TakeAbsent(tokens[1..], if head in required then required - {head} else required, tag);
      assert required - {tag} - {head} == required - {head} - {tag};
    }
  }

  method FindTag(tokens: seq<Token>, tag: Tag) returns (k: Option<nat>)
    ensures k.Some? ==> FirstWithTag(tokens, tag, k.value)
    ensures k.None? ==> forall i | 0 <= i < |tokens| :: tokens[i].tag != tag
  {
    var i := 0;
    while i < |tokens|
      invariant 0 <= i <= |tokens|
      invariant forall j | 0 <= j < i :: tokens[j].tag != tag
    {
      if tokens[i].tag == tag {
        return Some(i);
      }
      i := i + 1;
    }
    return None;
  }

  /** Taking the tokens still required, from what is left, completes the taking. */
  ghost predicate Taking(tokens: seq<Token>, required: set<Tag>, consumed: seq<Token>, remaining: seq<Token>,
                         rest: set<Tag>)
  {
    && Remaining(remaining, rest) == Remaining(tokens, required)
    && forall x :: Count(consumed, x) + Count(Taken(remaining, rest), x) == Count(Taken(tokens, required), x)
  }

  lemma TakingOneMore(tokens: seq<Token>, required: set<Tag>, consumed: seq<Token>, remaining: seq<Token>,
                      rest: set<Tag>, tag: Tag, k: nat)
    requires Taking(tokens, required, consumed, remaining, rest) && tag in rest && FirstWithTag(remaining, tag, k)
    ensures Taking(tokens, required, consumed + [remaining[k]], remaining[..k] + remaining[k + 1..], rest - {tag})
  {
    var consumed', remaining' := consumed + [remaining[k]], remaining[..k] + remaining[k + 1..];
    TakeOne(remaining, rest, tag, k, remaining[k]);
    forall x ensures Count(consumed', x) + Count(Taken(remaining', rest - {tag}), x)
        == Count(Taken(tokens, required), x)
    {
      TakeOne(remaining, rest, tag, k, x);
      CountConcat(consumed, [remaining[k]], x);
      assert Count(consumed, x) + Count(Taken(remaining, rest), x) == Count(Taken(tokens, required), x);
    }
  }

  /** Splices out one token per required tag; the order of the tags does not matter. */
  method Consume(tokens: seq<Token>, required: set<Tag>) returns (consumed: seq<Token>, remaining: seq<Token>)
    ensures remaining == Remaining(tokens, required)
    ensures SameTokens(consumed, Taken(tokens, required))
  {
    consumed, remaining := [], tokens;
    var rest := required;
    while rest != {}
      invariant rest <= required
      invariant Taking(tokens, required, consumed, remaining, rest)
      decreases rest
    {
      var tag :| tag in rest;
      var k := FindTag(remaining, tag);
      if k.Some? {
        TakingOneMore(tokens, required, consumed, remaining, rest, tag, k.value);
        consumed := consumed + [remaining[k.value]];
        remaining := remaining[..k.value] + remaining[k.value + 1..];
      } else {
        TakeAbsent(remaining, rest, tag);
      }
      rest := rest - {tag};
    }
    TakeNothing(remaining);
  }

  // ---- Ready transitions ----

  predicate RetryDue(t: TransitionInstance, now: int) {
    t.nextRetryAt.Some? ==> t.nextRetryAt.value <= now
  }

  predicate HasTag(tokens: seq<Token>, tag: Tag) {
    TagCount(tokens, tag) > 0
  }

  predicate IsReady(flow: ExecutableFlow, t: TransitionInstance, now: int) {
    && !t.state.Ongoing? && RetryDue(t, now)
    && t.from in flow.places && flow.places[t.from].tokens != []
    && forall tag | tag in t.consumes :: HasTag(flow.places[t.from].tokens, tag)
  }

  /** The maps are keyed by the listed ids. */
  ghost predicate Shaped(flow: ExecutableFlow) {
    && Distinct(flow.placeIds) && SetOf(flow.placeIds) == flow.places.Keys
    && Distinct(flow.transitionIds) && SetOf(flow.transitionIds) == flow.transitions.Keys
  }

  function ReadyAmong(flow: ExecutableFlow, ids: seq<TransitionId>, now: int): seq<(TransitionInstance, seq<Token>)>
    requires forall i | 0 <= i < |ids| :: ids[i] in flow.transitions
  {
    if ids == [] then [] else
      var ready := ReadyAmong(flow, ids[..|ids| - 1], now);
      var t := flow.transitions[ids[|ids| - 1]];
      if IsReady(flow, t, now) then ready + [(t, flow.places[t.from].tokens)] else ready
  }

  lemma {:induction false} TagCountHas(tokens: seq<Token>, tag: Tag)
    ensures HasTag(tokens, tag) <==> exists i :: 0 <= i < |tokens| && tokens[i].tag == tag
  {
    if tokens != [] {
      TagCountHas(tokens[1..], tag);
      if HasTag(tokens[1..], tag) {
        var i :| 0 <= i < |tokens[1..]| && tokens[1..][i].tag == tag;
        assert tokens[i + 1].tag == tag;
      }
      if i :| 0 <= i < |tokens| && tokens[i].tag == tag && i > 0 {
        assert tokens[1..][i - 1].tag == tag;
      }
    }
  }

  method HasAllTags(tokens: seq<Token>, required: set<Tag>) returns (all: bool)
    ensures all <==> forall tag | tag in required :: HasTag(tokens, tag)
  {
    var rest := required;
    while rest != {}
      invariant rest <= required
      invariant forall tag | tag in required - rest :: HasTag(tokens, tag)
      decreases rest
    {
      var tag :| tag in rest;
      TagCountHas(tokens, tag);
      var k := FindTag(tokens, tag);
      if k.None? {
        return false;
      }
      rest := rest - {tag};
    }
    return true;
  }

  /** Collects the ready transitions, in the order of the transitions map. */
  method TransitionsReady(flow: ExecutableFlow, now: int) returns (result: seq<(TransitionInstance, seq<Token>)>)
    requires Shaped(flow)
    ensures forall i | 0 <= i < |flow.transitionIds| :: flow.transitionIds[i] in flow.transitions
    ensures result == ReadyAmong(flow, flow.transitionIds, now)
  {
    var ids := flow.transitionIds;
    assert forall i | 0 <= i < |ids| :: ids[i] in SetOf(ids);
    result := [];
    var i := 0;
    while i < |ids|
      invariant 0 <= i <= |ids|
      invariant result == ReadyAmong(flow, ids[..i], now)
    {
      assert ids[..i + 1][..i] == ids[..i];
      var t := flow.transitions[ids[i]];
      i := i + 1;
      if t.state.Ongoing? || (t.nextRetryAt.Some? && t.nextRetryAt.value > now) {
        continue;
      }
      if t.from !in flow.places || |flow.places[t.from].tokens| == 0 {
        continue;
      }
      var hasAll := HasAllTags(flow.places[t.from].tokens, t.consumes);
      if hasAll {
        result := result + [(t, flow.places[t.from].tokens)];
      }
    }
    assert ids[..i] == ids;
  }

  ghost predicate Offers(ready: seq<(TransitionInstance, seq<Token>)>, id: TransitionId) {
    exists i :: 0 <= i < |ready| && ready[i].0.id == id
  }

  lemma OffersOneMore(ready: seq<(TransitionInstance, seq<Token>)>, t: TransitionInstance, tokens: seq<Token>,
                      id: TransitionId)
    ensures Offers(ready + [(t, tokens)], id) <==> Offers(ready, id) || t.id == id
  {
    var ready' := ready + [(t, tokens)];
    assert ready'[|ready|].0 == t && forall i | 0 <= i < |ready| :: ready'[i] == ready[i];
  }

  /** A transition is offered exactly when it is idle, due, and its place holds every tag it consumes. */
  lemma {:induction false} ReadyHolds(flow: ExecutableFlow, ids: seq<TransitionId>, now: int, id: TransitionId)
    requires forall i | 0 <= i < |ids| :: ids[i] in flow.transitions
    requires id in flow.transitions && forall k | k in flow.transitions :: flow.transitions[k].id == k
    ensures Offers(ReadyAmong(flow, ids, now), id) <==> id in ids && IsReady(flow, flow.transitions[id], now)
  {
    if ids != [] {
      var front, last := ids[..|ids| - 1], ids[|ids| - 1];
      ReadyHolds(flow, front, now, id);
      assert ids == front + [last];
      var t := flow.transitions[last];
      if IsReady(flow, t, now) {
        OffersOneMore(ReadyAmong(flow, front, now), t, flow.places[t.from].tokens, id);
      }
    }
  }

  // ---- Transition lifecycle ----

  function Started(flow: ExecutableFlow, id: TransitionId, place: PlaceId, consumed: seq<Token>,
                   now: int): ExecutableFlow
    requires id in flow.transitions && place in flow.places
  {
    var p, t := flow.places[place], flow.transitions[id];
    Tick(WithTransition(WithPlace(flow, place, p.(tokens := Remaining(p.tokens, t.consumes))),
                        id, t.(consumed := Some(consumed), state := Ongoing)), now)
  }

  ghost predicate TakesFrom(flow: ExecutableFlow, id: TransitionId, place: PlaceId, consumed: seq<Token>)
    requires id in flow.transitions && place in flow.places
  {
    SameTokens(consumed, Taken(flow.places[place].tokens, flow.transitions[id].consumes))
  }

  method RecordTransitionStart(flow: ExecutableFlow, place: PlaceId, id: TransitionId, now: int)
    returns (flow': ExecutableFlow, ghost consumed: seq<Token>)
    ensures id !in flow.transitions || place !in flow.places ==> flow' == flow
    ensures id in flow.transitions && place in flow.places ==>
              TakesFrom(flow, id, place, consumed) && flow' == Started(flow, id, place, consumed, now)
  {
    flow' := flow;
    if id in flow.transitions && place in flow.places {
      var taken, remaining := Consume(flow.places[place].tokens, flow.transitions[id].consumes);
      flow' := WithPlace(flow', place, flow.places[place].(tokens := remaining));
      flow' := WithTransition(flow', id, flow.transitions[id].(consumed := Some(taken), state := Ongoing));
      flow' := Tick(flow', now);
      consumed := taken;
    } else {
      consumed := [];
    }
  }

  /** Completing places the results one by one; a result its place does not accept is dropped. */
  function CompletedFlow(flow: ExecutableFlow, id: TransitionId, results: Results, span: SpanId,
                         now: int): ExecutableFlow
  {
    var added := AddResults(flow, results, Some(span), now);
    var t := if id in added.transitions then
      added.(transitions := added.transitions[id := added.transitions[id].(
               state := Completed, produced := AllTokens(results), retryAttempts := 0, nextRetryAt := None)])
                   else added;
    Tick(t, now)
  }

  method RecordTransitionCompletion(flow: ExecutableFlow, id: TransitionId, results: Results, span: SpanId, now: int)
    returns (flow': ExecutableFlow)
    ensures flow' == CompletedFlow(flow, id, results, span, now)
  {
    flow' := flow;
    var produced := [];
    var i := 0;
    while i < |results|
      invariant 0 <= i <= |results|
      invariant flow' == AddResults(flow, results[..i], Some(span), now)
      invariant produced == AllTokens(results[..i])
    {
      assert results[..i + 1][..i] == results[..i];
      var (place, tokens) := results[i];
      ghost var before := flow';
      var j := 0;
      while j < |tokens|
        invariant 0 <= j <= |tokens|
        invariant flow' == AddTokens(before, place, tokens[..j], Some(span), now)
      {
        assert tokens[..j + 1][..j] == tokens[..j];
        flow' := AddToken(flow', place, tokens[j], Some(span), now);
        j := j + 1;
      }
      assert tokens[..j] == tokens;
      produced := produced + tokens;
      i := i + 1;
    }
    assert results[..i] == results;
    if id in flow'.transitions {
      flow' := WithTransition(flow', id, flow'.transitions[id].(
                                state := Completed, produced := produced, retryAttempts := 0, nextRetryAt := None));
    }
    flow' := Tick(flow', now);
  }

  /** The retry loop's backoff factor. */
  method Fibonacci(n: int) returns (b: nat)
    ensures b == Fib(n)
  {
    if n <= 1 {
      return 1;
    }
    var a := 1;
    b := 1;
    var i := 2;
    while i < n
      invariant 2 <= i <= n
      invariant a == Fib(i - 1) && b == Fib(i)
    {
      a, b := b, a + b;
      i := i + 1;
    }
  }

  function Held(t: TransitionInstance): seq<Token> {
    if t.consumed.Some? then t.consumed.value else []
  }

  function RetryDelay(flow: ExecutableFlow, attempts: nat): int {
    Max(1, Fib(attempts)) * flow.backoffBaseMillis
  }

  /** The first two delays are the base, and each later one is the sum of the two before it. */
  lemma DelaysRecur(flow: ExecutableFlow, attempts: nat)
    requires attempts > 0
    ensures RetryDelay(flow, attempts)
            == if attempts <= 2 then flow.backoffBaseMillis
               else RetryDelay(flow, attempts - 1) + RetryDelay(flow, attempts - 2)
  {
    FibIsPositive(attempts);
    if attempts > 2 {
      FibIsPositive(attempts - 1);
      FibIsPositive(attempts - 2);
      SumOfScaled(Fib(attempts - 1), Fib(attempts - 2), flow.backoffBaseMillis);
    }
  }

  lemma {:induction false} FibIsPositive(n: int)
    ensures Fib(n) >= 1
  {
    if n > 2 {
      FibIsPositive(n - 1);
      FibIsPositive(n - 2);
    }
  }

  lemma SumOfScaled(a: int, b: int, c: int)
    ensures (a + b) * c == a * c + b * c
  {
  }

  function AfterFailure(flow: ExecutableFlow, t: TransitionInstance, now: int): TransitionInstance {
    var attempts := t.retryAttempts + 1;
    if attempts <= flow.maxTransitionRetries then
      t.(state := NotStarted, retryAttempts := attempts, nextRetryAt := Some(now + RetryDelay(flow, attempts)))
    else
      t.(state := Failed, retryAttempts := attempts, nextRetryAt := None)
  }

  function FailedFlow(flow: ExecutableFlow, id: TransitionId, place: PlaceId, now: int): ExecutableFlow {
    if id !in flow.transitions then flow else
      var t := flow.transitions[id];
      var returned := if place in flow.places then
        WithPlace(flow, place, flow.places[place].(tokens := flow.places[place].tokens + Held(t))) else flow;
      Tick(WithTransition(returned, id, AfterFailure(flow, t, now)), now)
  }

  method RecordTransitionFailure(flow: ExecutableFlow, id: TransitionId, place: PlaceId, now: int)
      returns (flow': ExecutableFlow)
    ensures flow' == FailedFlow(flow, id, place, now)
  {
    flow' := flow;
    if id in flow.transitions {
      var t := flow.transitions[id];
      var consumed := Held(t);
      if place in flow.places {
        flow' := WithPlace(flow', place, flow.places[place].(tokens := flow.places[place].tokens + consumed));
      }
      var attempts := t.retryAttempts + 1;
      if attempts <= flow.maxTransitionRetries {
        var factor := Fibonacci(attempts);
        var delay := Max(1, factor) * flow.backoffBaseMillis;
        var due := Some(now + delay);
        flow' := WithTransition(flow', id, t.(state := NotStarted, retryAttempts := attempts, nextRetryAt := due));
      } else {
        flow' := WithTransition(flow', id, t.(state := Failed, retryAttempts := attempts, nextRetryAt := None));
      }
      flow' := Tick(flow', now);
    }
  }

  // ---- Counting the tokens of a flow ----

  type Tally = map<nat, nat>

  function At(tally: Tally, id: nat): nat {
    if id in tally then tally[id] else 0
  }

  function Sum(ids: seq<nat>, tally: Tally): nat {
    if ids == [] then 0 else Sum(ids[..|ids| - 1], tally) + At(tally, ids[|ids| - 1])
  }

  lemma {:induction false} SumElsewhere(ids: seq<nat>, tally: Tally, id: nat, n: nat)
    requires forall i | 0 <= i < |ids| :: ids[i] != id
    ensures Sum(ids, tally[id := n]) == Sum(ids, tally)
  {
    if ids != [] {
      SumElsewhere(ids[..|ids| - 1], tally, id, n);
    }
  }

  lemma {:induction false} SumPut(ids: seq<nat>, tally: Tally, id: nat, n: nat)
    requires Distinct(ids) && id in ids
    ensures Sum(ids, tally[id := n]) + At(tally, id) == Sum(ids, tally) + n
  {
    var front, last := ids[..|ids| - 1], ids[|ids| - 1];
    if last == id {
      SumElsewhere(front, tally, id, n);
    } else {
      assert ids == front + [last];
      SumPut(front, tally, id, n);
    }
  }

  function InPlaces(places: map<PlaceId, PlaceInstance>, x: Token): Tally {
    map id | id in places :: Count(places[id].tokens, x)
  }

  function HeldCount(t: TransitionInstance, x: Token): nat {
    if t.state.Ongoing? then Count(Held(t), x) else 0
  }

  function InTransitions(transitions: map<TransitionId, TransitionInstance>, x: Token): Tally {
    map id | id in transitions :: HeldCount(transitions[id], x)
  }

  /** How often a token lies in a place or is held by an ongoing transition. */
  function InFlow(flow: ExecutableFlow, x: Token): nat {
    Sum(flow.placeIds, InPlaces(flow.places, x)) + Sum(flow.transitionIds, InTransitions(flow.transitions, x))
  }

  lemma PlaceChange(flow: ExecutableFlow, id: PlaceId, place: PlaceInstance, x: Token)
    requires Shaped(flow) && id in flow.places
    ensures InFlow(WithPlace(flow, id, place), x) + Count(flow.places[id].tokens, x)
            == InFlow(flow, x) + Count(place.tokens, x)
  {
    assert id in SetOf(flow.placeIds);
    SumPut(flow.placeIds, InPlaces(flow.places, x), id, Count(place.tokens, x));
    assert InPlaces(flow.places[id := place], x) == InPlaces(flow.places, x)[id := Count(place.tokens, x)];
  }

  lemma TransitionChange(flow: ExecutableFlow, id: TransitionId, t: TransitionInstance, x: Token)
    requires Shaped(flow) && id in flow.transitions
    ensures InFlow(WithTransition(flow, id, t), x) + HeldCount(flow.transitions[id], x)
            == InFlow(flow, x) + HeldCount(t, x)
  {
    assert id in SetOf(flow.transitionIds);
    SumPut(flow.transitionIds, InTransitions(flow.transitions, x), id, HeldCount(t, x));
    assert InTransitions(flow.transitions[id := t], x) == InTransitions(flow.transitions, x)[id := HeldCount(t, x)];
  }

  // ---- Legal flows ----

  predicate Allowed(tokens: seq<Token>, accepts: set<Tag>) {
    forall i | 0 <= i < |tokens| :: tokens[i].tag in accepts
  }

  ghost predicate PlacesLegal(flow: ExecutableFlow) {
    forall id | id in flow.places :: Allowed(flow.places[id].tokens, flow.places[id].accepts)
  }

  ghost predicate TransitionLegal(flow: ExecutableFlow, t: TransitionInstance) {
    && t.from in flow.places
    && (t.state.Ongoing? ==> Allowed(Held(t), flow.places[t.from].accepts))
    && forall tag | tag in t.produces :: AcceptedAt(flow, t.produces[tag], tag)
  }

  ghost predicate TransitionsLegal(flow: ExecutableFlow) {
    forall id | id in flow.transitions :: flow.transitions[id].id == id && TransitionLegal(flow, flow.transitions[id])
  }

  /** Places hold only tags they accept; ongoing transitions hold only what their place accepts;
      produced tags are accepted where they go. */
  ghost predicate Legal(flow: ExecutableFlow) {
    Shaped(flow) && PlacesLegal(flow) && TransitionsLegal(flow)
  }

  ghost predicate SameAccepts(flow: ExecutableFlow, flow': ExecutableFlow) {
    && flow'.placeIds == flow.placeIds && flow'.places.Keys == flow.places.Keys
    && forall id | id in flow.places :: flow'.places[id].accepts == flow.places[id].accepts
  }

  lemma {:induction false} AllowedByBag(tokens: seq<Token>, more: seq<Token>, accepts: set<Tag>)
    requires Allowed(more, accepts) && forall x :: Count(tokens, x) <= Count(more, x)
    ensures Allowed(tokens, accepts)
  {
    forall i | 0 <= i < |tokens| ensures tokens[i].tag in accepts {
      CountHas(tokens, tokens[i]);
      assert Count(tokens, tokens[i]) <= Count(more, tokens[i]);
      CountHas(more, tokens[i]);
    }
  }

  /** Filling one place with accepted tokens keeps the flow legal. */
  lemma PlaceKeepsLegal(flow: ExecutableFlow, id: PlaceId, place: PlaceInstance)
    requires Legal(flow) && id in flow.places && place.accepts == flow.places[id].accepts
             && Allowed(place.tokens, place.accepts)
    ensures Legal(WithPlace(flow, id, place)) && SameAccepts(flow, WithPlace(flow, id, place))
  {
    var flow' := WithPlace(flow, id, place);
    assert SameAccepts(flow, flow');
    forall k | k in flow'.transitions
        ensures flow'.transitions[k].id == k && TransitionLegal(flow', flow'.transitions[k])
    {
      assert TransitionLegal(flow, flow.transitions[k]);
    }
  }

  lemma TransitionKeepsLegal(flow: ExecutableFlow, id: TransitionId, t: TransitionInstance)
    requires Legal(flow) && id in flow.transitions && t.id == id && TransitionLegal(flow, t)
    ensures Legal(WithTransition(flow, id, t))
  {
    var flow' := WithTransition(flow, id, t);
    forall k | k in flow'.transitions
        ensures flow'.transitions[k].id == k && TransitionLegal(flow', flow'.transitions[k])
    {
      var u := flow'.transitions[k];
      assert k != id ==> TransitionLegal(flow, flow.transitions[k]);
      assert TransitionLegal(flow, u);
    }
  }

  lemma TickKeepsLegal(flow: ExecutableFlow, now: int)
    requires Legal(flow)
    ensures Legal(Tick(flow, now))
  {
    var flow' := Tick(flow, now);
    forall k | k in flow'.transitions
        ensures flow'.transitions[k].id == k && TransitionLegal(flow', flow'.transitions[k])
    {
      assert TransitionLegal(flow, flow.transitions[k]);
    }
  }

  /** What adding tokens leaves as it was. */
  ghost predicate OnlyAdds(flow: ExecutableFlow, flow': ExecutableFlow) {
    && Legal(flow') && SameAccepts(flow, flow')
    && flow'.transitions == flow.transitions && flow'.transitionIds == flow.transitionIds
    && flow'.maxTransitionRetries == flow.maxTransitionRetries && flow'.backoffBaseMillis == flow.backoffBaseMillis
  }

  lemma AddTokenKeeps(flow: ExecutableFlow, id: PlaceId, token: Token, span: Option<SpanId>, now: int)
    requires Legal(flow)
    ensures OnlyAdds(flow, AddToken(flow, id, token, span, now))
  {
    if AcceptedAt(flow, id, token.tag) {
      var place := flow.places[id];
      var place' := WithToken(place, token, span);
      PlaceKeepsLegal(flow, id, place');
      TickKeepsLegal(WithPlace(flow, id, place'), now);
    }
  }

  /** A token enters exactly when the place accepts its tag. */
  lemma AddTokenCounts(flow: ExecutableFlow, id: PlaceId, token: Token, span: Option<SpanId>, now: int, x: Token)
    requires Shaped(flow)
    ensures InFlow(AddToken(flow, id, token, span, now), x)
         == InFlow(flow, x) + if AcceptedAt(flow, id, token.tag) && token == x then 1 else 0
  {
    if AcceptedAt(flow, id, token.tag) {
      var place := flow.places[id];
      PlaceChange(flow, id, WithToken(place, token, span), x);
      CountConcat(place.tokens, [token], x);
    }
  }

  lemma {:induction false} AddTokensKeeps(flow: ExecutableFlow, id: PlaceId, tokens: seq<Token>, span: Option<SpanId>,
                                          now: int)
    requires Legal(flow)
    ensures OnlyAdds(flow, AddTokens(flow, id, tokens, span, now))
  {
    if tokens != [] {
      var front := AddTokens(flow, id, tokens[..|tokens| - 1], span, now);
      AddTokensKeeps(flow, id, tokens[..|tokens| - 1], span, now);
      AddTokenKeeps(front, id, tokens[|tokens| - 1], span, now);
    }
  }

  lemma AddTokensOneMore(flow: ExecutableFlow, id: PlaceId, tokens: seq<Token>, last: Token, span: Option<SpanId>,
                         now: int)
    ensures AddTokens(flow, id, tokens + [last], span, now)
            == AddToken(AddTokens(flow, id, tokens, span, now), id, last, span, now)
  {
    assert (tokens + [last])[..|tokens|] == tokens;
  }

  lemma {:induction false} AddTokensCounts(flow: ExecutableFlow, id: PlaceId, tokens: seq<Token>, span: Option<SpanId>,
                                           now: int, x: Token)
    requires Legal(flow) && forall i | 0 <= i < |tokens| :: AcceptedAt(flow, id, tokens[i].tag)
    ensures InFlow(AddTokens(flow, id, tokens, span, now), x) == InFlow(flow, x) + Count(tokens, x)
  {
    if tokens != [] {
      var front, last := tokens[..|tokens| - 1], tokens[|tokens| - 1];
      assert AcceptedAt(flow, id, last.tag) && tokens == front + [last];
      AddTokensKeeps(flow, id, front, span, now);
      AddTokensCounts(flow, id, front, span, now, x);
      AddTokenCounts(AddTokens(flow, id, front, span, now), id, last, span, now, x);
      AddTokensOneMore(flow, id, front, last, span, now);
      CountConcat(front, [last], x);
    }
  }

  /** Every result goes to a place that accepts it. */
  ghost predicate Fits(flow: ExecutableFlow, results: Results) {
    forall i, j | 0 <= i < |results| && 0 <= j < |results[i].1| :: AcceptedAt(flow, results[i].0, results[i].1[j].tag)
  }

  lemma {:induction false} AddResultsKeeps(flow: ExecutableFlow, results: Results, span: Option<SpanId>, now: int)
    requires Legal(flow)
    ensures OnlyAdds(flow, AddResults(flow, results, span, now))
  {
    if results != [] {
      var (id, tokens) := results[|results| - 1];
      AddResultsKeeps(flow, results[..|results| - 1], span, now);
      AddTokensKeeps(AddResults(flow, results[..|results| - 1], span, now), id, tokens, span, now);
    }
  }

  lemma {:induction false} AddResultsCounts(flow: ExecutableFlow, results: Results, span: Option<SpanId>, now: int,
                                            x: Token)
    requires Legal(flow) && Fits(flow, results)
    ensures InFlow(AddResults(flow, results, span, now), x) == InFlow(flow, x) + Count(AllTokens(results), x)
  {
    if results != [] {
      var front := results[..|results| - 1];
      var (id, tokens) := results[|results| - 1];
      AddResultsKeeps(flow, front, span, now);
      AddResultsCounts(flow, front, span, now, x);
      var before := AddResults(flow, front, span, now);
      forall j | 0 <= j < |tokens| ensures AcceptedAt(before, id, tokens[j].tag) {
        assert AcceptedAt(flow, results[|results| - 1].0, results[|results| - 1].1[j].tag);
      }
      AddTokensCounts(before, id, tokens, span, now, x);
      CountConcat(AllTokens(front), tokens, x);
    }
  }

  // ---- Steps ----

  datatype Step =
    | Adds(place: PlaceId, token: Token, span: Option<SpanId>, now: int)
    | Starts(id: TransitionId, consumed: seq<Token>, now: int)
    | Completes(id: TransitionId, results: Results, worker: SpanId, now: int)
    | Fails(id: TransitionId, now: int)

  /** Results go where the transition's definition sends their tags. */
  ghost predicate Routed(t: TransitionInstance, results: Results) {
    forall i, j | 0 <= i < |results| && 0 <= j < |results[i].1| ::
      results[i].1[j].tag in t.produces && t.produces[results[i].1[j].tag] == results[i].0
  }

  /** Ready transitions start from their own place; only ongoing ones complete or fail. */
  ghost predicate Next(flow: ExecutableFlow, step: Step, flow': ExecutableFlow) {
    match step
    case Adds(place, token, span, now) => flow' == AddToken(flow, place, token, span, now)
    case Starts(id, consumed, now) =>
      && id in flow.transitions && IsReady(flow, flow.transitions[id], now)
      && TakesFrom(flow, id, flow.transitions[id].from, consumed)
      && flow' == Started(flow, id, flow.transitions[id].from, consumed, now)
    case Completes(id, results, worker, now) =>
      && id in flow.transitions && flow.transitions[id].state.Ongoing? && Routed(flow.transitions[id], results)
      && flow' == CompletedFlow(flow, id, results, worker, now)
    case Fails(id, now) =>
      && id in flow.transitions && flow.transitions[id].state.Ongoing?
      && flow' == FailedFlow(flow, id, flow.transitions[id].from, now)
  }

  /** How often a step brings a token in. */
  function Entering(flow: ExecutableFlow, step: Step, x: Token): nat {
    match step
    case Adds(place, token, _, _) => if AcceptedAt(flow, place, token.tag) && token == x then 1 else 0
    case Completes(_, results, _, _) => Count(AllTokens(results), x)
    case _ => 0
  }

  /** How often a step uses a token up: what a completing transition held. */
  function Leaving(flow: ExecutableFlow, step: Step, x: Token): nat {
    if step.Completes? && step.id in flow.transitions then Count(Held(flow.transitions[step.id]), x) else 0
  }

  /** Accepted tags, sources, destinations and limits never change. */
  ghost predicate SameNet(flow: ExecutableFlow, flow': ExecutableFlow) {
    && SameAccepts(flow, flow')
    && flow'.transitionIds == flow.transitionIds && flow'.transitions.Keys == flow.transitions.Keys
    && flow'.maxTransitionRetries == flow.maxTransitionRetries && flow'.backoffBaseMillis == flow.backoffBaseMillis
    && forall id | id in flow.transitions :: SameTransitionNet(flow.transitions[id], flow'.transitions[id])
  }

  predicate SameTransitionNet(t: TransitionInstance, u: TransitionInstance) {
    t.id == u.id && t.from == u.from && t.consumes == u.consumes && t.produces == u.produces
  }

  /** Replacing a place's tokens and a transition together. */
  function Moved(flow: ExecutableFlow, from: PlaceId, tokens: seq<Token>, id: TransitionId,
                 t: TransitionInstance): ExecutableFlow
    requires from in flow.places
  {
    WithTransition(WithPlace(flow, from, flow.places[from].(tokens := tokens)), id, t)
  }

  lemma MovedKeeps(flow: ExecutableFlow, from: PlaceId, tokens: seq<Token>, id: TransitionId, t: TransitionInstance,
                   now: int)
    requires Legal(flow) && id in flow.transitions && from in flow.places && Allowed(tokens, flow.places[from].accepts)
    requires SameTransitionNet(flow.transitions[id], t) && t.from == from
             && (t.state.Ongoing? ==> Allowed(Held(t), flow.places[from].accepts))
    ensures Legal(Tick(Moved(flow, from, tokens, id, t), now))
            && SameNet(flow, Tick(Moved(flow, from, tokens, id, t), now))
  {
    var place' := flow.places[from].(tokens := tokens);
    var moved := WithPlace(flow, from, place');
    PlaceKeepsLegal(flow, from, place');
    assert TransitionLegal(flow, flow.transitions[id]);
    assert TransitionLegal(moved, t);
    TransitionKeepsLegal(moved, id, t);
    TickKeepsLegal(WithTransition(moved, id, t), now);
  }

  lemma MovedCounts(flow: ExecutableFlow, from: PlaceId, tokens: seq<Token>, id: TransitionId, t: TransitionInstance,
                    now: int, x: Token)
    requires Shaped(flow) && id in flow.transitions && from in flow.places
    ensures InFlow(Tick(Moved(flow, from, tokens, id, t), now), x) + Count(flow.places[from].tokens, x)
            + HeldCount(flow.transitions[id], x)
         == InFlow(flow, x) + Count(tokens, x) + HeldCount(t, x)
  {
    var place' := flow.places[from].(tokens := tokens);
    PlaceChange(flow, from, place', x);
    TransitionChange(WithPlace(flow, from, place'), id, t, x);
  }

  lemma StartMoves(flow: ExecutableFlow, id: TransitionId, consumed: seq<Token>, now: int)
    requires id in flow.transitions && flow.transitions[id].from in flow.places
    ensures var t := flow.transitions[id];
            (Started(flow, id, t.from, consumed, now)
             == Tick(Moved(flow, t.from, Remaining(flow.places[t.from].tokens, t.consumes), id,
                           t.(consumed := Some(consumed), state := Ongoing)), now))
  {
  }

  lemma StartKeeps(flow: ExecutableFlow, id: TransitionId, consumed: seq<Token>, now: int)
    requires Legal(flow) && id in flow.transitions && flow.transitions[id].from in flow.places
    requires TakesFrom(flow, id, flow.transitions[id].from, consumed)
    ensures var flow' := Started(flow, id, flow.transitions[id].from, consumed, now);
            Legal(flow') && SameNet(flow, flow')
  {
    var t := flow.transitions[id];
    var place := flow.places[t.from];
    forall x ensures Count(Remaining(place.tokens, t.consumes), x) <= Count(place.tokens, x)
        && Count(consumed, x) <= Count(place.tokens, x)
    {
      TakenAndRemaining(place.tokens, t.consumes, x);
      assert Count(consumed, x) == Count(Taken(place.tokens, t.consumes), x);
    }
    AllowedByBag(Remaining(place.tokens, t.consumes), place.tokens, place.accepts);
    AllowedByBag(consumed, place.tokens, place.accepts);
    MovedKeeps(flow, t.from, Remaining(place.tokens, t.consumes), id, t.(consumed := Some(consumed), state := Ongoing),
               now);
    StartMoves(flow, id, consumed, now);
  }

  lemma StartCounts(flow: ExecutableFlow, id: TransitionId, consumed: seq<Token>, now: int, x: Token)
    requires Shaped(flow) && id in flow.transitions && flow.transitions[id].from in flow.places
             && !flow.transitions[id].state.Ongoing?
    requires TakesFrom(flow, id, flow.transitions[id].from, consumed)
    ensures InFlow(Started(flow, id, flow.transitions[id].from, consumed, now), x) == InFlow(flow, x)
  {
    var t := flow.transitions[id];
    var tokens := flow.places[t.from].tokens;
    TakenAndRemaining(tokens, t.consumes, x);
    assert Count(consumed, x) == Count(Taken(tokens, t.consumes), x);
    MovedCounts(flow, t.from, Remaining(tokens, t.consumes), id, t.(consumed := Some(consumed), state := Ongoing), now,
                x);
    StartMoves(flow, id, consumed, now);
  }

  lemma FailMoves(flow: ExecutableFlow, id: TransitionId, now: int)
    requires id in flow.transitions && flow.transitions[id].from in flow.places
    ensures var t := flow.transitions[id];
            (FailedFlow(flow, id, t.from, now)
             == Tick(Moved(flow, t.from, flow.places[t.from].tokens + Held(t), id, AfterFailure(flow, t, now)), now))
  {
  }

  lemma FailKeeps(flow: ExecutableFlow, id: TransitionId, now: int)
    requires Legal(flow) && id in flow.transitions && flow.transitions[id].state.Ongoing?
    ensures var flow' := FailedFlow(flow, id, flow.transitions[id].from, now);
            Legal(flow') && SameNet(flow, flow')
  {
    var t := flow.transitions[id];
    assert TransitionLegal(flow, t);
    MovedKeeps(flow, t.from, flow.places[t.from].tokens + Held(t), id, AfterFailure(flow, t, now), now);
    FailMoves(flow, id, now);
  }

  lemma FailCounts(flow: ExecutableFlow, id: TransitionId, now: int, x: Token)
    requires Legal(flow) && id in flow.transitions && flow.transitions[id].state.Ongoing?
    ensures InFlow(FailedFlow(flow, id, flow.transitions[id].from, now), x) == InFlow(flow, x)
  {
    var t := flow.transitions[id];
    assert TransitionLegal(flow, t);
    var tokens := flow.places[t.from].tokens;
    CountConcat(tokens, Held(t), x);
    MovedCounts(flow, t.from, tokens + Held(t), id, AfterFailure(flow, t, now), now, x);
    FailMoves(flow, id, now);
  }

  function DoneTransition(t: TransitionInstance, results: Results): TransitionInstance {
    t.(state := Completed, produced := AllTokens(results), retryAttempts := 0, nextRetryAt := None)
  }

  lemma RoutedFits(flow: ExecutableFlow, id: TransitionId, results: Results)
    requires Legal(flow) && id in flow.transitions && Routed(flow.transitions[id], results)
    ensures Fits(flow, results)
  {
    var t := flow.transitions[id];
    assert TransitionLegal(flow, t);
    forall i, j | 0 <= i < |results| && 0 <= j < |results[i].1|
        ensures AcceptedAt(flow, results[i].0, results[i].1[j].tag)
    {
      assert t.produces[results[i].1[j].tag] == results[i].0;
    }
  }

  lemma CompleteKeeps(flow: ExecutableFlow, id: TransitionId, results: Results, worker: SpanId, now: int)
    requires Legal(flow) && id in flow.transitions
    ensures Legal(CompletedFlow(flow, id, results, worker, now))
            && SameNet(flow, CompletedFlow(flow, id, results, worker, now))
  {
    AddResultsKeeps(flow, results, Some(worker), now);
    var added := AddResults(flow, results, Some(worker), now);
    var t' := DoneTransition(flow.transitions[id], results);
    assert TransitionLegal(added, flow.transitions[id]);
    TransitionKeepsLegal(added, id, t');
    TickKeepsLegal(WithTransition(added, id, t'), now);
  }

  lemma CompleteCounts(flow: ExecutableFlow, id: TransitionId, results: Results, worker: SpanId, now: int, x: Token)
    requires Legal(flow) && id in flow.transitions && flow.transitions[id].state.Ongoing?
             && Routed(flow.transitions[id], results)
    ensures InFlow(CompletedFlow(flow, id, results, worker, now), x) + Count(Held(flow.transitions[id]), x)
         == InFlow(flow, x) + Count(AllTokens(results), x)
  {
    RoutedFits(flow, id, results);
    AddResultsKeeps(flow, results, Some(worker), now);
    AddResultsCounts(flow, results, Some(worker), now, x);
    TransitionChange(AddResults(flow, results, Some(worker), now), id, DoneTransition(flow.transitions[id], results),
                     x);
  }

  lemma StepKeeps(flow: ExecutableFlow, step: Step, flow': ExecutableFlow)
    requires Legal(flow) && Next(flow, step, flow')
    ensures Legal(flow') && SameNet(flow, flow')
  {
    match step
    case Adds(place, token, span, now) => AddTokenKeeps(flow, place, token, span, now);
    case Starts(id, consumed, now) => StartKeeps(flow, id, consumed, now);
    case Completes(id, results, worker, now) => CompleteKeeps(flow, id, results, worker, now);
    case Fails(id, now) => FailKeeps(flow, id, now);
  }

  lemma StepCounts(flow: ExecutableFlow, step: Step, flow': ExecutableFlow, x: Token)
    requires Legal(flow) && Next(flow, step, flow')
    ensures InFlow(flow', x) + Leaving(flow, step, x) == InFlow(flow, x) + Entering(flow, step, x)
  {
    match step
    case Adds(place, token, span, now) => AddTokenCounts(flow, place, token, span, now, x);
    case Starts(id, consumed, now) => StartCounts(flow, id, consumed, now, x);
    case Completes(id, results, worker, now) => CompleteCounts(flow, id, results, worker, now, x);
    case Fails(id, now) => FailCounts(flow, id, now, x);
  }

  // ---- Whole runs ----

  ghost predicate IsRun(run: seq<ExecutableFlow>, steps: seq<Step>) {
    |run| == |steps| + 1 && Legal(run[0]) && forall i: nat | i < |steps| :: StepAt(run, steps, i)
  }

  ghost predicate StepAt(run: seq<ExecutableFlow>, steps: seq<Step>, i: nat)
    requires |run| == |steps| + 1 && i < |steps|
  {
    Next(run[i], steps[i], run[i + 1])
  }

  ghost function Entered(run: seq<ExecutableFlow>, steps: seq<Step>, i: nat, x: Token): nat
    requires |run| == |steps| + 1 && i <= |steps|
  {
    if i == 0 then 0 else Entered(run, steps, i - 1, x) + Entering(run[i - 1], steps[i - 1], x)
  }

  ghost function UsedUp(run: seq<ExecutableFlow>, steps: seq<Step>, i: nat, x: Token): nat
    requires |run| == |steps| + 1 && i <= |steps|
  {
    if i == 0 then 0 else UsedUp(run, steps, i - 1, x) + Leaving(run[i - 1], steps[i - 1], x)
  }

  /** No place ever holds a tag it does not accept, and no ongoing transition one its place refuses. */
  lemma {:induction false} PlacesHoldAcceptedTags(run: seq<ExecutableFlow>, steps: seq<Step>, i: nat)
    requires IsRun(run, steps) && i <= |steps|
    ensures Legal(run[i])
  {
    if i > 0 {
      PlacesHoldAcceptedTags(run, steps, i - 1);
      assert StepAt(run, steps, i - 1);
      StepKeeps(run[i - 1], steps[i - 1], run[i]);
    }
  }

  lemma SameNetChains(a: ExecutableFlow, b: ExecutableFlow, c: ExecutableFlow)
    requires SameNet(a, b) && SameNet(b, c)
    ensures SameNet(a, c)
  {
  }

  lemma {:induction false} NetNeverChanges(run: seq<ExecutableFlow>, steps: seq<Step>, i: nat)
    requires IsRun(run, steps) && i <= |steps|
    ensures SameNet(run[0], run[i])
  {
    if i > 0 {
      NetNeverChanges(run, steps, i - 1);
      PlacesHoldAcceptedTags(run, steps, i - 1);
      assert StepAt(run, steps, i - 1);
      StepKeeps(run[i - 1], steps[i - 1], run[i]);
      SameNetChains(run[0], run[i - 1], run[i]);
    }
  }

  /** Tokens in places and held by ongoing transitions change only by additions and completions. */
  lemma {:induction false} TokensAreConserved(run: seq<ExecutableFlow>, steps: seq<Step>, i: nat, x: Token)
    requires IsRun(run, steps) && i <= |steps|
    ensures InFlow(run[i], x) + UsedUp(run, steps, i, x) == InFlow(run[0], x) + Entered(run, steps, i, x)
  {
    if i > 0 {
      TokensAreConserved(run, steps, i - 1, x);
      PlacesHoldAcceptedTags(run, steps, i - 1);
      assert StepAt(run, steps, i - 1);
      StepCounts(run[i - 1], steps[i - 1], run[i], x);
    }
  }

  /** Starting a ready transition takes exactly one token of each required tag. */
  lemma StartTakesOnePerTag(flow: ExecutableFlow, id: TransitionId, consumed: seq<Token>, now: int,
                            flow': ExecutableFlow, tag: Tag)
    requires Next(flow, Starts(id, consumed, now), flow')
    ensures TagCount(consumed, tag) == if tag in flow.transitions[id].consumes then 1 else 0
  {
    var t := flow.transitions[id];
    var tokens := flow.places[t.from].tokens;
    TagCountPermutes(consumed, Taken(tokens, t.consumes), tag);
    TakenOncePerTag(tokens, t.consumes, tag);
    assert tag in t.consumes ==> HasTag(tokens, tag);
  }

  /** A start takes from its own place what it then holds, and touches no other place. */
  lemma StartTakesFromItsPlace(flow: ExecutableFlow, id: TransitionId, consumed: seq<Token>, now: int,
                               flow': ExecutableFlow)
    requires Next(flow, Starts(id, consumed, now), flow')
    ensures var from := flow.transitions[id].from;
            && (forall x :: Count(flow'.places[from].tokens, x) + Count(consumed, x)
                            == Count(flow.places[from].tokens, x))
            && (forall p | p in flow.places && p != from :: flow'.places[p] == flow.places[p])
  {
    var t := flow.transitions[id];
    var tokens := flow.places[t.from].tokens;
    forall x ensures Count(flow'.places[t.from].tokens, x) + Count(consumed, x) == Count(tokens, x) {
      TakenAndRemaining(tokens, t.consumes, x);
      assert Count(consumed, x) == Count(Taken(tokens, t.consumes), x);
    }
  }

  ghost predicate Settles(step: Step, id: TransitionId) {
    (step.Completes? || step.Fails?) && step.id == id
  }

  /** An ongoing transition holding the given tokens. */
  predicate Holding(flow: ExecutableFlow, id: TransitionId, consumed: seq<Token>) {
    id in flow.transitions && flow.transitions[id].state.Ongoing? && flow.transitions[id].consumed == Some(consumed)
  }

  /** What a transition took it holds until it completes or fails, whatever else the flow does. */
  lemma {:induction false} HeldUntilSettled(run: seq<ExecutableFlow>, steps: seq<Step>, a: nat, b: nat)
    requires IsRun(run, steps) && a < b <= |steps| && steps[a].Starts?
    requires forall k | a < k < b :: !Settles(steps[k], steps[a].id)
    ensures Holding(run[b], steps[a].id, steps[a].consumed)
  {
    if b == a + 1 {
      assert StepAt(run, steps, a);
    } else {
      HeldUntilSettled(run, steps, a, b - 1);
      PlacesHoldAcceptedTags(run, steps, b - 1);
      assert !Settles(steps[b - 1], steps[a].id) && StepAt(run, steps, b - 1);
      OthersKeep(run[b - 1], steps[b - 1], run[b], steps[a].id);
    }
  }

  lemma OthersKeep(flow: ExecutableFlow, step: Step, flow': ExecutableFlow, id: TransitionId)
    requires Legal(flow) && Next(flow, step, flow') && id in flow.transitions && flow.transitions[id].state.Ongoing?
             && !Settles(step, id)
    ensures id in flow'.transitions && flow'.transitions[id] == flow.transitions[id]
  {
    if step.Completes? {
      AddResultsKeeps(flow, step.results, Some(step.worker), step.now);
    }
  }

  /** A failure puts back exactly what the start took, however many steps lie between them. */
  lemma FailureReturnsWhatStartTook(run: seq<ExecutableFlow>, steps: seq<Step>, a: nat, b: nat)
    requires IsRun(run, steps) && a < b < |steps| && steps[a].Starts? && steps[b].Fails? && steps[b].id == steps[a].id
    requires forall k | a < k < b :: !Settles(steps[k], steps[a].id)
    ensures Returns(run[b], steps[b].id, steps[a].consumed, run[b + 1])
  {
    HeldUntilSettled(run, steps, a, b);
    PlacesHoldAcceptedTags(run, steps, b);
    assert StepAt(run, steps, b);
    assert TransitionLegal(run[b], run[b].transitions[steps[a].id]);
  }

  /** The tokens go to the end of the transition's place; no other place changes. */
  ghost predicate Returns(flow: ExecutableFlow, id: TransitionId, tokens: seq<Token>, flow': ExecutableFlow) {
    && id in flow.transitions && flow.transitions[id].from in flow.places && flow'.places.Keys == flow.places.Keys
    && forall p | p in flow.places ::
         flow'.places[p] == if p == flow.transitions[id].from
             then flow.places[p].(tokens := flow.places[p].tokens + tokens) else flow.places[p]
  }

  /** Start then failure leaves every place with the tokens it had. */
  lemma StartThenFailureRestores(flow: ExecutableFlow, id: TransitionId, consumed: seq<Token>, start: int,
                                 flow': ExecutableFlow,
                                 failed: int, flow'': ExecutableFlow)
    requires Legal(flow) && Next(flow, Starts(id, consumed, start), flow') && Next(flow', Fails(id, failed), flow'')
    ensures flow''.places.Keys == flow.places.Keys
    ensures forall p | p in flow.places :: SameTokens(flow''.places[p].tokens, flow.places[p].tokens)
  {
    StartTakesFromItsPlace(flow, id, consumed, start, flow');
    var from := flow.transitions[id].from;
    forall x ensures Count(flow''.places[from].tokens, x) == Count(flow.places[from].tokens, x) {
      CountConcat(flow'.places[from].tokens, consumed, x);
    }
  }

  // ---- Retries ----

  /** From its start to its settling a transition stays as the start left it. */
  lemma {:induction false} StaysAsStarted(run: seq<ExecutableFlow>, steps: seq<Step>, a: nat, b: nat)
    requires IsRun(run, steps) && a < b <= |steps| && steps[a].Starts?
    requires forall k | a < k < b :: !Settles(steps[k], steps[a].id)
    ensures steps[a].id in run[a + 1].transitions && run[a + 1].transitions[steps[a].id].state.Ongoing?
    ensures steps[a].id in run[b].transitions && run[b].transitions[steps[a].id] == run[a + 1].transitions[steps[a].id]
  {
    assert StepAt(run, steps, a);
    if b > a + 1 {
      StaysAsStarted(run, steps, a, b - 1);
      PlacesHoldAcceptedTags(run, steps, b - 1);
      assert !Settles(steps[b - 1], steps[a].id) && StepAt(run, steps, b - 1);
      OthersKeep(run[b - 1], steps[b - 1], run[b], steps[a].id);
    }
  }

  /** What comes back holds every tag the transition consumes. */
  lemma ReturnedTags(flow: ExecutableFlow, id: TransitionId, consumed: seq<Token>, now: int, flow': ExecutableFlow,
                     tokens: seq<Token>)
    requires Next(flow, Starts(id, consumed, now), flow')
    ensures forall tag | tag in flow.transitions[id].consumes :: HasTag(tokens + consumed, tag)
  {
    forall tag | tag in flow.transitions[id].consumes ensures HasTag(tokens + consumed, tag) {
      StartTakesOnePerTag(flow, id, consumed, now, flow', tag);
      TagCountConcat(tokens, consumed, tag);
    }
  }

  /** A failed transition whose tags are all back is held up only by its backoff. */
  lemma FailedIsOfferedIff(flow: ExecutableFlow, id: TransitionId, failed: int, flow': ExecutableFlow, now: int)
    requires Next(flow, Fails(id, failed), flow') && flow.transitions[id].from in flow'.places
    requires forall tag | tag in flow.transitions[id].consumes ::
             HasTag(flow'.places[flow.transitions[id].from].tokens, tag)
    ensures id in flow'.transitions && SameTransitionNet(flow.transitions[id], flow'.transitions[id])
    ensures flow'.maxTransitionRetries == flow.maxTransitionRetries && flow'.backoffBaseMillis == flow.backoffBaseMillis
    ensures var t, attempts := flow'.transitions[id], flow.transitions[id].retryAttempts + 1;
            && (IsReady(flow', t, now)
                <==> && flow'.places[t.from].tokens != []
                     && (attempts > flow'.maxTransitionRetries || now >= failed + RetryDelay(flow', attempts)))
            && (t.state.Failed? <==> attempts > flow'.maxTransitionRetries)
  {
  }

  lemma StartKeepsAttempts(flow: ExecutableFlow, id: TransitionId, consumed: seq<Token>, now: int,
                           flow': ExecutableFlow)
    requires Next(flow, Starts(id, consumed, now), flow')
    ensures id in flow'.transitions && SameTransitionNet(flow.transitions[id], flow'.transitions[id])
    ensures flow'.transitions[id].retryAttempts == flow.transitions[id].retryAttempts
  {
  }

  lemma HasTagMeansSome(tokens: seq<Token>, required: set<Tag>)
    requires required != {} && forall tag | tag in required :: HasTag(tokens, tag)
    ensures tokens != []
  {
    var tag :| tag in required;
    assert HasTag(tokens, tag);
  }

  /** However many steps lie between a start and its failure, the transition is then withheld exactly while attempts
      are left and the backoff runs; in particular an exhausted transition is offered again at once. Only one that
      consumes nothing may meanwhile have lost the last token of its place. */
  lemma RetryIsOfferedIff(run: seq<ExecutableFlow>, steps: seq<Step>, a: nat, b: nat, now: int)
    requires IsRun(run, steps) && a < b < |steps| && steps[a].Starts? && steps[b].Fails? && steps[b].id == steps[a].id
    requires forall k | a < k < b :: !Settles(steps[k], steps[a].id)
    ensures steps[a].id in run[a].transitions && steps[a].id in run[b + 1].transitions
    ensures var flow, t := run[b + 1], run[b + 1].transitions[steps[a].id];
            var attempts := run[a].transitions[steps[a].id].retryAttempts + 1;
            && t.from in flow.places && (t.consumes != {} ==> flow.places[t.from].tokens != [])
            && (IsReady(flow, t, now)
                <==> && flow.places[t.from].tokens != []
                     && (attempts > flow.maxTransitionRetries || now >= steps[b].now + RetryDelay(flow, attempts)))
            && (t.state.Failed? <==> attempts > flow.maxTransitionRetries)
  {
    var id, consumed := steps[a].id, steps[a].consumed;
    assert StepAt(run, steps, a) && StepAt(run, steps, b);
    StaysAsStarted(run, steps, a, b);
    StartKeepsAttempts(run[a], id, consumed, steps[a].now, run[a + 1]);
    FailureReturnsWhatStartTook(run, steps, a, b);
    var from := run[b].transitions[id].from;
    ReturnedTags(run[a], id, consumed, steps[a].now, run[a + 1], run[b].places[from].tokens);
    FailedIsOfferedIff(run[b], id, steps[b].now, run[b + 1], now);
    if run[a].transitions[id].consumes != {} {
      HasTagMeansSome(run[b].places[from].tokens + consumed, run[a].transitions[id].consumes);
    }
  }

  /** After a completion nothing holds the transition back but its place: no backoff, no state. */
  lemma CompletedIsOfferedIff(flow: ExecutableFlow, id: TransitionId, results: Results, worker: SpanId, at: int,
                              flow': ExecutableFlow, now: int)
    requires Legal(flow) && Next(flow, Completes(id, results, worker, at), flow')
    ensures id in flow'.transitions && flow'.transitions[id].retryAttempts == 0
    ensures var t := flow'.transitions[id];
            IsReady(flow', t, now)
            <==> t.from in flow'.places && flow'.places[t.from].tokens != [] && forall tag | tag in t.consumes ::
                 HasTag(flow'.places[t.from].tokens, tag)
  {
    AddResultsKeeps(flow, results, Some(worker), at);
  }

  // ---- From a validated schema ----

  function TransitionMap(transitions: seq<TransitionDef>): map<TransitionId, TransitionDef> {
    if transitions == [] then map[] else
      TransitionMap(transitions[..|transitions| - 1])[transitions[|transitions| - 1].id :=
                                                      transitions[|transitions| - 1]]
  }

  lemma {:induction false} TransitionMapKeys(transitions: seq<TransitionDef>)
    ensures forall t | t in transitions :: t.id in TransitionMap(transitions)
    ensures forall id | id in TransitionMap(transitions) ::
            TransitionMap(transitions)[id] in transitions && TransitionMap(transitions)[id].id == id
  {
    if transitions != [] {
      var front, last := transitions[..|transitions| - 1], transitions[|transitions| - 1];
      TransitionMapKeys(front);
      assert transitions == front + [last];
      var m := TransitionMap(front);
      assert TransitionMap(transitions) == m[last.id := last];
      forall id | id in TransitionMap(transitions)
        ensures TransitionMap(transitions)[id] in transitions && TransitionMap(transitions)[id].id == id
      {
        if id != last.id {
          assert m[id] in front;
        }
      }
    } else {
      assert TransitionMap(transitions) == map[];
    }
  }

  function EmptyPlace(p: PlaceDef): PlaceInstance {
    PlaceInstance(p.id, p.accepts, p.kind, [], None)
  }

  function IdleTransition(t: TransitionDef): TransitionInstance {
    TransitionInstance(t.id, t.from, t.consumes, None, t.to, [], NotStarted, 0, None)
  }

  function NetOf(s: FlowSchema, maxRetries: int, backoffBase: int, now: int): ExecutableFlow {
    var places, transitions := PlaceMap(s.places), TransitionMap(s.transitions);
    ExecutableFlow(
      seq(|s.places|, i requires 0 <= i < |s.places| => s.places[i].id), map id | id in places ::
          EmptyPlace(places[id]),
      seq(|s.transitions|, i requires 0 <= i < |s.transitions| => s.transitions[i].id), map id | id in transitions ::
          IdleTransition(transitions[id]),
      now, 0, maxRetries, backoffBase)
  }

  /** The net has exactly the places of the schema, empty, and exactly its transitions, idle, with the given limits. */
  ghost predicate Realizes(s: FlowSchema, flow: ExecutableFlow, maxRetries: int, backoffBase: int, now: int) {
    && |flow.placeIds| == |s.places| && flow.places.Keys == SetOf(flow.placeIds)
    && (forall i | 0 <= i < |s.places| :: flow.placeIds[i] == s.places[i].id && RealizesPlace(flow, s.places[i]))
    && |flow.transitionIds| == |s.transitions| && flow.transitions.Keys == SetOf(flow.transitionIds)
    && (forall i | 0 <= i < |s.transitions| ::
          flow.transitionIds[i] == s.transitions[i].id && RealizesTransition(flow, s.transitions[i]))
    && flow.maxTransitionRetries == maxRetries && flow.backoffBaseMillis == backoffBase
    && flow.number == 0 && flow.updated == now
  }

  ghost predicate RealizesPlace(flow: ExecutableFlow, p: PlaceDef) {
    && p.id in flow.places
    && var place := flow.places[p.id];
       place.id == p.id && place.accepts == p.accepts && place.kind == p.kind && place.tokens == []
  }

  ghost predicate RealizesTransition(flow: ExecutableFlow, t: TransitionDef) {
    && t.id in flow.transitions
    && var transition := flow.transitions[t.id];
       && transition.id == t.id && transition.from == t.from && transition.consumes == t.consumes
       && transition.produces == t.to && transition.state.NotStarted? && transition.consumed.None?
       && transition.produced == [] && transition.retryAttempts == 0 && transition.nextRetryAt.None?
  }

  lemma NetRealizes(s: FlowSchema, maxRetries: int, backoffBase: int, now: int)
    requires DistinctPlaces(s) && DistinctTransitions(s)
    ensures Realizes(s, NetOf(s, maxRetries, backoffBase, now), maxRetries, backoffBase, now)
  {
    var flow := NetOf(s, maxRetries, backoffBase, now);
    NetIsShaped(s, maxRetries, backoffBase, now);
    PlaceMapKeys(s.places);
    TransitionMapKeys(s.transitions);
    forall i | 0 <= i < |s.places| ensures RealizesPlace(flow, s.places[i]) {
      assert s.places[i] in s.places;
      var j :| 0 <= j < |s.places| && s.places[j] == PlaceMap(s.places)[s.places[i].id];
    }
    forall i | 0 <= i < |s.transitions| ensures RealizesTransition(flow, s.transitions[i]) {
      assert s.transitions[i] in s.transitions;
      var j :| 0 <= j < |s.transitions| && s.transitions[j] == TransitionMap(s.transitions)[s.transitions[i].id];
    }
  }

  /** The schema compiles exactly when it is well formed, to a net that realizes it. */
  method CompileSchema(s: FlowSchema, maxRetries: int, backoffBase: int, now: int)
      returns (flow: Option<ExecutableFlow>, errors: seq<ValidationError>)
    ensures flow.Some? <==> WellFormed(s)
    ensures flow.Some? ==> flow.value == NetOf(s, maxRetries, backoffBase, now)
                           && Realizes(s, flow.value, maxRetries, backoffBase, now)
    ensures flow.None? ==> errors != [] && forall e :: e in errors <==> ErrorHolds(s, e)
  {
    errors := Validate(s);
    if |errors| == 0 {
      NetRealizes(s, maxRetries, backoffBase, now);
    }
    flow := if |errors| > 0 then None else Some(NetOf(s, maxRetries, backoffBase, now));
  }

  lemma PlaceIdsListed(s: FlowSchema, ids: seq<PlaceId>, id: PlaceId)
    requires |ids| == |s.places| && forall i | 0 <= i < |ids| :: ids[i] == s.places[i].id
    ensures id in ids <==> id in PlaceMap(s.places)
  {
    PlaceMapKeys(s.places);
    if id in ids {
      var i :| 0 <= i < |ids| && ids[i] == id;
      assert s.places[i] in s.places;
    }
    if id in PlaceMap(s.places) {
      var i :| 0 <= i < |s.places| && s.places[i] == PlaceMap(s.places)[id];
      assert ids[i] == id;
    }
  }

  lemma TransitionIdsListed(s: FlowSchema, ids: seq<TransitionId>, id: TransitionId)
    requires |ids| == |s.transitions| && forall i | 0 <= i < |ids| :: ids[i] == s.transitions[i].id
    ensures id in ids <==> id in TransitionMap(s.transitions)
  {
    TransitionMapKeys(s.transitions);
    if id in ids {
      var i :| 0 <= i < |ids| && ids[i] == id;
      assert s.transitions[i] in s.transitions;
    }
    if id in TransitionMap(s.transitions) {
      var i :| 0 <= i < |s.transitions| && s.transitions[i] == TransitionMap(s.transitions)[id];
      assert ids[i] == id;
    }
  }

  lemma NetIsShaped(s: FlowSchema, maxRetries: int, backoffBase: int, now: int)
    requires DistinctPlaces(s) && DistinctTransitions(s)
    ensures Shaped(NetOf(s, maxRetries, backoffBase, now))
  {
    var flow := NetOf(s, maxRetries, backoffBase, now);
    forall id ensures id in SetOf(flow.placeIds) <==> id in flow.places.Keys {
      PlaceIdsListed(s, flow.placeIds, id);
    }
    forall id ensures id in SetOf(flow.transitionIds) <==> id in flow.transitions.Keys {
      TransitionIdsListed(s, flow.transitionIds, id);
    }
  }

  /** A validated schema compiles to a legal net: its transitions have sources, and no routed token is dropped. */
  lemma ValidNetIsLegal(s: FlowSchema, maxRetries: int, backoffBase: int, now: int)
    requires DistinctPlaces(s) && DistinctTransitions(s) && TokensFit(s)
    ensures Legal(NetOf(s, maxRetries, backoffBase, now))
  {
    var flow := NetOf(s, maxRetries, backoffBase, now);
    NetIsShaped(s, maxRetries, backoffBase, now);
    PlaceMapKeys(s.places);
    TransitionMapKeys(s.transitions);
    forall id | id in flow.transitions
        ensures flow.transitions[id].id == id && TransitionLegal(flow, flow.transitions[id])
    {
      var t := TransitionMap(s.transitions)[id];
      assert TokensFitIn(s, t);
      forall tag | tag in t.to ensures AcceptedAt(flow, t.to[tag], tag) {
        AcceptsAgree(s, t.to[tag], tag);
      }
    }
  }

  /** A compiled net starts without tokens, so over a run what lies in it is what entered less what was used up. */
  lemma NetStartsEmpty(s: FlowSchema, maxRetries: int, backoffBase: int, now: int, x: Token)
    ensures InFlow(NetOf(s, maxRetries, backoffBase, now), x) == 0
  {
    var flow := NetOf(s, maxRetries, backoffBase, now);
    EmptySum(flow.placeIds, InPlaces(flow.places, x));
    EmptySum(flow.transitionIds, InTransitions(flow.transitions, x));
  }

  lemma {:induction false} EmptySum(ids: seq<nat>, tally: Tally)
    requires forall id | id in tally :: tally[id] == 0
    ensures Sum(ids, tally) == 0
  {
    if ids != [] {
      EmptySum(ids[..|ids| - 1], tally);
    }
  }
}
