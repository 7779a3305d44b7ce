/** Validating Petri-net flow schemas (src/petrinet/flow-schema.ts). */
module PetriSchema {
  import opened Prelude
  import opened Reachability

  type PlaceId = Id
  type TransitionId = Id
  type Tag = Id

  datatype PlaceType = Inbound | Outbound | Internal

  datatype PlaceDef = PlaceDef(id: PlaceId, accepts: set<Tag>, kind: PlaceType)

  datatype TransitionDef = TransitionDef(id: TransitionId, from: PlaceId, consumes: set<Tag>, to: map<Tag, PlaceId>)

  datatype FlowSchema = FlowSchema(places: seq<PlaceDef>, transitions: seq<TransitionDef>)

  datatype ValidationError =
    | DuplicatePlaceIds
    | DuplicateTransitionIds
    | UnknownFrom(t: TransitionId, place: PlaceId)
    | UnknownTo(t: TransitionId, tag: Tag, place: PlaceId)
    | ConsumesUnaccepted(t: TransitionId, tag: Tag, place: PlaceId)
    | SendsUnaccepted(t: TransitionId, tag: Tag, place: PlaceId)
    | UnusedPlace(place: PlaceId)
    | IncompleteTransition(t: TransitionId)
    | NoInbound
    | MultipleInbound
    | NoOutbound
    | InboundTagProduced(tag: Tag, place: PlaceId, t: TransitionId)
    | NotConnected
    | UnsoundPlace(place: PlaceId)
    | DeadTransition(t: TransitionId)
    | Gap(tag: Tag, place: PlaceId)

  // ---- The declarative predicate ----

  ghost predicate DistinctPlaces(s: FlowSchema) {
    forall i, j | 0 <= i < j < |s.places| :: s.places[i].id != s.places[j].id
  }

  ghost predicate DistinctTransitions(s: FlowSchema) {
    forall i, j | 0 <= i < j < |s.transitions| :: s.transitions[i].id != s.transitions[j].id
  }

  ghost predicate Accepts(s: FlowSchema, place: PlaceId, tag: Tag) {
    exists p :: p in s.places && p.id == place && tag in p.accepts
  }

  ghost predicate TokensFit(s: FlowSchema) {
    forall t {:trigger TokensFitIn(s, t)} | t in s.transitions :: TokensFitIn(s, t)
  }

  /** The transition consumes and produces, at places that accept its tokens. */
  ghost predicate TokensFitIn(s: FlowSchema, t: TransitionDef) {
    && (exists p :: p in s.places && p.id == t.from)
    && t.consumes != {} && t.to != map[]
    && (forall tag | tag in t.consumes :: Accepts(s, t.from, tag))
    && (forall tag | tag in t.to :: Accepts(s, t.to[tag], tag))
  }

  ghost predicate OneInbound(s: FlowSchema) {
    exists i :: 0 <= i < |s.places| && s.places[i].kind.Inbound? && forall j | 0 <= j < |s.places|
                && s.places[j].kind.Inbound? :: j == i
  }

  ghost predicate SomeOutbound(s: FlowSchema) {
    exists p :: p in s.places && p.kind.Outbound?
  }

  /** Tokens the inbound place accepts are produced only by transitions that consume from it. */
  ghost predicate InboundFedFromInbound(s: FlowSchema) {
    forall p, t, tag | p in s.places && p.kind.Inbound? && t in s.transitions && tag in t.to && tag in p.accepts ::
        t.from == p.id
  }

  /** Every tag a place other than an inbound one accepts is sent to it by some transition. */
  ghost predicate NoGaps(s: FlowSchema) {
    forall p, tag {:trigger Produced(s, p.id, tag), tag in p.accepts} | p in s.places && !p.kind.Inbound?
        && tag in p.accepts :: Produced(s, p.id, tag)
  }

  ghost predicate Produced(s: FlowSchema, place: PlaceId, tag: Tag) {
    exists t :: t in s.transitions && tag in t.to && t.to[tag] == place
  }

  function Destinations(t: TransitionDef): set<PlaceId> {
    set tag | tag in t.to :: t.to[tag]
  }

  /** The directed place graph of the schema. */
  function PlaceLinks(s: FlowSchema): set<Link> {
    set t, q | t in s.transitions && q in Destinations(t) :: (t.from, q)
  }

  function InboundIds(s: FlowSchema): set<PlaceId> {
    set p | p in s.places && p.kind.Inbound? :: p.id
  }

  function OutboundIds(s: FlowSchema): set<PlaceId> {
    set p | p in s.places && p.kind.Outbound? :: p.id
  }

  ghost predicate FromInbound(s: FlowSchema, p: PlaceId) {
    Reaches(PlaceLinks(s), InboundIds(s), p)
  }

  ghost predicate ToOutbound(s: FlowSchema, p: PlaceId) {
    Reaches(Reversed(PlaceLinks(s)), OutboundIds(s), p)
  }

  /** Every place and every transition lies on a path from the inbound to an outbound place. */
  ghost predicate OnPaths(s: FlowSchema) {
    PlacesOnPaths(s) && TransitionsFromInbound(s) && TransitionsToOutbound(s)
  }

  ghost predicate PlacesOnPaths(s: FlowSchema) {
    forall p {:trigger OnPath(s, p.id)} | p in s.places :: OnPath(s, p.id)
  }

  ghost predicate OnPath(s: FlowSchema, p: PlaceId) {
    FromInbound(s, p) && ToOutbound(s, p)
  }

  ghost predicate TransitionsToOutbound(s: FlowSchema) {
    forall t {:trigger LeadsToOutbound(s, t)} | t in s.transitions :: LeadsToOutbound(s, t)
  }

  ghost predicate TransitionsFromInbound(s: FlowSchema) {
    forall t {:trigger FromInbound(s, t.from)} | t in s.transitions :: FromInbound(s, t.from)
  }

  ghost predicate LeadsToOutbound(s: FlowSchema, t: TransitionDef) {
    exists q :: q in Destinations(t) && ToOutbound(s, q)
  }

  ghost predicate WellFormed(s: FlowSchema) {
    && DistinctPlaces(s) && DistinctTransitions(s)
    && TokensFit(s)
    && OneInbound(s) && SomeOutbound(s)
    && InboundFedFromInbound(s)
    && OnPaths(s)
    && NoGaps(s)
  }

  // ---- What each error reports ----

  /** The last definition with an id, as building a Map from the list keeps it. */
  function PlaceMap(places: seq<PlaceDef>): map<PlaceId, PlaceDef> {
    if places == [] then map[] else PlaceMap(places[..|places| - 1])[places[|places| - 1].id := places[|places| - 1]]
  }

  function OfKind(places: seq<PlaceDef>, kind: PlaceType): seq<PlaceId> {
    if places == [] then [] else
      var r := OfKind(places[..|places| - 1], kind);
      if places[|places| - 1].kind == kind then r + [places[|places| - 1].id] else r
  }

  /** The directed graph with transitions merged by id, as the validator's maps hold it. */
  function MergedLinks(s: FlowSchema): set<Link> {
    set t, u, q | t in s.transitions && u in s.transitions && t.id == u.id && q in Destinations(u) :: (t.from, q)
  }

  function AdjacentPlaces(s: FlowSchema): set<PlaceId> {
    (set t | t in s.transitions :: t.from) + (set t, q | t in s.transitions && q in Destinations(t) :: q)
  }

  /** The forward search starts at the first inbound place only. */
  ghost predicate Forward(s: FlowSchema, p: PlaceId) {
    var inbound := OfKind(s.places, Inbound);
    inbound != [] && Reaches(MergedLinks(s), {inbound[0]}, p)
  }

  ghost predicate Backward(s: FlowSchema, p: PlaceId) {
    Reaches(Reversed(MergedLinks(s)), SetOf(OfKind(s.places, Outbound)), p)
  }

  ghost predicate OnForward(s: FlowSchema, id: TransitionId) {
    exists t :: t in s.transitions && t.id == id && Forward(s, t.from)
  }

  ghost predicate OnBackward(s: FlowSchema, id: TransitionId) {
    exists t, q :: t in s.transitions && t.id == id && q in Destinations(t) && Backward(s, q)
  }

  ghost predicate Searched(s: FlowSchema) {
    OfKind(s.places, Inbound) != [] && OfKind(s.places, Outbound) != []
  }

  ghost predicate Connected(s: FlowSchema) {
    s.transitions != [] ==>
      forall p | p in AdjacentPlaces(s) :: Reaches(PlaceLinks(s) + Reversed(PlaceLinks(s)), {s.transitions[0].from}, p)
  }

  /** Exactly when the validator reports `e`. */
  ghost predicate ErrorHolds(s: FlowSchema, e: ValidationError) {
    match e
    case DuplicatePlaceIds => !DistinctPlaces(s)
    case DuplicateTransitionIds => !DistinctTransitions(s)
    case NoInbound => |OfKind(s.places, Inbound)| == 0
    case MultipleInbound => |OfKind(s.places, Inbound)| > 1
    case NoOutbound => |OfKind(s.places, Outbound)| == 0
    case NotConnected => !Connected(s)
    case UnusedPlace(_) => SomePlace(s, |s.places|, e)
    case InboundTagProduced(_, _, _) => SomePlace(s, |s.places|, e)
    case Gap(_, _) => SomePlace(s, |s.places|, e)
    case UnsoundPlace(_) => Searched(s) && SomePlace(s, |s.places|, e)
    case DeadTransition(_) => Searched(s) && SomeTransition(s, |s.transitions|, e)
    case _ => SomeTransition(s, |s.transitions|, e)
  }

  ghost predicate SomePlace(s: FlowSchema, n: nat, e: ValidationError)
    requires n <= |s.places|
  {
    exists i :: 0 <= i < n && PlaceError(s, s.places[i], e)
  }

  ghost predicate SomeTransition(s: FlowSchema, n: nat, e: ValidationError)
    requires n <= |s.transitions|
  {
    exists i :: 0 <= i < n && TransitionError(s, s.transitions[i], e)
  }

  /** The errors reported against one place. */
  ghost predicate PlaceError(s: FlowSchema, p: PlaceDef, e: ValidationError) {
    match e
    case UnusedPlace(place) => place == p.id && p.id !in AdjacentPlaces(s)
    case InboundTagProduced(_, _, _) => p.kind.Inbound? && SomeSend(s, p, |s.transitions|, e)
    case UnsoundPlace(place) => place == p.id && !(Forward(s, p.id) && Backward(s, p.id))
    case Gap(tag, place) => place == p.id && !p.kind.Inbound? && tag in p.accepts && !Produced(s, p.id, tag)
    case _ => false
  }

  ghost predicate SomeSend(s: FlowSchema, p: PlaceDef, n: nat, e: ValidationError)
    requires n <= |s.transitions|
  {
    exists i :: 0 <= i < n && SendError(p, s.transitions[i], e)
  }

  ghost predicate SendError(p: PlaceDef, t: TransitionDef, e: ValidationError) {
    e.InboundTagProduced? && e.place == p.id && e.t == t.id && t.from != p.id && e.tag in t.to && e.tag in p.accepts
  }

  /** The errors reported against one transition. */
  ghost predicate TransitionError(s: FlowSchema, t: TransitionDef, e: ValidationError) {
    var placeMap := PlaceMap(s.places);
    match e
    case UnknownFrom(id, place) => id == t.id && place == t.from && place !in placeMap
    case UnknownTo(id, tag, place) => id == t.id && tag in t.to && place == t.to[tag] && place !in placeMap
    case ConsumesUnaccepted(id, tag, place) =>
      id == t.id && place == t.from && place in placeMap && tag in t.consumes && tag !in placeMap[place].accepts
    case SendsUnaccepted(id, tag, place) =>
      id == t.id && tag in t.to && place == t.to[tag] && place in placeMap && tag !in placeMap[place].accepts
    case IncompleteTransition(id) => id == t.id && (t.consumes == {} || t.to == map[])
    case DeadTransition(id) => id == t.id && !(OnForward(s, t.id) && OnBackward(s, t.id))
    case _ => false
  }

  // ---- The checks, in the validator's order ----

  lemma {:induction false} PlaceMapKeys(places: seq<PlaceDef>)
    ensures forall p | p in places :: p.id in PlaceMap(places)
    ensures forall id | id in PlaceMap(places) :: PlaceMap(places)[id] in places && PlaceMap(places)[id].id == id
  {
    if places != [] {
      var front, last := places[..|places| - 1], places[|places| - 1];
      PlaceMapKeys(front);
      assert places == front + [last];
      var m := PlaceMap(front);
      assert PlaceMap(places) == m[last.id := last];
      forall id | id in PlaceMap(places) ensures PlaceMap(places)[id] in places && PlaceMap(places)[id].id == id {
        if id != last.id {
          assert m[id] in front;
        }
      }
    } else {
      assert PlaceMap(places) == map[];
    }
  }

  /** As many ids as entries exactly when no id repeats. */
  lemma {:induction false} SizesTell(ids: seq<Id>)
    ensures |SetOf(ids)| <= |ids|
    ensures |SetOf(ids)| == |ids| <==> Distinct(ids)
  {
    if Distinct(ids) {
      DistinctCardinality(ids);
    } else {
      var i, j :| 0 <= i < j < |ids| && ids[i] == ids[j];
      var rest := ids[..j] + ids[j + 1..];
      SizesBound(rest);
      assert SetOf(ids) == SetOf(rest) by {
        forall x ensures x in ids <==> x in rest {
          if x in ids {
            var k :| 0 <= k < |ids| && ids[k] == x;
            assert x == rest[if k < j then k else if k == j then i else k - 1];
          }
        }
      }
    }
  }

  lemma {:induction false} SizesBound(ids: seq<Id>)
    ensures |SetOf(ids)| <= |ids|
  {
    if ids != [] {
      SizesBound(ids[..|ids| - 1]);
      assert SetOf(ids) == SetOf(ids[..|ids| - 1]) + {ids[|ids| - 1]};
    }
  }

  method CheckDuplicates(s: FlowSchema) returns (errors: seq<ValidationError>)
    ensures forall e :: e in errors <==> (e.DuplicatePlaceIds? || e.DuplicateTransitionIds?) && ErrorHolds(s, e)
  {
    var placeIds: seq<Id> := seq(|s.places|, i requires 0 <= i < |s.places| => s.places[i].id);
    var transitionIds: seq<Id> := seq(|s.transitions|, i requires 0 <= i < |s.transitions| => s.transitions[i].id);
    SizesTell(placeIds);
    SizesTell(transitionIds);
    assert Distinct(placeIds) <==> DistinctPlaces(s) by {
      assert forall i | 0 <= i < |s.places| :: placeIds[i] == s.places[i].id;
    }
    assert Distinct(transitionIds) <==> DistinctTransitions(s) by {
      assert forall i | 0 <= i < |s.transitions| :: transitionIds[i] == s.transitions[i].id;
    }
    errors := [];
    if |SetOf(placeIds)| != |s.places| {
      errors := errors + [DuplicatePlaceIds];
    }
    if |SetOf(transitionIds)| != |s.transitions| {
      errors := errors + [DuplicateTransitionIds];
    }
  }

  method CheckReferences(s: FlowSchema, placeMap: map<PlaceId, PlaceDef>) returns (errors: seq<ValidationError>)
    requires placeMap == PlaceMap(s.places)
    ensures forall e :: e in errors <==> (e.UnknownFrom? || e.UnknownTo?) && ErrorHolds(s, e)
  {
    errors := [];
    var i := 0;
    while i < |s.transitions|
      invariant 0 <= i <= |s.transitions|
      invariant forall e :: e in errors <==> e.UnknownFrom? && SomeTransition(s, i, e)
    {
      var t := s.transitions[i];
      if t.from !in placeMap {
        errors := errors + [UnknownFrom(t.id, t.from)];
      }
      i := i + 1;
    }
    i := 0;
    while i < |s.transitions|
      invariant 0 <= i <= |s.transitions|
      invariant forall e :: e in errors <==> (e.UnknownFrom? && SomeTransition(s, |s.transitions|, e))
                                             || (e.UnknownTo? && SomeTransition(s, i, e))
    {
      var unknown := UnknownDestinations(s, placeMap, s.transitions[i]);
      errors := errors + unknown;
      i := i + 1;
    }
  }

  method UnknownDestinations(s: FlowSchema, placeMap: map<PlaceId, PlaceDef>, t: TransitionDef)
      returns (errors: seq<ValidationError>)
    requires placeMap == PlaceMap(s.places)
    ensures forall e :: e in errors <==> e.UnknownTo? && TransitionError(s, t, e)
  {
    errors := [];
    var rest := t.to.Keys;
    while rest != {}
      invariant rest <= t.to.Keys
      invariant forall e :: e in errors <==> e.UnknownTo? && TransitionError(s, t, e) && e.tag !in rest
      decreases rest
    {
      var tag :| tag in rest;
      if t.to[tag] !in placeMap {
        errors := errors + [UnknownTo(t.id, tag, t.to[tag])];
      }
      rest := rest - {tag};
    }
  }

  method CheckCompatibility(s: FlowSchema, placeMap: map<PlaceId, PlaceDef>) returns (errors: seq<ValidationError>)
    requires placeMap == PlaceMap(s.places)
    ensures forall e :: e in errors <==> (e.ConsumesUnaccepted? || e.SendsUnaccepted?) && ErrorHolds(s, e)
  {
    errors := [];
    var i := 0;
    while i < |s.transitions|
      invariant 0 <= i <= |s.transitions|
      invariant forall e :: e in errors <==> (e.ConsumesUnaccepted? || e.SendsUnaccepted?) && SomeTransition(s, i, e)
    {
      var consumed := UnacceptedInputs(s, placeMap, s.transitions[i]);
      var sent := UnacceptedOutputs(s, placeMap, s.transitions[i]);
      errors := errors + consumed + sent;
      i := i + 1;
    }
  }

  method UnacceptedInputs(s: FlowSchema, placeMap: map<PlaceId, PlaceDef>, t: TransitionDef)
      returns (errors: seq<ValidationError>)
    requires placeMap == PlaceMap(s.places)
    ensures forall e :: e in errors <==> e.ConsumesUnaccepted? && TransitionError(s, t, e)
  {
    errors := [];
    if t.from in placeMap {
      var rest := t.consumes;
      while rest != {}
        invariant rest <= t.consumes
        invariant forall e :: e in errors <==> e.ConsumesUnaccepted? && TransitionError(s, t, e) && e.tag !in rest
        decreases rest
      {
        var tag :| tag in rest;
        if tag !in placeMap[t.from].accepts {
          errors := errors + [ConsumesUnaccepted(t.id, tag, t.from)];
        }
        rest := rest - {tag};
      }
    }
  }

  method UnacceptedOutputs(s: FlowSchema, placeMap: map<PlaceId, PlaceDef>, t: TransitionDef)
      returns (errors: seq<ValidationError>)
    requires placeMap == PlaceMap(s.places)
    ensures forall e :: e in errors <==> e.SendsUnaccepted? && TransitionError(s, t, e)
  {
    errors := [];
    var rest := t.to.Keys;
    while rest != {}
      invariant rest <= t.to.Keys
      invariant forall e :: e in errors <==> e.SendsUnaccepted? && TransitionError(s, t, e) && e.tag !in rest
      decreases rest
    {
      var tag :| tag in rest;
      if t.to[tag] in placeMap && tag !in placeMap[t.to[tag]].accepts {
        errors := errors + [SendsUnaccepted(t.id, tag, t.to[tag])];
      }
      rest := rest - {tag};
    }
  }

  method CheckUsed(s: FlowSchema) returns (errors: seq<ValidationError>)
    ensures forall e :: e in errors <==> e.UnusedPlace? && ErrorHolds(s, e)
  {
    var used: set<PlaceId> := {};
    var i := 0;
    while i < |s.transitions|
      invariant 0 <= i <= |s.transitions|
      invariant forall p :: p in used
                            <==> exists k :: 0 <= k < i
                                             && (s.transitions[k].from == p || p in Destinations(s.transitions[k]))
    {
      used := used + {s.transitions[i].from} + Destinations(s.transitions[i]);
      i := i + 1;
    }
    assert used == AdjacentPlaces(s);
    errors := [];
    i := 0;
    while i < |s.places|
      invariant 0 <= i <= |s.places|
      invariant forall e :: e in errors <==> e.UnusedPlace? && SomePlace(s, i, e)
    {
      if s.places[i].id !in used {
        errors := errors + [UnusedPlace(s.places[i].id)];
      }
      i := i + 1;
    }
  }

  method CheckComplete(s: FlowSchema) returns (errors: seq<ValidationError>)
    ensures forall e :: e in errors <==> e.IncompleteTransition? && ErrorHolds(s, e)
  {
    errors := [];
    var i := 0;
    while i < |s.transitions|
      invariant 0 <= i <= |s.transitions|
      invariant forall e :: e in errors <==> e.IncompleteTransition? && SomeTransition(s, i, e)
    {
      if s.transitions[i].consumes == {} || s.transitions[i].to == map[] {
        errors := errors + [IncompleteTransition(s.transitions[i].id)];
      }
      i := i + 1;
    }
  }

  method IdsOfKind(places: seq<PlaceDef>, kind: PlaceType) returns (ids: seq<PlaceId>)
    ensures ids == OfKind(places, kind)
  {
    ids := [];
    var i := 0;
    while i < |places|
      invariant 0 <= i <= |places|
      invariant ids == OfKind(places[..i], kind)
    {
      assert places[..i + 1][..i] == places[..i];
      if places[i].kind == kind {
        ids := ids + [places[i].id];
      }
      i := i + 1;
    }
    assert places[..i] == places;
  }

  method CheckEnds(s: FlowSchema, inbound: seq<PlaceId>, outbound: seq<PlaceId>) returns (errors: seq<ValidationError>)
    requires inbound == OfKind(s.places, Inbound) && outbound == OfKind(s.places, Outbound)
    ensures forall e :: e in errors <==> (e.NoInbound? || e.MultipleInbound? || e.NoOutbound?) && ErrorHolds(s, e)
  {
    errors := [];
    if |inbound| == 0 {
      errors := errors + [NoInbound];
    } else if |inbound| > 1 {
      errors := errors + [MultipleInbound];
    }
    if |outbound| == 0 {
      errors := errors + [NoOutbound];
    }
  }

  method CheckInboundTags(s: FlowSchema) returns (errors: seq<ValidationError>)
    ensures forall e :: e in errors <==> e.InboundTagProduced? && ErrorHolds(s, e)
  {
    errors := [];
    var i := 0;
    while i < |s.places|
      invariant 0 <= i <= |s.places|
      invariant forall e :: e in errors <==> e.InboundTagProduced? && SomePlace(s, i, e)
    {
      if s.places[i].kind.Inbound? {
        var produced := TagsSentTo(s, s.places[i]);
        errors := errors + produced;
      }
      i := i + 1;
    }
  }

  method TagsSentTo(s: FlowSchema, inbound: PlaceDef) returns (errors: seq<ValidationError>)
    ensures forall e :: e in errors <==> e.InboundTagProduced? && SomeSend(s, inbound, |s.transitions|, e)
  {
    errors := [];
    var i := 0;
    while i < |s.transitions|
      invariant 0 <= i <= |s.transitions|
      invariant forall e :: e in errors <==> e.InboundTagProduced? && SomeSend(s, inbound, i, e)
    {
      var t := s.transitions[i];
      if t.from != inbound.id {
        var sent := TagsSentBy(inbound, t);
        errors := errors + sent;
      }
      i := i + 1;
    }
  }

  method TagsSentBy(inbound: PlaceDef, t: TransitionDef) returns (errors: seq<ValidationError>)
    requires t.from != inbound.id
    ensures forall e :: e in errors <==> SendError(inbound, t, e)
  {
    errors := [];
    var rest := t.to.Keys;
    while rest != {}
      invariant rest <= t.to.Keys
      invariant forall e :: e in errors <==> SendError(inbound, t, e) && e.tag !in rest
      decreases rest
    {
      var tag :| tag in rest;
      if tag in inbound.accepts {
        errors := errors + [InboundTagProduced(tag, inbound.id, t.id)];
      }
      rest := rest - {tag};
    }
  }

  ghost predicate SentByFirst(s: FlowSchema, n: nat, p: PlaceId, tag: Tag)
    requires n <= |s.transitions|
  {
    exists k :: 0 <= k < n && tag in s.transitions[k].to && s.transitions[k].to[tag] == p
  }

  method CheckGaps(s: FlowSchema) returns (errors: seq<ValidationError>)
    ensures forall e :: e in errors <==> e.Gap? && ErrorHolds(s, e)
  {
    var produced: Adjacency := map[];
    var i := 0;
    while i < |s.transitions|
      invariant 0 <= i <= |s.transitions|
      invariant forall p, tag :: tag in Neighbors(produced, p) <==> SentByFirst(s, i, p, tag)
    {
      produced := RecordProduced(produced, s.transitions[i]);
      i := i + 1;
    }
    assert forall p, tag :: SentByFirst(s, i, p, tag) <==> Produced(s, p, tag);
    errors := [];
    i := 0;
    while i < |s.places|
      invariant 0 <= i <= |s.places|
      invariant forall e :: e in errors <==> e.Gap? && SomePlace(s, i, e)
    {
      if !s.places[i].kind.Inbound? {
        var gaps := GapsOf(s, s.places[i], Neighbors(produced, s.places[i].id));
        errors := errors + gaps;
      }
      i := i + 1;
    }
  }

  method RecordProduced(m: Adjacency, t: TransitionDef) returns (produced: Adjacency)
    ensures forall p, tag :: tag in Neighbors(produced, p) <==>
                             tag in Neighbors(m, p) || (tag in t.to && t.to[tag] == p)
  {
    produced := m;
    var rest := t.to.Keys;
    while rest != {}
      invariant rest <= t.to.Keys
      invariant forall p, tag :: tag in Neighbors(produced, p)
                                 <==> tag in Neighbors(m, p) || (tag in t.to && tag !in rest && t.to[tag] == p)
      decreases rest
    {
      var tag :| tag in rest;
      produced := Put(produced, t.to[tag], {tag});
      rest := rest - {tag};
    }
  }

  method GapsOf(s: FlowSchema, p: PlaceDef, produced: set<Tag>) returns (errors: seq<ValidationError>)
    requires forall tag :: tag in produced <==> Produced(s, p.id, tag)
    requires !p.kind.Inbound?
    ensures forall e :: e in errors <==> e.Gap? && PlaceError(s, p, e)
  {
    errors := [];
    var rest := p.accepts;
    while rest != {}
      invariant rest <= p.accepts
      invariant forall e :: e in errors <==> e.Gap? && PlaceError(s, p, e) && e.tag !in rest
      decreases rest
    {
      var tag :| tag in rest;
      if tag !in produced {
        errors := errors + [Gap(tag, p.id)];
      }
      rest := rest - {tag};
    }
  }

  // ---- Connectivity and directed soundness ----

  function Undirected(s: FlowSchema): set<Link> {
    PlaceLinks(s) + Reversed(PlaceLinks(s))
  }

  /** Adds `v` under each of `keys`. */
  method AddUnder(m: Adjacency, keys: set<Id>, v: Id) returns (m': Adjacency)
    ensures forall k, x :: x in Neighbors(m', k) <==> x in Neighbors(m, k) || (k in keys && x == v)
    ensures m'.Keys == m.Keys + keys
  {
    m' := m;
    var rest := keys;
    while rest != {}
      invariant rest <= keys
      invariant forall k, x :: x in Neighbors(m', k) <==> x in Neighbors(m, k) || (k in keys - rest && x == v)
      invariant m'.Keys == m.Keys + (keys - rest)
      decreases rest
    {
      var k :| k in rest;
      m' := Put(m', k, {v});
      rest := rest - {k};
    }
  }

  ghost predicate LinkedBefore(s: FlowSchema, n: nat, p: PlaceId, q: PlaceId)
    requires n <= |s.transitions|
  {
    exists k :: 0 <= k < n && Joins(s.transitions[k], p, q)
  }

  ghost predicate Joins(t: TransitionDef, p: PlaceId, q: PlaceId) {
    (t.from == p && q in Destinations(t)) || (t.from == q && p in Destinations(t))
  }

  lemma LinkedNext(s: FlowSchema, i: nat)
    requires i < |s.transitions|
    ensures var t := s.transitions[i];
            forall p, q :: LinkedBefore(s, i + 1, p, q) <==>
              LinkedBefore(s, i, p, q) || Joins(t, p, q)
  {
  }

  predicate Touches(t: TransitionDef, p: PlaceId) {
    t.from == p || p in Destinations(t)
  }

  ghost predicate TouchedBefore(s: FlowSchema, n: nat, p: PlaceId)
    requires n <= |s.transitions|
  {
    exists k :: 0 <= k < n && Touches(s.transitions[k], p)
  }

  /** The map holds the first `i` transitions, in both directions. */
  ghost predicate UndirectedUpTo(s: FlowSchema, i: nat, m: Adjacency)
    requires i <= |s.transitions|
  {
    && (forall p, q :: q in Neighbors(m, p) <==> LinkedBefore(s, i, p, q))
    && (forall p :: p in m <==> TouchedBefore(s, i, p))
  }

  lemma UndirectedStep(s: FlowSchema, i: nat, m: Adjacency, m': Adjacency)
    requires i < |s.transitions| && UndirectedUpTo(s, i, m)
    requires var t := s.transitions[i];
             && (forall p, q :: q in Neighbors(m', p) <==> q in Neighbors(m, p) || Joins(t, p, q))
             && (forall p :: p in m' <==> p in m || Touches(t, p))
    ensures UndirectedUpTo(s, i + 1, m')
  {
    LinkedNext(s, i);
  }

  method BuildUndirected(s: FlowSchema) returns (m: Adjacency)
    ensures LinksOf(m) == Undirected(s)
    ensures m.Keys == AdjacentPlaces(s)
  {
    m := map[];
    var i := 0;
    while i < |s.transitions|
      invariant 0 <= i <= |s.transitions|
      invariant UndirectedUpTo(s, i, m)
    {
      var m' := AddBothWays(m, s.transitions[i]);
      UndirectedStep(s, i, m, m');
      m := m';
      i := i + 1;
    }
    UndirectedLinks(s, m);
    assert forall p :: p in m <==> p in AdjacentPlaces(s);
  }

  method AddBothWays(m: Adjacency, t: TransitionDef) returns (m': Adjacency)
    ensures forall p, q :: q in Neighbors(m', p) <==> q in Neighbors(m, p) || Joins(t, p, q)
    ensures forall p :: p in m' <==> p in m || Touches(t, p)
  {
    m' := Put(m, t.from, Destinations(t));
    m' := AddUnder(m', Destinations(t), t.from);
  }

  lemma UndirectedLinks(s: FlowSchema, m: Adjacency)
    requires forall p, q :: q in Neighbors(m, p) <==> LinkedBefore(s, |s.transitions|, p, q)
    ensures LinksOf(m) == Undirected(s)
  {
    forall p: Id, q: Id ensures (p, q) in LinksOf(m) <==> (p, q) in Undirected(s) {
      assert (p, q) in LinksOf(m) <==> LinkedBefore(s, |s.transitions|, p, q);
      if (p, q) in Undirected(s) {
        if (p, q) in PlaceLinks(s) {
          var t :| t in s.transitions && q in Destinations(t) && t.from == p;
          assert Joins(t, p, q);
        } else {
          var t :| t in s.transitions && p in Destinations(t) && t.from == q;
          assert Joins(t, p, q);
        }
      }
      if LinkedBefore(s, |s.transitions|, p, q) {
        var k :| 0 <= k < |s.transitions| && Joins(s.transitions[k], p, q);
        assert (p, q) in PlaceLinks(s) || (q, p) in PlaceLinks(s);
      }
    }
  }

  method CheckConnected(s: FlowSchema) returns (errors: seq<ValidationError>)
    ensures forall e :: e in errors <==> e.NotConnected? && ErrorHolds(s, e)
  {
    errors := [];
    var adjacency := BuildUndirected(s);
    assert s.transitions == [] ==> adjacency.Keys == {};
    if |adjacency| > 0 {
      var visited := Explore(adjacency, s.transitions[0].from);
      VisitedAreAdjacent(s, visited);
      ghost var keys := adjacency.Keys;
      if |visited| != |adjacency| {
        assert visited != keys;
        errors := errors + [NotConnected];
      } else {
        SubsetOfSameSize(visited, keys);
      }
    }
  }

  lemma SubsetOfSameSize(a: set<Id>, b: set<Id>)
    requires a <= b && |a| == |b|
    ensures a == b
  {
    assert |b - a| == |b| - |a|;
  }

  lemma VisitedAreAdjacent(s: FlowSchema, visited: set<PlaceId>)
    requires s.transitions != []
    requires forall q :: q in visited <==> Reaches(Undirected(s), {s.transitions[0].from}, q)
    ensures visited <= AdjacentPlaces(s)
  {
    var start := s.transitions[0].from;
    forall q | q in visited ensures q in AdjacentPlaces(s) {
      var p :| Path(Undirected(s), p) && p[0] in {start} && p[|p| - 1] == q;
      if |p| > 1 {
        assert (p[|p| - 2], p[|p| - 2 + 1]) in Undirected(s);
      }
    }
  }

  ghost predicate ConsumesBefore(s: FlowSchema, n: nat, p: PlaceId, id: TransitionId)
    requires n <= |s.transitions|
  {
    exists k :: 0 <= k < n && s.transitions[k].from == p && s.transitions[k].id == id
  }

  ghost predicate ProducesBefore(s: FlowSchema, n: nat, id: TransitionId, q: PlaceId)
    requires n <= |s.transitions|
  {
    exists k :: 0 <= k < n && s.transitions[k].id == id && q in Destinations(s.transitions[k])
  }

  lemma ConsumesOneMore(s: FlowSchema, i: nat, p: PlaceId, id: TransitionId)
    requires i < |s.transitions|
    ensures ConsumesBefore(s, i + 1, p, id) <==> ConsumesBefore(s, i, p, id)
                                                 || (s.transitions[i].from == p && s.transitions[i].id == id)
  {
    if ConsumesBefore(s, i + 1, p, id) {
      var k :| 0 <= k < i + 1 && s.transitions[k].from == p && s.transitions[k].id == id;
      assert k < i || k == i;
    }
  }

  lemma ProducesOneMore(s: FlowSchema, i: nat, id: TransitionId, q: PlaceId)
    requires i < |s.transitions|
    ensures ProducesBefore(s, i + 1, id, q) <==> ProducesBefore(s, i, id, q)
                                                 || (s.transitions[i].id == id && q in Destinations(s.transitions[i]))
  {
    if ProducesBefore(s, i + 1, id, q) {
      var k :| 0 <= k < i + 1 && s.transitions[k].id == id && q in Destinations(s.transitions[k]);
      assert k < i || k == i;
    }
  }

  lemma ConsumesNext(s: FlowSchema, i: nat)
    requires i < |s.transitions|
    ensures var t := s.transitions[i];
            && (forall p, id :: ConsumesBefore(s, i + 1, p, id)
                                <==> ConsumesBefore(s, i, p, id) || (t.from == p && t.id == id))
            && (forall id, q :: ProducesBefore(s, i + 1, id, q)
                                <==> ProducesBefore(s, i, id, q) || (t.id == id && q in Destinations(t)))
  {
    var t := s.transitions[i];
    forall p, id ensures ConsumesBefore(s, i + 1, p, id) <==> ConsumesBefore(s, i, p, id) || (t.from == p && t.id == id)
    {
      ConsumesOneMore(s, i, p, id);
    }
    forall id, q ensures ProducesBefore(s, i + 1, id, q) <==>
        ProducesBefore(s, i, id, q) || (t.id == id && q in Destinations(t))
    {
      ProducesOneMore(s, i, id, q);
    }
  }

  method BuildForward(s: FlowSchema) returns (outer: Adjacency, inner: Adjacency)
    ensures forall p, id :: id in Neighbors(outer, p) <==> ConsumesBefore(s, |s.transitions|, p, id)
    ensures forall id, q :: q in Neighbors(inner, id) <==> ProducesBefore(s, |s.transitions|, id, q)
  {
    outer, inner := map[], map[];
    var i := 0;
    while i < |s.transitions|
      invariant 0 <= i <= |s.transitions|
      invariant forall p, id :: id in Neighbors(outer, p) <==> ConsumesBefore(s, i, p, id)
      invariant forall id, q :: q in Neighbors(inner, id) <==> ProducesBefore(s, i, id, q)
    {
      var t := s.transitions[i];
      ConsumesNext(s, i);
      outer := Put(outer, t.from, {t.id});
      inner := Put(inner, t.id, Destinations(t));
      i := i + 1;
    }
  }

  method BuildBackward(s: FlowSchema) returns (outer: Adjacency, inner: Adjacency)
    ensures forall q, id :: id in Neighbors(outer, q) <==> ProducesBefore(s, |s.transitions|, id, q)
    ensures forall id, p :: p in Neighbors(inner, id) <==> ConsumesBefore(s, |s.transitions|, p, id)
  {
    outer, inner := map[], map[];
    var i := 0;
    while i < |s.transitions|
      invariant 0 <= i <= |s.transitions|
      invariant forall q, id :: id in Neighbors(outer, q) <==> ProducesBefore(s, i, id, q)
      invariant forall id, p :: p in Neighbors(inner, id) <==> ConsumesBefore(s, i, p, id)
    {
      var t := s.transitions[i];
      ConsumesNext(s, i);
      inner := Put(inner, t.id, {t.from});
      outer := AddUnder(outer, Destinations(t), t.id);
      i := i + 1;
    }
  }

  lemma ForwardLinks(s: FlowSchema, outer: Adjacency, inner: Adjacency)
    requires forall p, id :: id in Neighbors(outer, p) <==> ConsumesBefore(s, |s.transitions|, p, id)
    requires forall id, q :: q in Neighbors(inner, id) <==> ProducesBefore(s, |s.transitions|, id, q)
    ensures LinksOf(Through(outer, inner)) == MergedLinks(s)
  {
    var links := LinksOf(Through(outer, inner));
    forall p, q ensures (p, q) in links <==> (p, q) in MergedLinks(s) {
      if (p, q) in links {
        var id :| id in outer[p] && id in inner && q in inner[id];
        assert id in Neighbors(outer, p) && q in Neighbors(inner, id);
      }
      if (p, q) in MergedLinks(s) {
        var t, u :| t in s.transitions && u in s.transitions && t.id == u.id && q in Destinations(u) && t.from == p;
        assert t.id in Neighbors(outer, p) && q in Neighbors(inner, t.id);
      }
    }
  }

  lemma BackwardLinks(s: FlowSchema, outer: Adjacency, inner: Adjacency)
    requires forall q, id :: id in Neighbors(outer, q) <==> ProducesBefore(s, |s.transitions|, id, q)
    requires forall id, p :: p in Neighbors(inner, id) <==> ConsumesBefore(s, |s.transitions|, p, id)
    ensures LinksOf(Through(outer, inner)) == Reversed(MergedLinks(s))
  {
    var links := LinksOf(Through(outer, inner));
    forall p, q ensures (q, p) in links <==> (p, q) in MergedLinks(s) {
      if (q, p) in links {
        var id :| id in outer[q] && id in inner && p in inner[id];
        assert id in Neighbors(outer, q) && p in Neighbors(inner, id);
      }
      if (p, q) in MergedLinks(s) {
        var t, u :| t in s.transitions && u in s.transitions && t.id == u.id && q in Destinations(u) && t.from == p;
        assert u.id in Neighbors(outer, q) && p in Neighbors(inner, u.id);
      }
    }
    assert forall p, q :: (q, p) in Reversed(MergedLinks(s)) <==> (p, q) in MergedLinks(s);
  }

  method SearchForward(s: FlowSchema, source: PlaceId) returns (places: set<PlaceId>, transitions: set<TransitionId>)
    requires OfKind(s.places, Inbound) != [] && source == OfKind(s.places, Inbound)[0]
    ensures forall p :: p in places <==> Forward(s, p)
    ensures forall id :: id in transitions <==> OnForward(s, id)
  {
    var outer, inner := BuildForward(s);
    places, transitions := ExploreBoth(outer, inner, [source]);
    ForwardLinks(s, outer, inner);
    assert SetOf([source]) == {source};
    forall id ensures id in transitions <==> OnForward(s, id) {
      if id in transitions {
        var p :| p in places && id in Neighbors(outer, p);
        assert ConsumesBefore(s, |s.transitions|, p, id);
      }
      if OnForward(s, id) {
        var t :| t in s.transitions && t.id == id && Forward(s, t.from);
        assert ConsumesBefore(s, |s.transitions|, t.from, id);
      }
    }
  }

  method SearchBackward(s: FlowSchema, sinks: seq<PlaceId>)
      returns (places: set<PlaceId>, transitions: set<TransitionId>)
    requires sinks == OfKind(s.places, Outbound)
    ensures forall p :: p in places <==> Backward(s, p)
    ensures forall id :: id in transitions <==> OnBackward(s, id)
  {
    var outer, inner := BuildBackward(s);
    places, transitions := ExploreBoth(outer, inner, sinks);
    BackwardLinks(s, outer, inner);
    forall id ensures id in transitions <==> OnBackward(s, id) {
      if id in transitions {
        var q :| q in places && id in Neighbors(outer, q);
        var k :| 0 <= k < |s.transitions| && s.transitions[k].id == id && q in Destinations(s.transitions[k]);
        assert s.transitions[k] in s.transitions && Backward(s, q);
      }
      if OnBackward(s, id) {
        var t, q :| t in s.transitions && t.id == id && q in Destinations(t) && Backward(s, q);
        assert ProducesBefore(s, |s.transitions|, id, q);
      }
    }
  }

  method CheckPaths(s: FlowSchema, inbound: seq<PlaceId>, outbound: seq<PlaceId>) returns (errors: seq<ValidationError>)
    requires inbound == OfKind(s.places, Inbound) && outbound == OfKind(s.places, Outbound)
    ensures forall e :: e in errors <==> (e.UnsoundPlace? || e.DeadTransition?) && ErrorHolds(s, e)
  {
    errors := [];
    if |inbound| > 0 && |outbound| > 0 {
      var fromPlaces, fromTransitions := SearchForward(s, inbound[0]);
      var toPlaces, toTransitions := SearchBackward(s, outbound);
      var i := 0;
      while i < |s.places|
        invariant 0 <= i <= |s.places|
        invariant forall e :: e in errors <==> e.UnsoundPlace? && SomePlace(s, i, e)
      {
        if s.places[i].id !in fromPlaces || s.places[i].id !in toPlaces {
          errors := errors + [UnsoundPlace(s.places[i].id)];
        }
        i := i + 1;
      }
      i := 0;
      while i < |s.transitions|
        invariant 0 <= i <= |s.transitions|
        invariant forall e :: e in errors <==> (e.UnsoundPlace? && SomePlace(s, |s.places|, e))
                                               || (e.DeadTransition? && SomeTransition(s, i, e))
      {
        if s.transitions[i].id !in fromTransitions || s.transitions[i].id !in toTransitions {
          errors := errors + [DeadTransition(s.transitions[i].id)];
        }
        i := i + 1;
      }
    }
  }

  method CheckDefinitions(s: FlowSchema) returns (errors: seq<ValidationError>)
    ensures forall e :: e in errors <==> !AboutFlow(e) && ErrorHolds(s, e)
  {
    var placeMap := PlaceMap(s.places);
    errors := CheckDuplicates(s);
    var references := CheckReferences(s, placeMap);
    var compatibility := CheckCompatibility(s, placeMap);
    var used := CheckUsed(s);
    var complete := CheckComplete(s);
    errors := errors + references;
    errors := errors + compatibility;
    errors := errors + used;
    errors := errors + complete;
  }

  predicate AboutFlow(e: ValidationError) {
    e.NoInbound? || e.MultipleInbound? || e.NoOutbound? || e.InboundTagProduced? || e.NotConnected? || e.UnsoundPlace?
        || e.DeadTransition? || e.Gap?
  }

  method CheckFlow(s: FlowSchema) returns (errors: seq<ValidationError>)
    ensures forall e :: e in errors <==> AboutFlow(e) && ErrorHolds(s, e)
  {
    var inbound := IdsOfKind(s.places, Inbound);
    var outbound := IdsOfKind(s.places, Outbound);
    errors := CheckEnds(s, inbound, outbound);
    var tags := CheckInboundTags(s);
    var connected := CheckConnected(s);
    var paths := CheckPaths(s, inbound, outbound);
    var gaps := CheckGaps(s);
    errors := errors + tags;
    errors := errors + connected;
    errors := errors + paths;
    errors := errors + gaps;
  }

  /** Reports exactly the errors that hold; none are reported exactly for the well-formed schemas. */
  method Validate(s: FlowSchema) returns (errors: seq<ValidationError>)
    ensures forall e :: e in errors <==> ErrorHolds(s, e)
    ensures errors == [] <==> WellFormed(s)
  {
    var definitions := CheckDefinitions(s);
    var flow := CheckFlow(s);
    errors := definitions + flow;
    EmptyMeansNoErrors(s, errors);
    NoErrorsMeansWellFormed(s);
  }

  lemma EmptyMeansNoErrors(s: FlowSchema, errors: seq<ValidationError>)
    requires forall e :: e in errors <==> ErrorHolds(s, e)
    ensures errors == [] <==> NoErrors(s)
  {
    FirstIsIn(errors);
  }

  ghost predicate NoErrors(s: FlowSchema) {
    forall e :: !ErrorHolds(s, e)
  }

  // ---- The searches decide the declarative predicate ----

  lemma {:induction false} OfKindHolds(places: seq<PlaceDef>, kind: PlaceType)
    ensures forall id :: id in OfKind(places, kind) <==> exists p :: p in places && p.kind == kind && p.id == id
    ensures |OfKind(places, kind)| > 0 <==> exists i :: 0 <= i < |places| && places[i].kind == kind
    ensures |OfKind(places, kind)| > 1
            <==> exists i, j :: 0 <= i < j < |places| && places[i].kind == kind && places[j].kind == kind
  {
    if places != [] {
      var front, last := places[..|places| - 1], places[|places| - 1];
      OfKindHolds(front, kind);
      assert places == front + [last];
      assert forall i | 0 <= i < |front| :: front[i] == places[i];
    }
  }

  lemma EndsCount(s: FlowSchema)
    ensures OneInbound(s) <==> |OfKind(s.places, Inbound)| == 1
    ensures SomeOutbound(s) <==> |OfKind(s.places, Outbound)| > 0
  {
    OfKindHolds(s.places, Inbound);
    OfKindHolds(s.places, Outbound);
    if |OfKind(s.places, Inbound)| == 1 {
      var i :| 0 <= i < |s.places| && s.places[i].kind == Inbound;
      assert forall j | 0 <= j < |s.places| && s.places[j].kind.Inbound? :: j == i;
    }
  }

  lemma EndsAgree(s: FlowSchema)
    ensures SetOf(OfKind(s.places, Inbound)) == InboundIds(s) && SetOf(OfKind(s.places, Outbound)) == OutboundIds(s)
  {
    OfKindHolds(s.places, Inbound);
    OfKindHolds(s.places, Outbound);
  }

  lemma SameTransition(s: FlowSchema, t: TransitionDef, u: TransitionDef)
    requires DistinctTransitions(s) && t in s.transitions && u in s.transitions && t.id == u.id
    ensures t == u
  {
    var i :| 0 <= i < |s.transitions| && s.transitions[i] == t;
    var j :| 0 <= j < |s.transitions| && s.transitions[j] == u;
  }

  lemma SamePlace(s: FlowSchema, p: PlaceDef, q: PlaceDef)
    requires DistinctPlaces(s) && p in s.places && q in s.places && p.id == q.id
    ensures p == q
  {
    var i :| 0 <= i < |s.places| && s.places[i] == p;
    var j :| 0 <= j < |s.places| && s.places[j] == q;
  }

  lemma SearchesAgree(s: FlowSchema)
    requires DistinctTransitions(s) && OneInbound(s)
    ensures forall p :: Forward(s, p) <==> FromInbound(s, p)
    ensures forall p :: Backward(s, p) <==> ToOutbound(s, p)
  {
    EndsAgree(s);
    EndsCount(s);
    var inbound := OfKind(s.places, Inbound);
    assert inbound == [inbound[0]];
    assert {inbound[0]} == InboundIds(s);
    assert MergedLinks(s) == PlaceLinks(s) by {
      forall e ensures e in MergedLinks(s) <==> e in PlaceLinks(s) {
        if e in MergedLinks(s) {
          var t, u :| t in s.transitions && u in s.transitions && t.id == u.id && e.1 in Destinations(u)
              && t.from == e.0;
          SameTransition(s, t, u);
        }
        if e in PlaceLinks(s) {
          var t :| t in s.transitions && e.1 in Destinations(t) && t.from == e.0;
        }
      }
    }
  }

  lemma TransitionSearchesAgree(s: FlowSchema, t: TransitionDef)
    requires DistinctTransitions(s) && OneInbound(s) && t in s.transitions
    ensures OnForward(s, t.id) <==> FromInbound(s, t.from)
    ensures OnBackward(s, t.id) <==> LeadsToOutbound(s, t)
  {
    SearchesAgree(s);
    forall u | u in s.transitions && u.id == t.id ensures u == t {
      SameTransition(s, t, u);
    }
  }

  lemma AcceptsAgree(s: FlowSchema, place: PlaceId, tag: Tag)
    requires DistinctPlaces(s)
    ensures Accepts(s, place, tag) <==> place in PlaceMap(s.places) && tag in PlaceMap(s.places)[place].accepts
  {
    PlaceMapKeys(s.places);
    if Accepts(s, place, tag) {
      var p :| p in s.places && p.id == place && tag in p.accepts;
      SamePlace(s, p, PlaceMap(s.places)[place]);
    }
  }

  ghost predicate TokenError(e: ValidationError) {
    e.UnknownFrom? || e.UnknownTo? || e.ConsumesUnaccepted? || e.SendsUnaccepted? || e.IncompleteTransition?
  }

  lemma FittingHasNoTokenError(s: FlowSchema, t: TransitionDef, e: ValidationError)
    requires DistinctPlaces(s) && TokensFitIn(s, t) && TokenError(e)
    ensures !TransitionError(s, t, e)
  {
    PlaceMapKeys(s.places);
    match e
    case UnknownTo(_, tag, _) => if tag in t.to { AcceptsAgree(s, t.to[tag], tag); }
    case ConsumesUnaccepted(_, tag, _) => AcceptsAgree(s, t.from, tag);
    case SendsUnaccepted(_, tag, _) => if tag in t.to { AcceptsAgree(s, t.to[tag], tag); }
    case _ =>
  }

  lemma NoTokenErrorFits(s: FlowSchema, t: TransitionDef)
    requires DistinctPlaces(s) && forall e | TokenError(e) :: !TransitionError(s, t, e)
    ensures TokensFitIn(s, t)
  {
    PlaceMapKeys(s.places);
    assert !TransitionError(s, t, UnknownFrom(t.id, t.from));
    assert !TransitionError(s, t, IncompleteTransition(t.id));
    forall tag | tag in t.consumes ensures Accepts(s, t.from, tag) {
      assert !TransitionError(s, t, ConsumesUnaccepted(t.id, tag, t.from));
      AcceptsAgree(s, t.from, tag);
    }
    forall tag | tag in t.to ensures Accepts(s, t.to[tag], tag) {
      assert !TransitionError(s, t, UnknownTo(t.id, tag, t.to[tag]));
      assert !TransitionError(s, t, SendsUnaccepted(t.id, tag, t.to[tag]));
      AcceptsAgree(s, t.to[tag], tag);
    }
  }

  /** The unused-place check adds nothing: a place on a path touches a transition. */
  lemma OnPathIsUsed(s: FlowSchema, p: PlaceDef)
    requires DistinctPlaces(s) && p in s.places && FromInbound(s, p.id) && ToOutbound(s, p.id)
    ensures p.id in AdjacentPlaces(s)
  {
    var v :| Path(PlaceLinks(s), v) && v[0] in InboundIds(s) && v[|v| - 1] == p.id;
    var w :| Path(Reversed(PlaceLinks(s)), w) && w[0] in OutboundIds(s) && w[|w| - 1] == p.id;
    if |v| > 1 {
      assert (v[|v| - 2], v[|v| - 2 + 1]) in PlaceLinks(s);
    } else if |w| > 1 {
      assert (w[|w| - 2], w[|w| - 2 + 1]) in Reversed(PlaceLinks(s));
    } else {
      var a :| a in s.places && a.kind.Inbound? && a.id == p.id;
      var b :| b in s.places && b.kind.Outbound? && b.id == p.id;
      SamePlace(s, a, b);
    }
  }

  /** The connectivity check adds nothing: the directed check implies it. */
  lemma OnPathsIsConnected(s: FlowSchema)
    requires OneInbound(s) && TransitionsFromInbound(s)
    ensures Connected(s)
  {
    if s.transitions != [] {
      EndsAgree(s);
      EndsCount(s);
      var inbound := OfKind(s.places, Inbound);
      assert inbound == [inbound[0]] && InboundIds(s) == {inbound[0]};
      assert s.transitions[0] in s.transitions && FromInbound(s, s.transitions[0].from);
      UndirectedIsSymmetric(s);
      forall p | p in AdjacentPlaces(s) ensures Reaches(Undirected(s), {s.transitions[0].from}, p) {
        AdjacentFromInbound(s, p);
        JoinedThroughHub(s, inbound[0], s.transitions[0].from, p);
      }
    }
  }

  lemma JoinedThroughHub(s: FlowSchema, hub: PlaceId, p: PlaceId, q: PlaceId)
    requires Reaches(PlaceLinks(s), {hub}, p) && Reaches(PlaceLinks(s), {hub}, q)
    requires Reversed(Undirected(s)) == Undirected(s)
    ensures Reaches(Undirected(s), {p}, q)
  {
    ReachesMonotone(PlaceLinks(s), Undirected(s), {hub}, p);
    ReachesMonotone(PlaceLinks(s), Undirected(s), {hub}, q);
    ReachesThroughHub(Undirected(s), hub, p, q);
  }

  lemma UndirectedIsSymmetric(s: FlowSchema)
    ensures Reversed(Undirected(s)) == Undirected(s)
  {
    var links := PlaceLinks(s);
    forall e: Link ensures e in Reversed(Undirected(s)) <==> e in Undirected(s) {
      assert e in Reversed(Undirected(s)) <==> (e.1, e.0) in Undirected(s);
      assert e in Reversed(links) <==> (e.1, e.0) in links;
      assert (e.1, e.0) in Reversed(links) <==> e in links;
    }
  }

  lemma AdjacentFromInbound(s: FlowSchema, p: PlaceId)
    requires TransitionsFromInbound(s) && p in AdjacentPlaces(s)
    ensures FromInbound(s, p)
  {
    if t :| t in s.transitions && p in Destinations(t) {
      assert (t.from, p) in PlaceLinks(s) && FromInbound(s, t.from);
      ReachesNext(PlaceLinks(s), InboundIds(s), t.from, p);
    }
  }

  lemma OnPathHasNoError(s: FlowSchema, p: PlaceDef, e: ValidationError)
    requires DistinctPlaces(s) && DistinctTransitions(s) && OneInbound(s)
    requires p in s.places && FromInbound(s, p.id) && ToOutbound(s, p.id)
    requires e.UnusedPlace? || e.UnsoundPlace?
    ensures !PlaceError(s, p, e)
  {
    if e.UnusedPlace? {
      OnPathIsUsed(s, p);
    } else {
      SearchesAgree(s);
    }
  }

  lemma NoPathErrors(s: FlowSchema, e: ValidationError)
    requires DistinctPlaces(s) && DistinctTransitions(s) && OneInbound(s) && PlacesOnPaths(s)
    requires e.UnusedPlace? || e.UnsoundPlace?
    ensures !SomePlace(s, |s.places|, e)
  {
    if i :| 0 <= i < |s.places| && PlaceError(s, s.places[i], e) {
      assert s.places[i] in s.places;
      assert OnPath(s, s.places[i].id);
      OnPathHasNoError(s, s.places[i], e);
    }
  }

  lemma NoFeedErrors(s: FlowSchema, e: ValidationError)
    requires InboundFedFromInbound(s) && (e.InboundTagProduced? || e.Gap?)
    requires NoGaps(s)
    ensures !SomePlace(s, |s.places|, e)
  {
    if i :| 0 <= i < |s.places| && PlaceError(s, s.places[i], e) {
      assert s.places[i] in s.places;
      if e.InboundTagProduced? {
        var j :| 0 <= j < |s.transitions| && SendError(s.places[i], s.transitions[j], e);
        assert s.transitions[j] in s.transitions;
      }
    }
  }

  lemma NoTokenErrors(s: FlowSchema, e: ValidationError)
    requires DistinctPlaces(s) && TokensFit(s) && TokenError(e)
    ensures !SomeTransition(s, |s.transitions|, e)
  {
    if i :| 0 <= i < |s.transitions| && TransitionError(s, s.transitions[i], e) {
      assert s.transitions[i] in s.transitions;
      FittingHasNoTokenError(s, s.transitions[i], e);
    }
  }

  lemma NoDeadTransitions(s: FlowSchema, e: ValidationError)
    requires DistinctTransitions(s) && OneInbound(s) && TransitionsFromInbound(s) && TransitionsToOutbound(s)
    requires e.DeadTransition?
    ensures !SomeTransition(s, |s.transitions|, e)
  {
    if i :| 0 <= i < |s.transitions| && TransitionError(s, s.transitions[i], e) {
      assert s.transitions[i] in s.transitions;
      TransitionSearchesAgree(s, s.transitions[i]);
    }
  }

  ghost predicate EndError(e: ValidationError) {
    e.DuplicatePlaceIds? || e.DuplicateTransitionIds? || e.NoInbound? || e.MultipleInbound? || e.NoOutbound?
  }

  lemma NoEndErrors(s: FlowSchema, e: ValidationError)
    requires DistinctPlaces(s) && DistinctTransitions(s) && OneInbound(s) && SomeOutbound(s) && EndError(e)
    ensures !ErrorHolds(s, e)
  {
    EndsCount(s);
  }

  lemma WellFormedHasNoErrors(s: FlowSchema, e: ValidationError)
    requires WellFormed(s)
    ensures !ErrorHolds(s, e)
  {
    match e
    case UnusedPlace(_) => NoPathErrors(s, e);
    case UnsoundPlace(_) => NoPathErrors(s, e);
    case InboundTagProduced(_, _, _) => NoFeedErrors(s, e);
    case Gap(_, _) => NoFeedErrors(s, e);
    case DeadTransition(_) => NoDeadTransitions(s, e);
    case NotConnected => OnPathsIsConnected(s);
    case _ => if EndError(e) { NoEndErrors(s, e); } else { NoTokenErrors(s, e); }
  }

  lemma NoPlaceError(s: FlowSchema, p: PlaceDef, e: ValidationError)
    requires NoErrors(s) && p in s.places
    requires e.InboundTagProduced? || e.Gap? || (e.UnsoundPlace? && Searched(s))
    ensures !PlaceError(s, p, e)
  {
    var i :| 0 <= i < |s.places| && s.places[i] == p;
    assert !ErrorHolds(s, e) && (PlaceError(s, s.places[i], e) ==> SomePlace(s, |s.places|, e));
  }

  lemma NoTransitionError(s: FlowSchema, t: TransitionDef, e: ValidationError)
    requires NoErrors(s) && t in s.transitions
    requires TokenError(e) || (e.DeadTransition? && Searched(s))
    ensures !TransitionError(s, t, e)
  {
    var i :| 0 <= i < |s.transitions| && s.transitions[i] == t;
    assert !ErrorHolds(s, e) && (TransitionError(s, s.transitions[i], e) ==> SomeTransition(s, |s.transitions|, e));
  }

  lemma NoErrorsEnds(s: FlowSchema)
    requires NoErrors(s)
    ensures OneInbound(s) && SomeOutbound(s) && Searched(s)
  {
    EndsCount(s);
    assert !ErrorHolds(s, NoInbound) && !ErrorHolds(s, MultipleInbound) && !ErrorHolds(s, NoOutbound);
  }

  lemma NoErrorsDistinct(s: FlowSchema)
    requires NoErrors(s)
    ensures DistinctPlaces(s) && DistinctTransitions(s)
  {
    assert !ErrorHolds(s, DuplicatePlaceIds) && !ErrorHolds(s, DuplicateTransitionIds);
  }

  lemma NoErrorsFits(s: FlowSchema, t: TransitionDef)
    requires NoErrors(s) && DistinctPlaces(s) && t in s.transitions
    ensures TokensFitIn(s, t)
  {
    forall e | TokenError(e) ensures !TransitionError(s, t, e) {
      NoTransitionError(s, t, e);
    }
    NoTokenErrorFits(s, t);
  }

  lemma NoErrorsPlaceOnPath(s: FlowSchema, p: PlaceDef)
    requires NoErrors(s) && DistinctTransitions(s) && OneInbound(s) && Searched(s) && p in s.places
    ensures FromInbound(s, p.id) && ToOutbound(s, p.id)
  {
    NoPlaceError(s, p, UnsoundPlace(p.id));
    SearchesAgree(s);
  }

  lemma NoErrorsTransitionOnPath(s: FlowSchema, t: TransitionDef)
    requires NoErrors(s) && DistinctTransitions(s) && OneInbound(s) && Searched(s) && t in s.transitions
    ensures FromInbound(s, t.from) && LeadsToOutbound(s, t)
  {
    NoTransitionError(s, t, DeadTransition(t.id));
    TransitionSearchesAgree(s, t);
  }

  lemma NoErrorsFlow(s: FlowSchema)
    requires NoErrors(s)
    ensures InboundFedFromInbound(s) && NoGaps(s)
  {
    forall p, t, tag | p in s.places && p.kind.Inbound? && t in s.transitions && tag in t.to && tag in p.accepts
        ensures t.from == p.id
    {
      var e := InboundTagProduced(tag, p.id, t.id);
      NoPlaceError(s, p, e);
      var j :| 0 <= j < |s.transitions| && s.transitions[j] == t;
      assert !SendError(p, s.transitions[j], e);
    }
    forall p, tag | p in s.places && !p.kind.Inbound? && tag in p.accepts ensures Produced(s, p.id, tag) {
      NoPlaceError(s, p, Gap(tag, p.id));
    }
  }

  lemma NoErrorsOnPaths(s: FlowSchema)
    requires NoErrors(s) && DistinctTransitions(s) && OneInbound(s) && Searched(s)
    ensures OnPaths(s)
  {
    forall t | t in s.transitions ensures FromInbound(s, t.from) && LeadsToOutbound(s, t) {
      NoErrorsTransitionOnPath(s, t);
    }
    forall p | p in s.places ensures OnPath(s, p.id) {
      NoErrorsPlaceOnPath(s, p);
    }
  }

  lemma NoErrorsTokensFit(s: FlowSchema)
    requires NoErrors(s) && DistinctPlaces(s)
    ensures TokensFit(s)
  {
    forall t | t in s.transitions ensures TokensFitIn(s, t) {
      NoErrorsFits(s, t);
    }
  }

  lemma NoErrorsIsWellFormed(s: FlowSchema)
    requires NoErrors(s)
    ensures WellFormed(s)
  {
    NoErrorsEnds(s);
    NoErrorsDistinct(s);
    NoErrorsFlow(s);
    NoErrorsTokensFit(s);
    NoErrorsOnPaths(s);
  }

  lemma NoErrorsMeansWellFormed(s: FlowSchema)
    ensures NoErrors(s) <==> WellFormed(s)
  {
    if WellFormed(s) {
      forall e ensures !ErrorHolds(s, e) {
        WellFormedHasNoErrors(s, e);
      }
    } else if NoErrors(s) {
      NoErrorsIsWellFormed(s);
    }
  }
}
