/** The orders that insertion-ordered maps and sets give: of dependencies, dependents, roots, terminals and ready nodes
    (src/ai/node-flow/def.ts:36-82, src/ai/node-flow/aggregate.ts:92-107). */
module NodeFlowOrder {
  import opened NodeFlowDef
  import opened NodeFlowAggregate

  /** `x` occurs, and `y` occurs later. */
  ghost predicate Before<T(!new)>(whole: seq<T>, x: T, y: T) {
    exists a, b :: 0 <= a < b < |whole| && whole[a] == x && whole[b] == y
  }

  /** The elements of `part` come in the order in which they stand in `whole`. */
  ghost predicate InOrderOf<T(!new)>(part: seq<T>, whole: seq<T>) {
    forall i, j | 0 <= i < j < |part| :: Before(whole, part[i], part[j])
  }

  lemma InOrderOneMore<T(!new)>(part: seq<T>, whole: seq<T>, last: T)
    requires InOrderOf(part, whole) && forall x | x in part :: x in whole
    ensures InOrderOf(part, whole + [last]) && InOrderOf(part + [last], whole + [last])
  {
    var part', whole' := part + [last], whole + [last];
    forall i, j | 0 <= i < j < |part'| ensures Before(whole', part'[i], part'[j]) {
      if j < |part| {
        assert Before(whole, part[i], part[j]);
        var a, b :| 0 <= a < b < |whole| && whole[a] == part[i] && whole[b] == part[j];
        assert whole'[a] == part'[i] && whole'[b] == part'[j];
      } else {
        assert part[i] in whole;
        var a :| 0 <= a < |whole| && whole[a] == part[i];
        assert whole'[a] == part'[i] && whole'[|whole|] == part'[j];
      }
    }
    assert forall i | 0 <= i < |part| :: part'[i] == part[i];
  }

  /** Roots and terminals come in the order of the nodes. */
  lemma {:induction false} EmptyEntriesInOrder(nodes: seq<NodeId>, m: map<NodeId, seq<NodeId>>)
    requires forall n | n in nodes :: n in m
    ensures InOrderOf(EmptyEntries(nodes, m), nodes) && forall n | n in EmptyEntries(nodes, m) :: n in nodes
  {
    if nodes != [] {
      var front, last := nodes[..|nodes| - 1], nodes[|nodes| - 1];
      assert nodes == front + [last];
      EmptyEntriesInOrder(front, m);
      InOrderOneMore(EmptyEntries(front, m), front, last);
    }
  }

  lemma EndsInOrder(def: FlowDef)
    ensures InOrderOf(CompiledForm(def).rootNodes, def.nodes) && InOrderOf(CompiledForm(def).terminalNodes, def.nodes)
  {
    EmptyEntriesInOrder(def.nodes, Dependencies(def));
    EmptyEntriesInOrder(def.nodes, Dependents(def));
  }

  /** Ready nodes are fired in the order of the nodes. */
  lemma {:induction false} ReadyInOrder(st: NodeFlowState, compiled: CompiledFlow, nodes: seq<NodeId>)
    requires forall i | 0 <= i < |nodes| :: nodes[i] in compiled.dependencies
    ensures InOrderOf(ReadyNodes(st, compiled, nodes), nodes)
            && forall n | n in ReadyNodes(st, compiled, nodes) :: n in nodes
  {
    if nodes != [] {
      var front, last := nodes[..|nodes| - 1], nodes[|nodes| - 1];
      assert nodes == front + [last];
      ReadyInOrder(st, compiled, front);
      InOrderOneMore(ReadyNodes(st, compiled, front), front, last);
    }
  }

  // ---- Dependencies and dependents stand in the order of their first edge ----

  ghost predicate FirstAt(edges: seq<Edge>, e: Edge, a: nat) {
    a < |edges| && edges[a] == e && forall k | 0 <= k < a :: edges[k] != e
  }

  ghost predicate EdgeBefore(edges: seq<Edge>, e: Edge, f: Edge) {
    exists a, b :: a < b && FirstAt(edges, e, a) && FirstAt(edges, f, b)
  }

  ghost predicate ByFirstEdge(edges: seq<Edge>, found: seq<Edge>) {
    && (forall e | e in found :: e in edges)
    && forall i, j | 0 <= i < j < |found| :: EdgeBefore(edges, found[i], found[j])
  }

  lemma FirstStays(edges: seq<Edge>, last: Edge, e: Edge, a: nat)
    requires FirstAt(edges, e, a)
    ensures FirstAt(edges + [last], e, a)
  {
  }

  lemma {:induction false} HasFirst(edges: seq<Edge>, e: Edge) returns (a: nat)
    requires e in edges
    ensures FirstAt(edges, e, a)
  {
    var front, last := edges[..|edges| - 1], edges[|edges| - 1];
    assert edges == front + [last];
    if e in front {
      a := HasFirst(front, e);
      FirstStays(front, last, e, a);
    } else {
      a := |front|;
    }
  }

  lemma ByFirstEdgeStays(edges: seq<Edge>, last: Edge, found: seq<Edge>)
    requires ByFirstEdge(edges, found)
    ensures ByFirstEdge(edges + [last], found)
    ensures last !in edges ==> ByFirstEdge(edges + [last], found + [last])
  {
    var edges' := edges + [last];
    forall i, j | 0 <= i < j < |found| ensures EdgeBefore(edges', found[i], found[j]) {
      assert EdgeBefore(edges, found[i], found[j]);
      var a, b :| a < b && FirstAt(edges, found[i], a) && FirstAt(edges, found[j], b);
      FirstStays(edges, last, found[i], a);
      FirstStays(edges, last, found[j], b);
    }
    if last !in edges {
      assert FirstAt(edges', last, |edges|);
      forall i | 0 <= i < |found| ensures EdgeBefore(edges', found[i], last) {
        assert found[i] in edges;
        var a := HasFirst(edges, found[i]);
        FirstStays(edges, last, found[i], a);
      }
    }
  }

  function EdgesFrom(sources: seq<NodeId>, n: NodeId): seq<Edge> {
    seq(|sources|, i requires 0 <= i < |sources| => (sources[i], n))
  }

  function EdgesTo(n: NodeId, targets: seq<NodeId>): seq<Edge> {
    seq(|targets|, i requires 0 <= i < |targets| => (n, targets[i]))
  }

  lemma {:induction false} SourcesInOrder(edges: seq<Edge>, n: NodeId)
    ensures ByFirstEdge(edges, EdgesFrom(Sources(edges, n), n))
  {
    if edges != [] {
      var front, last := edges[..|edges| - 1], edges[|edges| - 1];
      assert edges == front + [last];
      SourcesInOrder(front, n);
      SourcesHold(front, n);
      ByFirstEdgeStays(front, last, EdgesFrom(Sources(front, n), n));
      if last.1 == n && last.0 !in Sources(front, n) {
        assert last == (last.0, n);
        assert EdgesFrom(Sources(front, n) + [last.0], n) == EdgesFrom(Sources(front, n), n) + [last];
      }
    }
  }

  lemma {:induction false} TargetsInOrder(edges: seq<Edge>, n: NodeId)
    ensures ByFirstEdge(edges, EdgesTo(n, Targets(edges, n)))
  {
    if edges != [] {
      var front, last := edges[..|edges| - 1], edges[|edges| - 1];
      assert edges == front + [last];
      TargetsInOrder(front, n);
      TargetsHold(front, n);
      ByFirstEdgeStays(front, last, EdgesTo(n, Targets(front, n)));
      if last.0 == n && last.1 !in Targets(front, n) {
        assert last == (n, last.1);
        assert EdgesTo(n, Targets(front, n) + [last.1]) == EdgesTo(n, Targets(front, n)) + [last];
      }
    }
  }

  /** In a compiled flow every dependency and dependent stands in the order of its first edge. */
  lemma NeighboursInOrder(def: FlowDef, n: NodeId)
    requires n in def.nodes
    ensures ByFirstEdge(def.edges, EdgesFrom(CompiledForm(def).dependencies[n], n))
    ensures ByFirstEdge(def.edges, EdgesTo(n, CompiledForm(def).dependents[n]))
  {
    SourcesInOrder(def.edges, n);
    TargetsInOrder(def.edges, n);
  }
}
