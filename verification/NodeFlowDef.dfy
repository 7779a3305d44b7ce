/** Compiling a node flow: dependency maps, three-colour cycle search, roots and terminals
    (src/ai/node-flow/def.ts). */
module NodeFlowDef {
  import opened Prelude

  // Node ids are only ever compared with each other, so numbers stand for the strings.
  type NodeId = nat
  type Edge = (NodeId, NodeId)
  type Context = map<string, Json>

  datatype Json = Null | Num(n: int) | Str(s: string) | Arr(items: seq<Json>) | Obj(fields: map<string, Json>)

  /** The keys of a Map in insertion order. */
  type NodeIds = s: seq<NodeId> | Distinct(s) witness []

  /** A flow definition; `skip` holds the nodes whose error policy is "skip". */
  datatype FlowDef = FlowDef(id: string, nodes: NodeIds, edges: seq<Edge>, skip: set<NodeId>, initialContext: Context)

  datatype CompiledFlow = CompiledFlow(
    def: FlowDef,
    rootNodes: seq<NodeId>,
    terminalNodes: seq<NodeId>,
    dependencies: map<NodeId, seq<NodeId>>,
    dependents: map<NodeId, seq<NodeId>>)

  datatype CompileError = UnknownFrom(id: NodeId) | UnknownTo(id: NodeId) | CycleDetected(path: seq<NodeId>)
      | NoRootNodes

  datatype CompileResult = Compiled(flow: CompiledFlow) | Rejected(error: CompileError)

  // ---- What a compiled flow is ----

  ghost predicate EndsKnown(def: FlowDef, edge: Edge) {
    edge.0 in def.nodes && edge.1 in def.nodes
  }

  ghost predicate EdgesKnown(def: FlowDef) {
    forall i | 0 <= i < |def.edges| :: EndsKnown(def, def.edges[i])
  }

  ghost predicate Walk(edges: seq<Edge>, p: seq<NodeId>) {
    forall i | 0 <= i < |p| - 1 :: (p[i], p[i + 1]) in edges
  }

  ghost predicate IsCycle(edges: seq<Edge>, p: seq<NodeId>) {
    |p| >= 2 && p[0] == p[|p| - 1] && Walk(edges, p)
  }

  ghost predicate Acyclic(edges: seq<Edge>) {
    forall p :: !IsCycle(edges, p)
  }

  /** A walk whose last node occurred before: a lead-in followed by a cycle. */
  ghost predicate IsLasso(edges: seq<Edge>, p: seq<NodeId>) {
    Walk(edges, p) && exists k :: 0 <= k < |p| - 1 && p[k] == p[|p| - 1]
  }

  /** A walk from `n` runs into a cycle. */
  ghost predicate IntoCycle(edges: seq<Edge>, n: NodeId) {
    exists p :: IsLasso(edges, p) && p[0] == n
  }

  /** `n` is the first of `nodes` that leads into a cycle. */
  ghost predicate FirstInto(edges: seq<Edge>, nodes: seq<NodeId>, n: NodeId) {
    IntoCycle(edges, n) && exists i :: 0 <= i < |nodes| && nodes[i] == n && forall j | 0 <= j < i ::
                                       !IntoCycle(edges, nodes[j])
  }

  /** From position `from` on the path goes to the first dependent that leads into a cycle. */
  ghost predicate GoesToFirst(edges: seq<Edge>, p: seq<NodeId>, from: nat) {
    forall i | from <= i < |p| - 1 :: FirstInto(edges, Targets(edges, p[i]), p[i + 1])
  }

  /** Only the last node repeats an earlier one. */
  ghost predicate ClosesOnce(p: seq<NodeId>) {
    && (forall i, j | 0 <= i < j < |p| - 1 :: p[i] != p[j])
    && exists k :: 0 <= k < |p| - 1 && p[k] == p[|p| - 1]
  }

  /** The path to report: from the first node that leads into a cycle always to the first dependent that does,
      until a node repeats. */
  ghost predicate Traces(def: FlowDef, p: seq<NodeId>) {
    ClosesOnce(p) && FirstInto(def.edges, def.nodes, p[0]) && GoesToFirst(def.edges, p, 0)
  }

  /** Sources of the edges into `n`, each once, in the order of first insertion. */
  function Sources(edges: seq<Edge>, n: NodeId): seq<NodeId> {
    if edges == [] then [] else
      var last, r := edges[|edges| - 1], Sources(edges[..|edges| - 1], n);
      if last.1 == n then SetAdd(r, last.0) else r
  }

  /** Targets of the edges out of `n`, each once, in the order of first insertion. */
  function Targets(edges: seq<Edge>, n: NodeId): seq<NodeId> {
    if edges == [] then [] else
      var last, r := edges[|edges| - 1], Targets(edges[..|edges| - 1], n);
      if last.0 == n then SetAdd(r, last.1) else r
  }

  lemma {:induction false} SourcesHold(edges: seq<Edge>, n: NodeId)
    ensures forall m :: m in Sources(edges, n) <==> (m, n) in edges
    ensures Distinct(Sources(edges, n))
  {
    if edges != [] {
      SourcesHold(edges[..|edges| - 1], n);
      assert edges == edges[..|edges| - 1] + [edges[|edges| - 1]];
    }
  }

  lemma {:induction false} TargetsHold(edges: seq<Edge>, n: NodeId)
    ensures forall m :: m in Targets(edges, n) <==> (n, m) in edges
    ensures Distinct(Targets(edges, n))
  {
    if edges != [] {
      TargetsHold(edges[..|edges| - 1], n);
      assert edges == edges[..|edges| - 1] + [edges[|edges| - 1]];
    }
  }

  /** Set.add on an insertion-ordered set. */
  function SetAdd(s: seq<NodeId>, x: NodeId): seq<NodeId> {
    if x in s then s else s + [x]
  }

  function Dependencies(def: FlowDef): map<NodeId, seq<NodeId>> {
    map n | n in def.nodes :: Sources(def.edges, n)
  }

  function Dependents(def: FlowDef): map<NodeId, seq<NodeId>> {
    map n | n in def.nodes :: Targets(def.edges, n)
  }

  /** The nodes with an empty entry in `m`, in order. */
  function EmptyEntries(nodes: seq<NodeId>, m: map<NodeId, seq<NodeId>>): seq<NodeId>
    requires forall n | n in nodes :: n in m
  {
    if nodes == [] then [] else
      var last, r := nodes[|nodes| - 1], EmptyEntries(nodes[..|nodes| - 1], m);
      if m[last] == [] then r + [last] else r
  }

  lemma {:induction false} EmptyEntryIff(nodes: seq<NodeId>, m: map<NodeId, seq<NodeId>>, n: NodeId)
    requires forall k | k in nodes :: k in m
    ensures n in EmptyEntries(nodes, m) <==> n in nodes && m[n] == []
  {
    if nodes != [] {
      EmptyEntryIff(nodes[..|nodes| - 1], m, n);
      assert nodes == nodes[..|nodes| - 1] + [nodes[|nodes| - 1]];
    }
  }

  lemma {:induction false} EmptyEntriesDistinct(nodes: seq<NodeId>, m: map<NodeId, seq<NodeId>>)
    requires forall n | n in nodes :: n in m
    requires Distinct(nodes)
    ensures Distinct(EmptyEntries(nodes, m))
  {
    if nodes != [] {
      EmptyEntriesDistinct(nodes[..|nodes| - 1], m);
      EmptyEntryIff(nodes[..|nodes| - 1], m, nodes[|nodes| - 1]);
    }
  }

  lemma EmptyEntriesHold(nodes: seq<NodeId>, m: map<NodeId, seq<NodeId>>)
    requires forall n | n in nodes :: n in m
    requires Distinct(nodes)
    ensures forall n :: n in EmptyEntries(nodes, m) <==> n in nodes && m[n] == []
    ensures Distinct(EmptyEntries(nodes, m))
  {
    EmptyEntriesDistinct(nodes, m);
    forall n ensures n in EmptyEntries(nodes, m) <==> n in nodes && m[n] == [] {
      EmptyEntryIff(nodes, m, n);
    }
  }

  /** The one compiled form of a definition. */
  function CompiledForm(def: FlowDef): CompiledFlow {
    CompiledFlow(def, EmptyEntries(def.nodes, Dependencies(def)), EmptyEntries(def.nodes, Dependents(def)),
                 Dependencies(def), Dependents(def))
  }

  /** The first edge with an unknown end. */
  ghost predicate FirstUnknown(def: FlowDef, i: nat) {
    i < |def.edges| && !EndsKnown(def, def.edges[i]) && forall j | 0 <= j < i :: EndsKnown(def, def.edges[j])
  }

  /** What each rejection tells; "no root nodes" is never the answer. */
  ghost predicate Justified(def: FlowDef, error: CompileError) {
    match error
    case UnknownFrom(id) => id !in def.nodes && exists i: nat :: FirstUnknown(def, i) && def.edges[i].0 == id
    case UnknownTo(id) => id !in def.nodes && exists i: nat ::
                          FirstUnknown(def, i) && def.edges[i].0 in def.nodes && def.edges[i].1 == id
    case CycleDetected(path) => EdgesKnown(def) && IsLasso(def.edges, path) && Traces(def, path)
    case NoRootNodes => false
  }

  ghost predicate UnknownEnd(def: FlowDef, error: CompileError) {
    Justified(def, error) && !error.CycleDetected?
  }

  // ---- Topological orders ----

  ghost predicate FinishedInOrder(def: FlowDef, finished: seq<NodeId>) {
    && Distinct(finished)
    && (forall i, m | 0 <= i < |finished| && (finished[i], m) in def.edges :: m in finished[..i])
  }

  /** Every node once, every edge from a later to an earlier position: DFS finishing order. */
  ghost predicate FinishOrder(def: FlowDef, order: seq<NodeId>) {
    FinishedInOrder(def, order) && forall n :: n in order <==> n in def.nodes
  }

  lemma {:induction false} WalkDescends(def: FlowDef, order: seq<NodeId>, p: seq<NodeId>, i: nat) returns (j: nat)
    requires FinishedInOrder(def, order)
    requires Walk(def.edges, p) && |p| >= 2 && i < |order| && p[0] == order[i]
    ensures j < i && p[|p| - 1] == order[j]
  {
    assert (order[i], p[1]) in def.edges;
    j :| 0 <= j < i && order[..i][j] == p[1];
    if |p| > 2 {
      var k := j;
      assert Walk(def.edges, p[1..]) by {
        forall t | 0 <= t < |p[1..]| - 1 ensures (p[1..][t], p[1..][t + 1]) in def.edges {
          assert (p[t + 1], p[t + 2]) in def.edges;
        }
      }
      j := WalkDescends(def, order, p[1..], k);
    }
  }

  lemma {:induction false} FinishOrderIsAcyclic(def: FlowDef, order: seq<NodeId>)
    requires FinishOrder(def, order) && EdgesKnown(def)
    ensures Acyclic(def.edges)
  {
    forall p ensures !IsCycle(def.edges, p) {
      if IsCycle(def.edges, p) {
        assert (p[0], p[1]) in def.edges;
        var i: nat :| i < |order| && order[i] == p[0];
        var j := WalkDescends(def, order, p, i);
      }
    }
  }

  /** Among more values than a set holds, one repeats. */
  lemma {:induction false} Pigeonhole(p: seq<NodeId>, s: set<NodeId>) returns (i: nat, j: nat)
    requires |p| > |s| && forall k | 0 <= k < |p| :: p[k] in s
    ensures i < j < |p| && p[i] == p[j]
  {
    var last := |p| - 1;
    if k :| 0 <= k < last && p[k] == p[last] {
      i, j := k, last;
    } else {
      i, j := Pigeonhole(p[..last], s - {p[last]});
    }
  }

  lemma WalkExtends(edges: seq<Edge>, stack: seq<NodeId>, id: NodeId)
    requires Walk(edges, stack) && (stack != [] ==> (stack[|stack| - 1], id) in edges)
    ensures Walk(edges, stack + [id])
  {
    var p := stack + [id];
    forall i | 0 <= i < |p| - 1 ensures (p[i], p[i + 1]) in edges {
      if i < |stack| - 1 {
        assert (stack[i], stack[i + 1]) in edges;
      }
    }
  }

  ghost predicate LeadsInto(edges: seq<Edge>, n: NodeId, s: set<NodeId>) {
    exists m :: m in s && (n, m) in edges
  }

  /** A set every node of which has an edge into the set holds walks of every length. */
  lemma {:induction false} EndlessWalk(edges: seq<Edge>, s: set<NodeId>, p: seq<NodeId>, length: nat)
      returns (q: seq<NodeId>)
    requires forall n | n in s :: LeadsInto(edges, n, s)
    requires p != [] && Walk(edges, p) && forall k | 0 <= k < |p| :: p[k] in s
    ensures |q| == |p| + length && Walk(edges, q) && forall k | 0 <= k < |q| :: q[k] in s
    decreases length
  {
    if length == 0 {
      q := p;
    } else {
      assert LeadsInto(edges, p[|p| - 1], s);
      var m :| m in s && (p[|p| - 1], m) in edges;
      WalkExtends(edges, p, m);
      q := EndlessWalk(edges, s, p + [m], length - 1);
    }
  }

  lemma RepeatClosesCycle(edges: seq<Edge>, p: seq<NodeId>, i: nat, j: nat)
    requires Walk(edges, p) && i < j < |p| && p[i] == p[j]
    ensures IsCycle(edges, p[i..j + 1])
  {
    var q := p[i..j + 1];
    forall k | 0 <= k < |q| - 1 ensures (q[k], q[k + 1]) in edges {
      assert (p[i + k], p[i + k + 1]) in edges;
    }
  }

  lemma {:induction false} AcyclicHasSink(edges: seq<Edge>, s: set<NodeId>) returns (sink: NodeId)
    requires Acyclic(edges) && s != {}
    ensures sink in s && !LeadsInto(edges, sink, s)
  {
    sink :| sink in s;
    if forall n | n in s :: LeadsInto(edges, n, s) {
      var p := EndlessWalk(edges, s, [sink], |s|);
      var i, j := Pigeonhole(p, s);
      RepeatClosesCycle(edges, p, i, j);
      assert false;
    } else {
      sink :| sink in s && !LeadsInto(edges, sink, s);
    }
  }

  lemma {:induction false} TakeSinks(def: FlowDef, order: seq<NodeId>, rest: set<NodeId>) returns (full: seq<NodeId>)
    requires EdgesKnown(def) && Acyclic(def.edges) && FinishedInOrder(def, order)
    requires forall n :: n in def.nodes <==> n in order || n in rest
    requires forall n | n in order :: n !in rest
    ensures FinishOrder(def, full)
    decreases rest
  {
    if rest == {} {
      full := order;
    } else {
      var sink := AcyclicHasSink(def.edges, rest);
      var next := order + [sink];
      forall i, m | 0 <= i < |next| && (next[i], m) in def.edges ensures m in next[..i] {
        if i < |order| {
          assert next[..i] == order[..i];
        } else {
          assert next[..i] == order;
          var k :| 0 <= k < |def.edges| && def.edges[k] == (next[i], m);
        }
      }
      full := TakeSinks(def, next, rest - {sink});
    }
  }

  /** A finishing order exists exactly for the acyclic graphs. */
  lemma AcyclicHasFinishOrder(def: FlowDef) returns (order: seq<NodeId>)
    requires EdgesKnown(def) && Acyclic(def.edges)
    ensures FinishOrder(def, order)
  {
    order := TakeSinks(def, [], SetOf(def.nodes));
  }

  lemma WalkPart(edges: seq<Edge>, p: seq<NodeId>, i: nat, j: nat)
    requires Walk(edges, p) && i <= j <= |p|
    ensures Walk(edges, p[i..j])
  {
    var q := p[i..j];
    forall k | 0 <= k < |q| - 1 ensures (q[k], q[k + 1]) in edges {
      assert (p[i + k], p[i + k + 1]) in edges;
    }
  }

  /** A finished node leads into no cycle. */
  lemma FinishedLeadsNowhere(def: FlowDef, finished: seq<NodeId>, n: NodeId)
    requires FinishedInOrder(def, finished) && n in finished
    ensures !IntoCycle(def.edges, n)
  {
    if IntoCycle(def.edges, n) {
      var p :| IsLasso(def.edges, p) && p[0] == n;
      var k :| 0 <= k < |p| - 1 && p[k] == p[|p| - 1];
      var i: nat :| i < |finished| && finished[i] == n;
      if k > 0 {
        WalkPart(def.edges, p, 0, k + 1);
        i := WalkDescends(def, finished, p[..k + 1], i);
      }
      WalkPart(def.edges, p, k, |p|);
      var j := WalkDescends(def, finished, p[k..], i);
      assert false;
    }
  }

  /** Every node of a lasso leads into its cycle. */
  lemma OnLasso(edges: seq<Edge>, p: seq<NodeId>, i: nat)
    requires IsLasso(edges, p) && i < |p|
    ensures IntoCycle(edges, p[i])
  {
    var k :| 0 <= k < |p| - 1 && p[k] == p[|p| - 1];
    var q := p[i..] + p[k + 1..];
    forall t | 0 <= t < |q| - 1 ensures (q[t], q[t + 1]) in edges {
      if t < |p| - i - 1 {
        assert (p[i + t], p[i + t + 1]) in edges;
      } else {
        var u := t - (|p| - i) + k + 1;
        assert q[t] == p[u] && q[t + 1] == p[u + 1] && (p[u], p[u + 1]) in edges;
      }
    }
    assert q[|p| - 1 - i] == q[|q| - 1];
    assert IsLasso(edges, q) && q[0] == p[i];
  }

  /** Of two paths that both go to the first dependent, one starts like the other. */
  lemma {:induction false} TracesMatch(def: FlowDef, p: seq<NodeId>, q: seq<NodeId>, i: nat)
    requires Traces(def, p) && Traces(def, q) && i < |p| && i < |q|
    ensures p[i] == q[i]
  {
    if i > 0 {
      TracesMatch(def, p, q, i - 1);
      assert FirstInto(def.edges, Targets(def.edges, p[i - 1]), p[i]);
      assert FirstInto(def.edges, Targets(def.edges, q[i - 1]), q[i]);
    }
  }

  lemma ClosesAt(p: seq<NodeId>, q: seq<NodeId>)
    requires ClosesOnce(p) && ClosesOnce(q) && forall i | 0 <= i < |p| && i < |q| :: p[i] == q[i]
    ensures |q| <= |p|
  {
    var k :| 0 <= k < |p| - 1 && p[k] == p[|p| - 1];
    if |p| < |q| {
      assert false;
    }
  }

  /** There is one path to report. */
  lemma TraceIsUnique(def: FlowDef, p: seq<NodeId>, q: seq<NodeId>)
    requires Traces(def, p) && Traces(def, q)
    ensures p == q
  {
    forall i | 0 <= i < |p| && i < |q| ensures p[i] == q[i] {
      TracesMatch(def, p, q, i);
    }
    ClosesAt(p, q);
    ClosesAt(q, p);
  }

  /** The definition determines the error. */
  lemma RejectionIsDetermined(def: FlowDef, a: CompileError, b: CompileError)
    requires Justified(def, a) && Justified(def, b)
    ensures a == b
  {
    if a.CycleDetected? && b.CycleDetected? {
      TraceIsUnique(def, a.path, b.path);
    } else {
      var i: nat, j: nat :| FirstUnknown(def, i) && FirstUnknown(def, j);
    }
  }

  /** The cycle is what the reported path holds from one position on, and it is simple; the path is that cycle itself
      exactly when it returns to its own start. */
  lemma ReportedCycle(def: FlowDef, p: seq<NodeId>) returns (k: nat)
    requires IsLasso(def.edges, p) && Traces(def, p)
    ensures k < |p| - 1 && IsCycle(def.edges, p[k..]) && ClosesOnce(p[k..])
    ensures forall j | 0 <= j < |p| - 1 :: IsCycle(def.edges, p[j..]) <==> j == k
    ensures IsCycle(def.edges, p) <==> p[0] == p[|p| - 1]
  {
    k :| 0 <= k < |p| - 1 && p[k] == p[|p| - 1];
    RepeatClosesCycle(def.edges, p, k, |p| - 1);
    assert p[k..|p| - 1 + 1] == p[k..];
    assert p[k..][0] == p[k..][|p[k..]| - 1];
    forall j | 0 <= j < |p| - 1 ensures IsCycle(def.edges, p[j..]) <==> j == k {
      assert p[j..][0] == p[j] && p[j..][|p[j..]| - 1] == p[|p| - 1];
    }
    assert p[0..] == p;
  }

  /** Every cycle that can be reached from `n` goes through `n`. */
  ghost predicate CyclesReturnTo(edges: seq<Edge>, n: NodeId) {
    forall p, k | Walk(edges, p) && 0 <= k < |p| - 1 && p[0] == n && p[k] == p[|p| - 1] :: n in p[k..]
  }

  /** Without reading the search: the path is a cycle when all cycles behind its start go through the start, and only
      when the start lies on some cycle. */
  lemma CycleIsReportedWhen(def: FlowDef, p: seq<NodeId>)
    requires IsLasso(def.edges, p) && Traces(def, p)
    ensures FirstInto(def.edges, def.nodes, p[0])
    ensures CyclesReturnTo(def.edges, p[0]) ==> IsCycle(def.edges, p)
    ensures IsCycle(def.edges, p) ==> exists q :: IsCycle(def.edges, q) && q[0] == p[0]
  {
    if CyclesReturnTo(def.edges, p[0]) {
      var k := ReportedCycle(def, p);
      assert p[k] == p[k..][0] && p[|p| - 1] == p[k..][|p[k..]| - 1];
      var j :| 0 <= j < |p[k..]| && p[k..][j] == p[0];
      assert p[k + j] == p[0];
    }
  }

  /** Edges 0 -> 1 and 1 -> 1. */
  function LeadInFlow(): FlowDef {
    var nodes: NodeIds := [0, 1];
    FlowDef("f", nodes, [(0, 1), (1, 1)], {}, map[])
  }

  /** Here the reported path is 0, 1, 1: it is no cycle, since 0 lies on none. */
  lemma LeadInIsReported(error: CompileError)
    requires Justified(LeadInFlow(), error)
    ensures error == CycleDetected([0, 1, 1]) && !IsCycle(LeadInFlow().edges, [0, 1, 1])
  {
    var def := LeadInFlow();
    var p: seq<NodeId> := [0, 1, 1];
    assert p[1] == p[|p| - 1];
    forall i | 0 <= i < |p| - 1 ensures (p[i], p[i + 1]) in def.edges {
      assert (p[i], p[i + 1]) == def.edges[i];
    }
    OnLasso(def.edges, p, 0);
    OnLasso(def.edges, p, 1);
    TargetsHold(def.edges, 0);
    TargetsHold(def.edges, 1);
    forall i | 0 <= i < |p| - 1 ensures FirstInto(def.edges, Targets(def.edges, p[i]), p[i + 1]) {
      OnlyTarget(def.edges, p[i], 1);
    }
    assert def.nodes[0] == p[0];
    RejectionIsDetermined(def, error, CycleDetected(p));
  }

  lemma OnlyTarget(edges: seq<Edge>, n: NodeId, m: NodeId)
    requires IntoCycle(edges, m) && (n, m) in edges && forall k | (n, k) in edges :: k == m
    ensures FirstInto(edges, Targets(edges, n), m)
  {
    TargetsHold(edges, n);
    var i :| 0 <= i < |Targets(edges, n)| && Targets(edges, n)[i] == m;
    assert forall j | 0 <= j < i :: Targets(edges, n)[j] in Targets(edges, n);
  }

  lemma {:induction false} LassoHoldsCycle(edges: seq<Edge>, p: seq<NodeId>)
    requires IsLasso(edges, p)
    ensures !Acyclic(edges)
  {
    var k :| 0 <= k < |p| - 1 && p[k] == p[|p| - 1];
    RepeatClosesCycle(edges, p, k, |p| - 1);
  }

  lemma {:induction false} LastFinishedIsRoot(def: FlowDef, order: seq<NodeId>)
    requires FinishOrder(def, order) && EdgesKnown(def) && def.nodes != []
    ensures CompiledForm(def).rootNodes != []
  {
    assert def.nodes[0] in order;
    var last := order[|order| - 1];
    forall m ensures (m, last) !in def.edges {
      if m in order {
        var i :| 0 <= i < |order| && order[i] == m;
        assert last !in order[..i];
      }
    }
    SourcesHold(def.edges, last);
    FirstIsIn(Sources(def.edges, last));
    EmptyEntriesHold(def.nodes, Dependencies(def));
    assert last in CompiledForm(def).rootNodes;
  }

  // ---- The cycle search ----

  datatype Color = White | Gray | Black

  /** Gray nodes are the stack, a walk; black nodes are finished, each after everything it leads to. */
  ghost predicate SearchInvariant(def: FlowDef, color: map<NodeId, Color>, finished: seq<NodeId>, stack: seq<NodeId>) {
    && (forall n :: n in color <==> n in def.nodes)
    && (forall n | n in color :: color[n] == Gray <==> n in stack)
    && (forall n | n in color :: color[n] == Black <==> n in finished)
    && (forall n | n in stack :: n in color)
    && (forall n | n in finished :: n in color)
    && Walk(def.edges, stack) && Distinct(stack)
    && FinishedInOrder(def, finished)
  }

  function Whites(color: map<NodeId, Color>): set<NodeId> {
    set n | n in color && color[n] == White
  }

  lemma ReturnToStack(edges: seq<Edge>, stack: seq<NodeId>, id: NodeId)
    requires Walk(edges, stack) && (stack != [] ==> (stack[|stack| - 1], id) in edges) && id in stack
    requires Distinct(stack)
    ensures Closed(edges, stack + [id], stack + [id])
  {
    WalkExtends(edges, stack, id);
    var k :| 0 <= k < |stack| && stack[k] == id;
    assert (stack + [id])[k] == id;
  }

  /** A lasso that continues the stack, from the top of the stack on always to the first dependent that leads into a
      cycle. */
  ghost predicate Closed(edges: seq<Edge>, stack: seq<NodeId>, p: seq<NodeId>)
    requires stack != []
  {
    IsLasso(edges, p) && ClosesOnce(p) && stack <= p && GoesToFirst(edges, p, |stack| - 1)
  }

  lemma ClosedBelow(edges: seq<Edge>, stack: seq<NodeId>, targets: seq<NodeId>, i: nat, p: seq<NodeId>)
    requires stack != [] && targets == Targets(edges, stack[|stack| - 1]) && i < |targets|
    requires Closed(edges, stack + [targets[i]], p) && forall k | 0 <= k < i :: !IntoCycle(edges, targets[k])
    ensures Closed(edges, stack, p)
  {
    var top := |stack| - 1;
    assert p[top] == (stack + [targets[i]])[top] && p[top + 1] == (stack + [targets[i]])[top + 1];
    OnLasso(edges, p, top + 1);
    assert FirstInto(edges, Targets(edges, p[top]), p[top + 1]);
  }

  lemma StartsFirst(def: FlowDef, i: nat, p: seq<NodeId>)
    requires i < |def.nodes| && Closed(def.edges, [def.nodes[i]], p)
    requires forall k | 0 <= k < i :: !IntoCycle(def.edges, def.nodes[k])
    ensures Traces(def, p)
  {
    assert p[0] == [def.nodes[i]][0];
    OnLasso(def.edges, p, 0);
  }

  lemma EnterNode(def: FlowDef, color: map<NodeId, Color>, finished: seq<NodeId>, stack: seq<NodeId>, id: NodeId)
    requires SearchInvariant(def, color, finished, stack) && id in color && color[id] == White
    requires stack != [] ==> (stack[|stack| - 1], id) in def.edges
    ensures SearchInvariant(def, color[id := Gray], finished, stack + [id])
    ensures Whites(color[id := Gray]) < Whites(color)
  {
    assert id in Whites(color) && id !in Whites(color[id := Gray]);
    WalkExtends(def.edges, stack, id);
  }

  lemma LeaveNode(def: FlowDef, color: map<NodeId, Color>, finished: seq<NodeId>, stack: seq<NodeId>, id: NodeId)
    requires SearchInvariant(def, color, finished, stack + [id]) && id !in stack
    requires forall m | (id, m) in def.edges :: m in finished
    ensures SearchInvariant(def, color[id := Black], finished + [id], stack)
  {
    assert id in stack + [id] && id !in finished;
    var finished' := finished + [id];
    assert FinishedInOrder(def, finished') by {
      forall i, m | 0 <= i < |finished'| && (finished'[i], m) in def.edges ensures m in finished'[..i] {
        if i < |finished| {
          assert finished'[..i] == finished[..i];
        } else {
          assert finished'[..i] == finished;
        }
      }
    }
    assert Distinct(stack) by {
      assert forall i | 0 <= i < |stack| :: (stack + [id])[i] == stack[i];
    }
    assert Walk(def.edges, stack) by {
      forall i | 0 <= i < |stack| - 1 ensures (stack[i], stack[i + 1]) in def.edges {
        var p := stack + [id];
        assert (p[i], p[i + 1]) in def.edges;
      }
    }
    forall n | n in color ensures color[id := Black][n] == Gray <==> n in stack {
      assert n in stack + [id] <==> n in stack || n == id;
    }
  }

  lemma TargetKnown(def: FlowDef, id: NodeId, i: nat)
    requires EdgesKnown(def) && i < |Targets(def.edges, id)|
    ensures (id, Targets(def.edges, id)[i]) in def.edges && Targets(def.edges, id)[i] in def.nodes
  {
    TargetsHold(def.edges, id);
    assert Targets(def.edges, id)[i] in Targets(def.edges, id);
  }

  /** The `color` map captured by the recursive `visit`. */
  class CycleSearch {
    const def: FlowDef
    const dependents: map<NodeId, seq<NodeId>>
    var color: map<NodeId, Color>
    ghost var finished: seq<NodeId>

    constructor (def: FlowDef)
      requires EdgesKnown(def)
      ensures Valid([]) && this.def == def && finished == []
    {
      this.def := def;
      dependents := Dependents(def);
      color := map n | n in def.nodes :: White;
      finished := [];
    }

    ghost predicate Valid(stack: seq<NodeId>)
      reads this
    {
      EdgesKnown(def) && dependents == Dependents(def) && SearchInvariant(def, color, finished, stack)
    }

    /** Colours everything reachable from `id` black, or returns the stack that closes a cycle. */
    method Visit(id: NodeId, stack: seq<NodeId>) returns (closed: Option<seq<NodeId>>)
      requires Valid(stack) && id in def.nodes
      requires stack != [] ==> (stack[|stack| - 1], id) in def.edges
      modifies this
      ensures closed.Some? ==> Closed(def.edges, stack + [id], closed.value)
      ensures closed.None? ==> Valid(stack) && id in finished && Whites(color) <= old(Whites(color))
      ensures closed.None? ==> forall n :: n in old(finished) ==> n in finished
      decreases Whites(color), 0
    {
      if color[id] == Gray {
        ReturnToStack(def.edges, stack, id);
        return Some(stack + [id]);
      }
      if color[id] == Black {
        return None;
      }
      EnterNode(def, color, finished, stack, id);
      color := color[id := Gray];
      closed := VisitDependents(id, stack + [id]);
      if closed.None? {
        LeaveNode(def, color, finished, stack, id);
        color := color[id := Black];
        finished := finished + [id];
      }
    }

    method VisitDependents(id: NodeId, stack: seq<NodeId>) returns (closed: Option<seq<NodeId>>)
      requires Valid(stack) && id in def.nodes && stack != [] && stack[|stack| - 1] == id
      modifies this
      ensures closed.Some? ==> Closed(def.edges, stack, closed.value)
      ensures closed.None? ==> Valid(stack) && Whites(color) <= old(Whites(color))
      ensures closed.None? ==> forall n :: n in old(finished) ==> n in finished
      ensures closed.None? ==> forall m | (id, m) in def.edges :: m in finished
      decreases Whites(color), 1
    {
      var i := 0;
      while i < |dependents[id]|
        invariant 0 <= i <= |dependents[id]|
        invariant Valid(stack)
        invariant Whites(color) <= old(Whites(color))
        invariant forall n :: n in old(finished) ==> n in finished
        invariant forall k | 0 <= k < i :: dependents[id][k] in finished
      {
        var next := dependents[id][i];
        TargetKnown(def, id, i);
        forall k | 0 <= k < i ensures !IntoCycle(def.edges, dependents[id][k]) {
          FinishedLeadsNowhere(def, finished, dependents[id][k]);
        }
        closed := Visit(next, stack);
        if closed.Some? {
          ClosedBelow(def.edges, stack, dependents[id], i, closed.value);
          return;
        }
        i := i + 1;
      }
      TargetsHold(def.edges, id);
      closed := None;
    }
  }

  // ---- compile ----

  /** Both maps hold exactly the first `i` edges. */
  ghost predicate Linked(def: FlowDef, i: nat, dependencies: map<NodeId, seq<NodeId>>,
                         dependents: map<NodeId, seq<NodeId>>)
    requires i <= |def.edges|
  {
    && (forall n :: n in dependencies <==> n in def.nodes)
    && (forall n :: n in dependents <==> n in def.nodes)
    && (forall n | n in def.nodes :: dependencies[n] == Sources(def.edges[..i], n))
    && (forall n | n in def.nodes :: dependents[n] == Targets(def.edges[..i], n))
  }

  lemma LinkEdge(def: FlowDef, i: nat, dependencies: map<NodeId, seq<NodeId>>, dependents: map<NodeId, seq<NodeId>>)
    requires i < |def.edges| && Linked(def, i, dependencies, dependents)
    requires def.edges[i].0 in def.nodes && def.edges[i].1 in def.nodes
    ensures var (from, to) := def.edges[i];
            Linked(def, i + 1, dependencies[to := SetAdd(dependencies[to], from)],
                   dependents[from := SetAdd(dependents[from], to)])
  {
    assert def.edges[..i + 1][..i] == def.edges[..i];
  }

  lemma AllLinked(def: FlowDef, dependencies: map<NodeId, seq<NodeId>>, dependents: map<NodeId, seq<NodeId>>)
    requires Linked(def, |def.edges|, dependencies, dependents)
    ensures dependencies == Dependencies(def) && dependents == Dependents(def)
  {
    assert def.edges[..|def.edges|] == def.edges;
  }

  /** Fills the two maps edge by edge; the error is the first edge with an unknown end. */
  method LinkNodes(def: FlowDef)
    returns (error: Option<CompileError>, dependencies: map<NodeId, seq<NodeId>>, dependents: map<NodeId, seq<NodeId>>)
    ensures error.None? ==> EdgesKnown(def) && dependencies == Dependencies(def) && dependents == Dependents(def)
    ensures error.Some? ==> UnknownEnd(def, error.value)
  {
    dependencies := map n | n in def.nodes :: [];
    dependents := map n | n in def.nodes :: [];
    var i := 0;
    while i < |def.edges|
      invariant 0 <= i <= |def.edges|
      invariant forall k | 0 <= k < i :: EndsKnown(def, def.edges[k])
      invariant Linked(def, i, dependencies, dependents)
    {
      var (from, to) := def.edges[i];
      assert from !in def.nodes || to !in def.nodes ==> FirstUnknown(def, i);
      if from !in def.nodes {
        return Some(UnknownFrom(from)), dependencies, dependents;
      }
      if to !in def.nodes {
        return Some(UnknownTo(to)), dependencies, dependents;
      }
      LinkEdge(def, i, dependencies, dependents);
      dependencies := dependencies[to := SetAdd(dependencies[to], from)];
      dependents := dependents[from := SetAdd(dependents[from], to)];
      i := i + 1;
    }
    AllLinked(def, dependencies, dependents);
    error := None;
  }

  /** Visits every white node; without a closed stack the finishing order is topological. */
  method SearchCycles(def: FlowDef) returns (closed: Option<seq<NodeId>>, ghost order: seq<NodeId>)
    requires EdgesKnown(def)
    ensures closed.Some? ==> IsLasso(def.edges, closed.value) && Traces(def, closed.value)
    ensures closed.None? ==> FinishOrder(def, order)
  {
    order := [];
    var search := new CycleSearch(def);
    var i := 0;
    while i < |def.nodes|
      invariant 0 <= i <= |def.nodes|
      invariant search.def == def && search.Valid([])
      invariant forall k | 0 <= k < i :: def.nodes[k] in search.finished
    {
      if search.color[def.nodes[i]] == White {
        forall k | 0 <= k < i ensures !IntoCycle(def.edges, def.nodes[k]) {
          FinishedLeadsNowhere(def, search.finished, def.nodes[k]);
        }
        closed := search.Visit(def.nodes[i], []);
        if closed.Some? {
          StartsFirst(def, i, closed.value);
          return;
        }
      }
      i := i + 1;
    }
    closed, order := None, search.finished;
  }

  /** Collects the nodes without dependencies and those without dependents. */
  method EndNodes(def: FlowDef, dependencies: map<NodeId, seq<NodeId>>, dependents: map<NodeId, seq<NodeId>>)
    returns (rootNodes: seq<NodeId>, terminalNodes: seq<NodeId>)
    requires forall n | n in def.nodes :: n in dependencies && n in dependents
    ensures rootNodes == EmptyEntries(def.nodes, dependencies)
    ensures terminalNodes == EmptyEntries(def.nodes, dependents)
  {
    rootNodes, terminalNodes := [], [];
    var i := 0;
    while i < |def.nodes|
      invariant 0 <= i <= |def.nodes|
      invariant rootNodes == EmptyEntries(def.nodes[..i], dependencies)
      invariant terminalNodes == EmptyEntries(def.nodes[..i], dependents)
    {
      assert def.nodes[..i + 1][..i] == def.nodes[..i];
      if dependencies[def.nodes[i]] == [] {
        rootNodes := rootNodes + [def.nodes[i]];
      }
      if dependents[def.nodes[i]] == [] {
        terminalNodes := terminalNodes + [def.nodes[i]];
      }
      i := i + 1;
    }
    assert def.nodes[..i] == def.nodes;
  }

  /** Accepts exactly the definitions whose edges are known and whose graph has no directed cycle. */
  method Compile(def: FlowDef) returns (r: CompileResult, ghost order: seq<NodeId>)
    ensures r.Compiled? <==> EdgesKnown(def) && Acyclic(def.edges)
    ensures r.Compiled? ==> r.flow == CompiledForm(def) && FinishOrder(def, order)
    ensures r.Rejected? ==> Justified(def, r.error)
  {
    order := [];
    var error, dependencies, dependents := LinkNodes(def);
    if error.Some? {
      return Rejected(error.value), order;
    }
    var closed;
    closed, order := SearchCycles(def);
    if closed.Some? {
      LassoHoldsCycle(def.edges, closed.value);
      return Rejected(CycleDetected(closed.value)), order;
    }
    FinishOrderIsAcyclic(def, order);
    var rootNodes, terminalNodes := EndNodes(def, dependencies, dependents);
    if |def.nodes| > 0 {
      LastFinishedIsRoot(def, order);
    }
    if |def.nodes| > 0 && |rootNodes| == 0 {
      return Rejected(NoRootNodes), order;
    }
    r := Compiled(CompiledFlow(def, rootNodes, terminalNodes, dependencies, dependents));
  }
}
