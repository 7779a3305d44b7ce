/** Worklist reachability: the three breadth-first searches of flow validation
    (src/petrinet/flow-schema.ts:175-190, 209-225, 239-255). */
module Reachability {
  import opened Prelude

  // Ids are only ever compared with each other, so numbers stand for the strings.
  type Id = nat
  type Link = (Id, Id)

  ghost predicate Path(links: set<Link>, p: seq<Id>) {
    p != [] && forall i | 0 <= i < |p| - 1 :: (p[i], p[i + 1]) in links
  }

  /** A path along `links` leads from one of `starts` to `q`. */
  ghost predicate Reaches(links: set<Link>, starts: set<Id>, q: Id) {
    exists p :: Path(links, p) && p[0] in starts && p[|p| - 1] == q
  }

  lemma ReachesStart(links: set<Link>, starts: set<Id>, q: Id)
    requires q in starts
    ensures Reaches(links, starts, q)
  {
    assert Path(links, [q]) && [q][0] in starts && [q][|[q]| - 1] == q;
  }

  lemma ReachesNext(links: set<Link>, starts: set<Id>, p: Id, q: Id)
    requires Reaches(links, starts, p) && (p, q) in links
    ensures Reaches(links, starts, q)
  {
    var w :| Path(links, w) && w[0] in starts && w[|w| - 1] == p;
    var w' := w + [q];
    forall i | 0 <= i < |w'| - 1 ensures (w'[i], w'[i + 1]) in links {
      if i < |w| - 1 {
        assert (w[i], w[i + 1]) in links;
      }
    }
    assert Path(links, w') && w'[0] in starts && w'[|w'| - 1] == q;
  }

  function Reversed(links: set<Link>): set<Link> {
    set e | e in links :: (e.1, e.0)
  }

  lemma {:induction false} ReachesAlong(links: set<Link>, starts: set<Id>, p: seq<Id>, i: nat)
    requires Path(links, p) && i < |p| && Reaches(links, starts, p[0])
    ensures Reaches(links, starts, p[i])
  {
    if i > 0 {
      ReachesAlong(links, starts, p, i - 1);
      ReachesNext(links, starts, p[i - 1], p[i]);
    }
  }

  lemma {:induction false} ReachesBack(links: set<Link>, p: seq<Id>, i: nat)
    requires Path(links, p) && i < |p|
    ensures Reaches(Reversed(links), {p[|p| - 1]}, p[i])
    decreases |p| - i
  {
    if i == |p| - 1 {
      ReachesStart(Reversed(links), {p[i]}, p[i]);
    } else {
      ReachesBack(links, p, i + 1);
      assert (p[i], p[i + 1]) in links;
      ReachesNext(Reversed(links), {p[|p| - 1]}, p[i + 1], p[i]);
    }
  }

  /** In a symmetric graph everything reachable from a hub is reachable from everything reachable. */
  lemma ReachesThroughHub(links: set<Link>, hub: Id, a: Id, b: Id)
    requires Reversed(links) == links && Reaches(links, {hub}, a) && Reaches(links, {hub}, b)
    ensures Reaches(links, {a}, b)
  {
    var p :| Path(links, p) && p[0] in {hub} && p[|p| - 1] == a;
    ReachesBack(links, p, 0);
    var q :| Path(links, q) && q[0] in {hub} && q[|q| - 1] == b;
    ReachesAlong(links, {a}, q, |q| - 1);
  }

  ghost predicate Closed(links: set<Link>, s: set<Id>) {
    forall e | e in links && e.0 in s :: e.1 in s
  }

  lemma {:induction false} ClosedHoldsPath(links: set<Link>, s: set<Id>, p: seq<Id>, i: nat)
    requires Closed(links, s) && Path(links, p) && p[0] in s && i < |p|
    ensures p[i] in s
  {
    if i > 0 {
      ClosedHoldsPath(links, s, p, i - 1);
      assert (p[i - 1], p[i]) in links;
    }
  }

  /** A closed set that holds the starts and only reachable ids is the reachable set. */
  lemma ClosedIsReachable(links: set<Link>, starts: set<Id>, s: set<Id>)
    requires Closed(links, s) && starts <= s && forall q | q in s :: Reaches(links, starts, q)
    ensures forall q :: q in s <==> Reaches(links, starts, q)
  {
    forall q | Reaches(links, starts, q) ensures q in s {
      var p :| Path(links, p) && p[0] in starts && p[|p| - 1] == q;
      ClosedHoldsPath(links, s, p, |p| - 1);
    }
  }

  /** Widening the links only adds reachable ids. */
  lemma ReachesMonotone(links: set<Link>, links': set<Link>, starts: set<Id>, q: Id)
    requires links <= links' && Reaches(links, starts, q)
    ensures Reaches(links', starts, q)
  {
    var p :| Path(links, p) && p[0] in starts && p[|p| - 1] == q;
    assert Path(links', p);
  }

  type Adjacency = map<Id, set<Id>>

  function Neighbors(m: Adjacency, p: Id): set<Id> {
    if p in m then m[p] else {}
  }

  /** Adds ids to the entry of `k`, creating it when missing. */
  function Put(m: Adjacency, k: Id, ids: set<Id>): (r: Adjacency)
    ensures forall p, x :: x in Neighbors(r, p) <==> x in Neighbors(m, p) || (p == k && x in ids)
    ensures r.Keys == m.Keys + {k}
  {
    m[k := Neighbors(m, k) + ids]
  }

  function LinksOf(m: Adjacency): set<Link> {
    set p, q | p in m && q in m[p] :: (p, q)
  }

  function Range(m: Adjacency): set<Id> {
    set p, q | p in m && q in m[p] :: q
  }

  /** Appends the ids of `ids` that are not yet visited. */
  method PushUnvisited(ids: set<Id>, visited: set<Id>, queue: seq<Id>) returns (queue': seq<Id>)
    ensures forall q :: q in queue' <==> q in queue || (q in ids && q !in visited)
  {
    queue' := queue;
    var rest := ids;
    while rest != {}
      invariant rest <= ids
      invariant forall q :: q in queue' <==> q in queue || (q in ids - rest && q !in visited)
      decreases rest
    {
      var q :| q in rest;
      if q !in visited {
        queue' := queue' + [q];
      }
      rest := rest - {q};
    }
  }

  /** Everything visited or queued is reachable; what follows a visited id is visited or queued. */
  ghost predicate Searching(m: Adjacency, starts: set<Id>, visited: set<Id>, queue: seq<Id>) {
    && (forall q | q in visited || q in queue :: Reaches(LinksOf(m), starts, q))
    && (forall q | q in visited || q in queue :: q in starts + Range(m))
    && (forall q | q in starts :: q in visited || q in queue)
    && (forall p, q | p in visited && q in Neighbors(m, p) :: q in visited || q in queue)
  }

  lemma VisitKeeps(m: Adjacency, starts: set<Id>, visited: set<Id>, queue: seq<Id>, queue': seq<Id>)
    requires Searching(m, starts, visited, queue) && queue != [] && queue[0] !in visited
    requires forall q :: q in queue' <==> q in queue[1..] || (q in Neighbors(m, queue[0]) && q !in visited + {queue[0]})
    ensures Searching(m, starts, visited + {queue[0]}, queue')
  {
    var node := queue[0];
    assert node in queue && queue == [node] + queue[1..];
    forall q | q in Neighbors(m, node) ensures Reaches(LinksOf(m), starts, q) && q in Range(m) {
      assert (node, q) in LinksOf(m);
      ReachesNext(LinksOf(m), starts, node, q);
    }
  }

  lemma SkipKeeps(m: Adjacency, starts: set<Id>, visited: set<Id>, queue: seq<Id>)
    requires Searching(m, starts, visited, queue) && queue != [] && queue[0] in visited
    ensures Searching(m, starts, visited, queue[1..])
  {
    assert queue == [queue[0]] + queue[1..];
  }

  lemma DoneIsExact(m: Adjacency, starts: set<Id>, visited: set<Id>)
    requires Searching(m, starts, visited, [])
    ensures forall q :: q in visited <==> Reaches(LinksOf(m), starts, q)
  {
    forall e | e in LinksOf(m) && e.0 in visited ensures e.1 in visited {
      assert e.1 in Neighbors(m, e.0);
    }
    ClosedIsReachable(LinksOf(m), starts, visited);
  }

  /** Breadth-first search over an adjacency map; the result is the exact reachable set. */
  method Explore(m: Adjacency, start: Id) returns (visited: set<Id>)
    ensures forall q :: q in visited <==> Reaches(LinksOf(m), {start}, q)
  {
    visited := {};
    var queue := [start];
    ReachesStart(LinksOf(m), {start}, start);
    ghost var all := {start} + Range(m);
    while |queue| > 0
      invariant Searching(m, {start}, visited, queue)
      invariant visited <= all
      decreases all - visited, |queue|
    {
      var node := queue[0];
      if node in visited {
        SkipKeeps(m, {start}, visited, queue);
        queue := queue[1..];
      } else {
        assert node in queue;
        var queue' := PushUnvisited(Neighbors(m, node), visited + {node}, queue[1..]);
        VisitKeeps(m, {start}, visited, queue, queue');
        visited := visited + {node};
        queue := queue';
      }
    }
    DoneIsExact(m, {start}, visited);
  }

  // ---- Places and transitions ----

  /** From place to place through one transition. */
  function Through(outer: Adjacency, inner: Adjacency): Adjacency {
    map p | p in outer :: set t, q | t in outer[p] && t in inner && q in inner[t] :: q
  }

  /** Beside `Searching`: the marked transitions are those of the visited places. */
  ghost predicate Marked(outer: Adjacency, visited: set<Id>, marked: set<Id>) {
    && (forall p, t | p in visited && t in Neighbors(outer, p) :: t in marked)
    && (forall t | t in marked :: exists p :: p in visited && t in Neighbors(outer, p))
  }

  /** Marks the unmarked transitions of a place and queues the unvisited places behind them. */
  method Expand(transitions: set<Id>, inner: Adjacency, visited: set<Id>, marked: set<Id>, queue: seq<Id>)
    returns (marked': set<Id>, queue': seq<Id>)
    ensures marked' == marked + transitions
    ensures forall q :: q in queue'
                        <==> q in queue || (q !in visited && exists t ::
                                            t in transitions - marked && q in Neighbors(inner, t))
  {
    marked', queue' := marked, queue;
    var rest := transitions;
    while rest != {}
      invariant rest <= transitions
      invariant marked' == marked + (transitions - rest)
      invariant forall q :: q in queue'
                            <==> q in queue || (q !in visited && exists t ::
                                                t in transitions - rest - marked && q in Neighbors(inner, t))
      decreases rest
    {
      var t :| t in rest;
      if t !in marked' {
        marked' := marked' + {t};
        queue' := PushUnvisited(Neighbors(inner, t), visited, queue');
      }
      rest := rest - {t};
    }
  }

  /** The queue step through marked transitions loses nothing: what an already marked transition
      leads to is visited or queued. */
  ghost predicate MarkedQueued(inner: Adjacency, visited: set<Id>, marked: set<Id>, queue: seq<Id>) {
    forall t, q | t in marked && q in Neighbors(inner, t) :: q in visited || q in queue
  }

  lemma ExpandKeeps(outer: Adjacency, inner: Adjacency, starts: set<Id>, visited: set<Id>, marked: set<Id>,
                    queue: seq<Id>, queue': seq<Id>)
    requires Searching(Through(outer, inner), starts, visited, queue) && queue != [] && queue[0] !in visited
    requires Marked(outer, visited, marked) && MarkedQueued(inner, visited, marked, queue)
    requires var node := queue[0];
             forall q :: q in queue'
                         <==> q in queue[1..] || (q !in visited + {node} && exists t ::
                                                  t in Neighbors(outer, node) - marked && q in Neighbors(inner, t))
    ensures var node := queue[0];
            && Searching(Through(outer, inner), starts, visited + {node}, queue')
            && Marked(outer, visited + {node}, marked + Neighbors(outer, node))
            && MarkedQueued(inner, visited + {node}, marked + Neighbors(outer, node), queue')
  {
    var node := queue[0];
    var m := Through(outer, inner);
    assert node in queue && queue == [node] + queue[1..];
    forall t, q | t in Neighbors(outer, node) && q in Neighbors(inner, t)
        ensures Reaches(LinksOf(m), starts, q) && q in Range(m)
    {
      assert q in m[node] && (node, q) in LinksOf(m);
      ReachesNext(LinksOf(m), starts, node, q);
    }
    forall t, q | t in marked + Neighbors(outer, node) && q in Neighbors(inner, t)
        ensures q in visited + {node} || q in queue'
    {
    }
    forall p, q | p in visited + {node} && q in Neighbors(m, p) ensures q in visited + {node} || q in queue' {
      var t :| t in outer[p] && t in inner && q in inner[t];
      assert t in Neighbors(outer, p) && q in Neighbors(inner, t);
    }
  }

  /** Breadth-first search from places through transitions, both reachable sets exact. */
  method ExploreBoth(outer: Adjacency, inner: Adjacency, start: seq<Id>) returns (places: set<Id>, transitions: set<Id>)
    ensures forall q :: q in places <==> Reaches(LinksOf(Through(outer, inner)), SetOf(start), q)
    ensures forall t :: t in transitions <==> exists p :: p in places && t in Neighbors(outer, p)
  {
    places, transitions := {}, {};
    ghost var m, starts := Through(outer, inner), SetOf(start);
    forall q | q in starts ensures Reaches(LinksOf(m), starts, q) {
      ReachesStart(LinksOf(m), starts, q);
    }
    ghost var all := starts + Range(m);
    var queue := start;
    while |queue| > 0
      invariant Searching(m, starts, places, queue) && Marked(outer, places, transitions)
                && MarkedQueued(inner, places, transitions, queue)
      invariant places <= all
      decreases all - places, |queue|
    {
      var node := queue[0];
      if node in places {
        SkipKeeps(m, starts, places, queue);
        assert queue == [node] + queue[1..];
        queue := queue[1..];
      } else {
        assert node in queue;
        var transitions', queue' := Expand(Neighbors(outer, node), inner, places + {node}, transitions, queue[1..]);
        ExpandKeeps(outer, inner, starts, places, transitions, queue, queue');
        places, transitions, queue := places + {node}, transitions', queue';
      }
    }
    DoneIsExact(m, starts, places);
  }
}
