/** Windowed fold state: retained entries and mergeable tiles (src/core/window.ts). Values are reals. */
module Windows {
  import opened Prelude

  // ---- EventWindow ----

  datatype Entry = Entry(at: int, value: real)

  function NotOlder(entries: seq<Entry>, cutoff: int): seq<Entry> {
    if entries == [] then []
    else if entries[0].at >= cutoff then [entries[0]] + NotOlder(entries[1..], cutoff)
    else NotOlder(entries[1..], cutoff)
  }

  /** Before the first entry that is not newer. */
  function Insert(e: Entry, sorted: seq<Entry>): seq<Entry> {
    if sorted == [] || e.at >= sorted[0].at then [e] + sorted else [sorted[0]] + Insert(e, sorted[1..])
  }

  /** The stable sort, newest first. */
  function NewestFirst(entries: seq<Entry>): seq<Entry> {
    if entries == [] then [] else Insert(entries[0], NewestFirst(entries[1..]))
  }

  function Retained(candidates: seq<Entry>, now: int, window: int): seq<Entry> {
    NewestFirst(NotOlder(candidates, now - window))
  }

  function Added(w: seq<Entry>, e: Entry, window: int): seq<Entry> {
    Retained([e] + w, e.at, window)
  }

  /** Every write is given its own window. */
  function AddedAll(adds: seq<Entry>, windows: seq<int>): seq<Entry>
    requires |windows| == |adds|
  {
    if adds == [] then [] else
      var n := |adds| - 1;
      Added(AddedAll(adds[..n], windows[..n]), adds[n], windows[n])
  }

  function Constant(window: int, n: nat): seq<int> {
    seq(n, _ => window)
  }

  function Backwards(adds: seq<Entry>): seq<Entry> {
    if adds == [] then [] else [adds[|adds| - 1]] + Backwards(adds[..|adds| - 1])
  }

  function Oldest(w: seq<Entry>, now: int, window: int): Option<int> {
    var live := Retained(w, now, window);
    if |live| > 0 then Some(live[|live| - 1].at) else None
  }

  ghost predicate Descending(entries: seq<Entry>) {
    forall i, j | 0 <= i < j < |entries| :: entries[i].at >= entries[j].at
  }

  lemma {:induction false} InsertDescends(e: Entry, sorted: seq<Entry>)
    requires Descending(sorted)
    ensures Descending(Insert(e, sorted))
    ensures forall x :: x in Insert(e, sorted) <==> x in sorted || x == e
  {
    if sorted != [] {
      assert sorted == [sorted[0]] + sorted[1..];
      if e.at < sorted[0].at {
        InsertDescends(e, sorted[1..]);
        assert forall x | x in sorted[1..] :: x.at <= sorted[0].at;
        HeadDescends(sorted[0], Insert(e, sorted[1..]));
      }
    }
  }

  lemma HeadDescends(head: Entry, rest: seq<Entry>)
    requires Descending(rest) && forall x | x in rest :: x.at <= head.at
    ensures Descending([head] + rest)
  {
    assert forall i | 0 <= i < |rest| :: rest[i] in rest;
  }

  lemma {:induction false} SortDescends(entries: seq<Entry>)
    ensures Descending(NewestFirst(entries)) && |NewestFirst(entries)| == |entries|
    ensures forall x :: x in NewestFirst(entries) <==> x in entries
  {
    if entries != [] {
      SortDescends(entries[1..]);
      InsertDescends(entries[0], NewestFirst(entries[1..]));
      InsertLengthens(entries[0], NewestFirst(entries[1..]));
      assert entries == [entries[0]] + entries[1..];
    }
  }

  lemma {:induction false} InsertLengthens(e: Entry, sorted: seq<Entry>)
    ensures |Insert(e, sorted)| == |sorted| + 1
  {
    if sorted != [] && e.at < sorted[0].at {
      InsertLengthens(e, sorted[1..]);
    }
  }

  lemma {:induction false} SortedStays(sorted: seq<Entry>)
    requires Descending(sorted)
    ensures NewestFirst(sorted) == sorted
  {
    if sorted != [] {
      SortedStays(sorted[1..]);
    }
  }

  lemma {:induction false} AllOlder(sorted: seq<Entry>, cutoff: int)
    requires forall i | 0 <= i < |sorted| :: sorted[i].at < cutoff
    ensures NotOlder(sorted, cutoff) == []
  {
    if sorted != [] {
      AllOlder(sorted[1..], cutoff);
    }
  }

  lemma {:induction false} InsertThenDrop(e: Entry, sorted: seq<Entry>, cutoff: int)
    requires Descending(sorted)
    ensures NotOlder(Insert(e, sorted), cutoff) == if e.at >= cutoff then Insert(e, NotOlder(sorted, cutoff))
            else NotOlder(sorted, cutoff)
  {
    if sorted == [] {
      assert ([e] + sorted)[1..] == sorted;
    } else if e.at >= sorted[0].at {
      assert ([e] + sorted)[1..] == sorted;
      if sorted[0].at < cutoff {
        AllOlder(sorted, cutoff);
      }
    } else {
      InsertThenDrop(e, sorted[1..], cutoff);
      var rest := Insert(e, sorted[1..]);
      assert ([sorted[0]] + rest)[1..] == rest;
      if sorted[0].at >= cutoff {
        assert NotOlder(sorted, cutoff) == [sorted[0]] + NotOlder(sorted[1..], cutoff);
        assert ([sorted[0]] + NotOlder(sorted[1..], cutoff))[1..] == NotOlder(sorted[1..], cutoff);
      }
    }
  }

  /** Dropping and sorting commute. */
  lemma {:induction false} SortThenDrop(entries: seq<Entry>, cutoff: int)
    ensures NotOlder(NewestFirst(entries), cutoff) == NewestFirst(NotOlder(entries, cutoff))
  {
    if entries != [] {
      SortThenDrop(entries[1..], cutoff);
      SortDescends(entries[1..]);
      InsertThenDrop(entries[0], NewestFirst(entries[1..]), cutoff);
      if entries[0].at >= cutoff {
        assert ([entries[0]] + NotOlder(entries[1..], cutoff))[1..] == NotOlder(entries[1..], cutoff);
      }
    }
  }

  lemma OneMoreCandidate(e: Entry, w: seq<Entry>, cutoff: int)
    ensures NewestFirst(NotOlder([e] + w, cutoff))
         == if e.at >= cutoff then Insert(e, NewestFirst(NotOlder(w, cutoff))) else NewestFirst(NotOlder(w, cutoff))
  {
    assert ([e] + w)[1..] == w;
    if e.at >= cutoff {
      assert ([e] + NotOlder(w, cutoff))[1..] == NotOlder(w, cutoff);
    }
  }

  // ---- Every write and read has its own window ----

  /** No write dropped the `i`-th entry: it was in the window of every later one. */
  predicate Survives(adds: seq<Entry>, windows: seq<int>, i: nat)
    requires i < |adds| == |windows|
  {
    forall j | i <= j < |adds| :: adds[i].at >= adds[j].at - windows[j]
  }

  predicate AllSurvive(adds: seq<Entry>, windows: seq<int>, cutoff: int)
    requires |adds| == |windows|
  {
    forall i | 0 <= i < |adds| && adds[i].at >= cutoff :: Survives(adds, windows, i)
  }

  /** What the writes have kept, before sorting. */
  function Survivors(adds: seq<Entry>, windows: seq<int>): seq<Entry>
    requires |adds| == |windows|
  {
    if adds == [] then [] else
      var n := |adds| - 1;
      NotOlder([adds[n]] + Survivors(adds[..n], windows[..n]), adds[n].at - windows[n])
  }

  lemma {:induction false} SurvivorsSorted(adds: seq<Entry>, windows: seq<int>)
    requires |adds| == |windows|
    ensures AddedAll(adds, windows) == NewestFirst(Survivors(adds, windows))
  {
    if adds != [] {
      var n := |adds| - 1;
      SurvivorsSorted(adds[..n], windows[..n]);
      SortedFirst(adds[n], Survivors(adds[..n], windows[..n]), adds[n].at - windows[n]);
    }
  }

  /** Whether what was kept was sorted before makes no difference. */
  lemma SortedFirst(e: Entry, kept: seq<Entry>, cutoff: int)
    ensures NewestFirst(NotOlder([e] + NewestFirst(kept), cutoff)) == NewestFirst(NotOlder([e] + kept, cutoff))
  {
    OneMoreCandidate(e, NewestFirst(kept), cutoff);
    OneMoreCandidate(e, kept, cutoff);
    SortThenDrop(kept, cutoff);
    SortDescends(NotOlder(kept, cutoff));
    SortedStays(NewestFirst(NotOlder(kept, cutoff)));
  }

  lemma {:induction false} DropBoth(entries: seq<Entry>, a: int, b: int)
    ensures NotOlder(NotOlder(entries, a), b) == NotOlder(entries, Max(a, b))
  {
    if entries != [] {
      DropBoth(entries[1..], a, b);
      if entries[0].at >= a {
        assert ([entries[0]] + NotOlder(entries[1..], a))[1..] == NotOlder(entries[1..], a);
      }
    }
  }

  /** Raising the cutoff drops nothing exactly when nothing lies between. */
  lemma {:induction false} RaisedCutoff(adds: seq<Entry>, low: int, high: int)
    requires low <= high
    ensures |NotOlder(Backwards(adds), high)| <= |NotOlder(Backwards(adds), low)|
    ensures if forall i | 0 <= i < |adds| :: adds[i].at < low || adds[i].at >= high
            then NotOlder(Backwards(adds), high) == NotOlder(Backwards(adds), low)
            else |NotOlder(Backwards(adds), high)| < |NotOlder(Backwards(adds), low)|
  {
    if adds != [] {
      var front, e := adds[..|adds| - 1], adds[|adds| - 1];
      RaisedCutoff(front, low, high);
      assert Backwards(adds)[1..] == Backwards(front);
    }
  }

  lemma SurvivesLonger(adds: seq<Entry>, windows: seq<int>, cutoff: int)
    requires |adds| == |windows| > 0
    ensures var n := |adds| - 1;
            var high := Max(cutoff, adds[n].at - windows[n]);
            AllSurvive(adds, windows, cutoff)
            <==> && AllSurvive(adds[..n], windows[..n], high)
                 && (forall i | 0 <= i < n :: adds[i].at < cutoff || adds[i].at >= high)
                 && (adds[n].at >= cutoff ==> windows[n] >= 0)
  {
    var n := |adds| - 1;
    var high := Max(cutoff, adds[n].at - windows[n]);
    forall i | 0 <= i < n
      ensures Survives(adds, windows, i)
              <==> Survives(adds[..n], windows[..n], i) && adds[i].at >= adds[n].at - windows[n]
    {
    }
    if AllSurvive(adds, windows, cutoff) {
      assert adds[n].at >= cutoff ==> Survives(adds, windows, n);
      forall i | 0 <= i < n ensures adds[i].at < cutoff || adds[i].at >= high {
        assert adds[i].at >= cutoff ==> Survives(adds, windows, i);
      }
    }
  }

  /** What is kept of `all` is all of it, or less. */
  predicate Kept(kept: seq<Entry>, all: seq<Entry>, everything: bool) {
    if everything then kept == all else |kept| < |all|
  }

  lemma {:induction false} SurvivorsCount(adds: seq<Entry>, windows: seq<int>, cutoff: int)
    requires |adds| == |windows|
    ensures Kept(NotOlder(Survivors(adds, windows), cutoff), NotOlder(Backwards(adds), cutoff),
                 AllSurvive(adds, windows, cutoff))
  {
    if adds != [] {
      var n := |adds| - 1;
      var e, kept := adds[n], Survivors(adds[..n], windows[..n]);
      var high := Max(cutoff, e.at - windows[n]);
      DropBoth([e] + kept, e.at - windows[n], cutoff);
      SurvivorsCount(adds[..n], windows[..n], high);
      SurvivesLonger(adds, windows, cutoff);
      OneMoreSurvives(adds[..n], kept, e, cutoff, high, AllSurvive(adds[..n], windows[..n], high));
    }
  }

  lemma OneMoreSurvives(front: seq<Entry>, kept: seq<Entry>, e: Entry, cutoff: int, high: int, everything: bool)
    requires cutoff <= high && Kept(NotOlder(kept, high), NotOlder(Backwards(front), high), everything)
    ensures Kept(NotOlder([e] + kept, high), NotOlder([e] + Backwards(front), cutoff),
                 && everything && (e.at >= cutoff ==> e.at >= high)
                 && forall i | 0 <= i < |front| :: front[i].at < cutoff || front[i].at >= high)
  {
    RaisedCutoff(front, cutoff, high);
    OneMoreKept(e, kept, high);
    OneMoreKept(e, Backwards(front), cutoff);
  }

  lemma OneMoreKept(e: Entry, w: seq<Entry>, cutoff: int)
    ensures NotOlder([e] + w, cutoff) == if e.at >= cutoff then [e] + NotOlder(w, cutoff) else NotOlder(w, cutoff)
  {
    assert ([e] + w)[1..] == w;
  }

  /** A read with any window shows all entries ever added that lie in it exactly when no write, with the window it
      was given, has dropped one of them. */
  lemma WindowTakesEffectIff(adds: seq<Entry>, windows: seq<int>, now: int, read: int)
    requires |adds| == |windows|
    ensures Retained(AddedAll(adds, windows), now, read) == Retained(Backwards(adds), now, read)
        <==> AllSurvive(adds, windows, now - read)
  {
    var cutoff := now - read;
    var kept := Survivors(adds, windows);
    SurvivorsSorted(adds, windows);
    SortThenDrop(kept, cutoff);
    SortDescends(NotOlder(kept, cutoff));
    SortedStays(NewestFirst(NotOlder(kept, cutoff)));
    SurvivorsCount(adds, windows, cutoff);
    SortDescends(NotOlder(Backwards(adds), cutoff));
  }

  /** So a window no longer than those of the writes takes effect at once, when no entry is newer than the read. */
  lemma ShorterTakesEffect(adds: seq<Entry>, windows: seq<int>, now: int, read: int)
    requires |adds| == |windows| && forall i | 0 <= i < |adds| :: adds[i].at <= now && read <= windows[i]
    ensures Retained(AddedAll(adds, windows), now, read) == Retained(Backwards(adds), now, read)
  {
    WindowTakesEffectIff(adds, windows, now, read);
  }

  /** Under one window, dropping on write is invisible to a later read: it sees all entries ever added that are still
      in the window. */
  lemma EvictionIsInvisible(adds: seq<Entry>, now: int, window: int)
    requires forall i | 0 <= i < |adds| :: adds[i].at <= now
    ensures Retained(AddedAll(adds, Constant(window, |adds|)), now, window) == Retained(Backwards(adds), now, window)
  {
    ShorterTakesEffect(adds, Constant(window, |adds|), now, window);
  }

  /** A longer one may come too late: an entry at 0 is dropped by one at 10 under a window of 5, and stays lost,
      though the window of the first write and of the read is 20. */
  lemma LongerMayComeTooLate()
    ensures var adds := [Entry(0, 1.0), Entry(10, 1.0)];
            Retained(AddedAll(adds, [20, 5]), 10, 20) != Retained(Backwards(adds), 10, 20)
  {
    var adds := [Entry(0, 1.0), Entry(10, 1.0)];
    WindowTakesEffectIff(adds, [20, 5], 10, 20);
    assert adds[0].at >= 10 - 20 && !(adds[0].at >= adds[1].at - [20, 5][1]);
    assert !Survives(adds, [20, 5], 0);
  }

  /** The oldest retained entry is the start of the observed period. */
  lemma OldestIsEarliest(w: seq<Entry>, now: int, window: int)
    ensures Oldest(w, now, window).None? <==> NotOlder(w, now - window) == []
    ensures Oldest(w, now, window).Some? ==>
              && (exists x :: x in NotOlder(w, now - window) && x.at == Oldest(w, now, window).value)
              && forall x | x in NotOlder(w, now - window) :: x.at >= Oldest(w, now, window).value
  {
    var live := Retained(w, now, window);
    SortDescends(NotOlder(w, now - window));
    if |live| > 0 {
      assert live[|live| - 1] in live;
      forall x | x in NotOlder(w, now - window) ensures x.at >= live[|live| - 1].at {
        var i :| 0 <= i < |live| && live[i] == x;
      }
    }
  }

  function CountSince(adds: seq<Entry>, cutoff: int): nat {
    if adds == [] then 0 else CountSince(adds[..|adds| - 1], cutoff) + if adds[|adds| - 1].at >= cutoff then 1 else 0
  }

  /** A read sees as many entries as were added inside the window. */
  lemma SizeIsExact(adds: seq<Entry>, now: int, window: int)
    requires forall i | 0 <= i < |adds| :: adds[i].at <= now
    ensures |Retained(AddedAll(adds, Constant(window, |adds|)), now, window)| == CountSince(adds, now - window)
  {
    EvictionIsInvisible(adds, now, window);
    SortDescends(NotOlder(Backwards(adds), now - window));
    BackwardsCount(adds, now - window);
  }

  lemma {:induction false} BackwardsCount(adds: seq<Entry>, cutoff: int)
    ensures |NotOlder(Backwards(adds), cutoff)| == CountSince(adds, cutoff)
  {
    if adds != [] {
      BackwardsCount(adds[..|adds| - 1], cutoff);
    }
  }

  // ---- Tiles ----

  datatype Tile = Tile(count: nat, sum: real, min: real, max: real, sumOfSquares: real)

  function Pow2(n: nat): nat {
    if n == 0 then 1 else 2 * Pow2(n - 1)
  }

  lemma {:induction false} PowersAdd(a: nat, b: nat)
    ensures Pow2(a + b) == Pow2(a) * Pow2(b) && Pow2(0) == 1 && Pow2(1) == 2
  {
    assert Pow2(1) == 2 * Pow2(0);
    if b > 0 {
      PowersAdd(a, b - 1);
    }
  }

  /** The largest finite number of IEEE 754 binary64. */
  const MAX_VALUE: real := (Pow2(1024) - Pow2(971)) as real

  predicate Finite(v: real) {
    -MAX_VALUE <= v <= MAX_VALUE
  }

  function Least(a: real, b: real): real {
    if b < a then b else a
  }

  function Greatest(a: real, b: real): real {
    if a < b then b else a
  }

  const EMPTY: Tile := Tile(0, 0.0, MAX_VALUE, -MAX_VALUE, 0.0)

  function Plus(t: Tile, v: real): Tile {
    Tile(t.count + 1, t.sum + v, Least(t.min, v), Greatest(t.max, v), t.sumOfSquares + v * v)
  }

  function Merge(a: Tile, b: Tile): Tile {
    Tile(a.count + b.count, a.sum + b.sum, Least(a.min, b.min), Greatest(a.max, b.max), a.sumOfSquares + b.sumOfSquares)
  }

  /** The tile of all these values. */
  function TileOf(values: seq<real>): Tile {
    if values == [] then EMPTY else Plus(TileOf(values[..|values| - 1]), values[|values| - 1])
  }

  /** Merging is order-independent. */
  lemma MergeIsCommutativeMonoid(a: Tile, b: Tile, c: Tile)
    ensures Merge(a, b) == Merge(b, a) && Merge(Merge(a, b), c) == Merge(a, Merge(b, c))
    ensures a.min <= MAX_VALUE && a.max >= -MAX_VALUE ==> Merge(EMPTY, a) == a
  {
  }

  lemma {:induction false} TileInRange(values: seq<real>)
    ensures TileOf(values).min <= MAX_VALUE && TileOf(values).max >= -MAX_VALUE && TileOf(values).count == |values|
  {
    if values != [] {
      TileInRange(values[..|values| - 1]);
    }
  }

  lemma MergePlus(a: Tile, b: Tile, v: real)
    ensures Merge(a, Plus(b, v)) == Plus(Merge(a, b), v) && Merge(Plus(a, v), b) == Plus(Merge(a, b), v)
  {
  }

  /** Merging the tiles of two lots of values gives the tile of both. */
  lemma {:induction false} MergeIsUnion(a: seq<real>, b: seq<real>)
    ensures Merge(TileOf(a), TileOf(b)) == TileOf(a + b)
  {
    if b == [] {
      assert a + b == a;
      TileInRange(a);
    } else {
      var front, last := b[..|b| - 1], b[|b| - 1];
      MergeIsUnion(a, front);
      MergePlus(TileOf(a), TileOf(front), last);
      TileOneMore(a + front, last);
      TileOneMore(front, last);
      assert b == front + [last];
      Regroup(a, front, [last]);
    }
  }

  /** The smallest and largest of finite values, and values they are. */
  lemma {:induction false} ExtremesAreExact(values: seq<real>)
    requires values != [] && forall i | 0 <= i < |values| :: Finite(values[i])
    ensures forall i | 0 <= i < |values| :: TileOf(values).min <= values[i] <= TileOf(values).max
    ensures TileOf(values).min in values && TileOf(values).max in values
  {
    var front, last := values[..|values| - 1], values[|values| - 1];
    assert values == front + [last];
    if front != [] {
      ExtremesAreExact(front);
    }
  }

  lemma SquareIsNotNegative(x: real)
    ensures x * x >= 0.0
  {
  }

  /** (n + 1)(q + v²) - (s + v)² splits into n q - s² and a part that is a square over n. */
  lemma OneMoreValue(n: real, s: real, q: real, v: real)
    requires n >= 1.0 && n * q >= s * s
    ensures (n + 1.0) * (q + v * v) >= (s + v) * (s + v)
  {
    var d := s - n * v;
    SquareIsNotNegative(d);
    assert d * d == s * s - 2.0 * (n * (s * v)) + n * (n * (v * v)) by {
      assert (n * v) * s == n * (s * v) && (n * v) * (n * v) == n * (n * (v * v));
    }
    var rest := q - 2.0 * (s * v) + n * (v * v);
    assert n * rest == n * q - 2.0 * (n * (s * v)) + n * (n * (v * v));
    assert n * rest >= 0.0;
    NotNegative(n, rest);
    assert (n + 1.0) * (q + v * v) == n * q + n * (v * v) + q + v * v;
    assert (s + v) * (s + v) == s * s + 2.0 * (s * v) + v * v;
  }

  lemma NotNegative(n: real, x: real)
    requires n >= 1.0 && n * x >= 0.0
    ensures x >= 0.0
  {
    if x < 0.0 {
      assert n * x <= 1.0 * x;
    }
  }

  ghost predicate Bounded(t: Tile) {
    t.count as real * t.sumOfSquares >= t.sum * t.sum && (t.count == 0 ==> t.sum == 0.0 && t.sumOfSquares == 0.0)
  }

  lemma PlusKeepsBounded(t: Tile, v: real)
    requires Bounded(t)
    ensures Bounded(Plus(t, v))
  {
    if t.count > 0 {
      OneMoreValue(t.count as real, t.sum, t.sumOfSquares, v);
    }
  }

  /** Count times the sum of squares is at least the sum squared. */
  lemma {:induction false} CauchySchwarz(values: seq<real>)
    ensures Bounded(TileOf(values))
  {
    if values != [] {
      CauchySchwarz(values[..|values| - 1]);
      PlusKeepsBounded(TileOf(values[..|values| - 1]), values[|values| - 1]);
    }
  }

  // ---- TileWindow ----

  type Tiles = map<int, Tile>

  /** Start of the hop bucket; None where the source throws. */
  function TileStart(at: int, hop: int): Option<int> {
    if hop <= 0 then None else Some(at / hop * hop)
  }

  function StartOf(at: int, hop: int): int
    requires hop > 0
  {
    TileStart(at, hop).value
  }

  lemma MultiplesAreApart(k: int, q: int, hop: int)
    requires hop > 0 && k < q
    ensures k * hop + hop <= q * hop
  {
    assert (k + 1) * hop <= q * hop;
  }

  /** Of all multiples of the hop, the bucket start is the one whose hop covers the time. */
  lemma StartIsTheCoveringMultiple(at: int, hop: int, k: int)
    requires hop > 0
    ensures StartOf(at, hop) <= at < StartOf(at, hop) + hop
    ensures k * hop == StartOf(at, hop) <==> k * hop <= at < k * hop + hop
  {
    var q := at / hop;
    assert at == q * hop + at % hop;
    if k < q {
      MultiplesAreApart(k, q, hop);
    } else if k > q {
      MultiplesAreApart(q, k, hop);
    }
  }

  predicate Live(start: int, now: int, hop: int, window: int) {
    start + hop > now - window
  }

  function RetainedTiles(tiles: Tiles, now: int, hop: int, window: int): Tiles {
    map s | s in tiles && Live(s, now, hop, window) :: tiles[s]
  }

  /** Fills a fresh record from the tiles in the order of their keys. */
  method RetainTiles(tiles: Tiles, order: seq<int>, now: int, hop: int, window: int) returns (kept: Tiles)
    requires SetOf(order) == tiles.Keys
    ensures kept == RetainedTiles(tiles, now, hop, window)
  {
    var cutoff := now - window;
    kept := map[];
    var i := 0;
    while i < |order|
      invariant 0 <= i <= |order|
      invariant forall s :: s in kept <==> s in SetOf(order[..i]) && Live(s, now, hop, window)
      invariant forall s | s in kept :: s in tiles && kept[s] == tiles[s]
    {
      assert order[i] in SetOf(order) && SetOf(order[..i + 1]) == SetOf(order[..i]) + {order[i]};
      if order[i] + hop > cutoff {
        kept := kept[order[i] := tiles[order[i]]];
      }
      i := i + 1;
    }
    assert order[..i] == order;
    forall s ensures s in kept <==> s in RetainedTiles(tiles, now, hop, window) {
      assert s in SetOf(order) <==> s in tiles.Keys;
    }
  }

  function TileAdded(tiles: Tiles, at: int, v: real, hop: int, window: int): Tiles
    requires hop > 0
  {
    var s := StartOf(at, hop);
    RetainedTiles(tiles[s := if s in tiles then Plus(tiles[s], v) else Plus(EMPTY, v)], at, hop, window)
  }

  function TilesAdded(adds: seq<Entry>, hop: int, window: int): Tiles
    requires hop > 0
  {
    if adds == [] then map[] else
      var last := adds[|adds| - 1];
      TileAdded(TilesAdded(adds[..|adds| - 1], hop, window), last.at, last.value, hop, window)
  }

  /** The live tiles merged, in any order of the keys. */
  function MergeLive(tiles: Tiles, order: seq<int>): Tile
    requires forall i | 0 <= i < |order| :: order[i] in tiles
  {
    if order == [] then EMPTY else Merge(MergeLive(tiles, order[..|order| - 1]), tiles[order[|order| - 1]])
  }

  datatype WindowedAggregate = WindowedAggregate(
    count: nat, sum: real, min: Option<real>, max: Option<real>, variance: real, mean: Option<real>)

  function Finished(merged: Tile): WindowedAggregate {
    if merged.count == 0 then WindowedAggregate(0, 0.0, None, None, 0.0, None) else
      var mean := merged.sum / merged.count as real;
      WindowedAggregate(merged.count, merged.sum, Some(merged.min), Some(merged.max),
                        Greatest(0.0, merged.sumOfSquares / merged.count as real - mean * mean), Some(mean))
  }

  /** The values added to tiles of the given starts. */
  function ValuesIn(adds: seq<Entry>, starts: set<int>, hop: int): seq<real>
    requires hop > 0
  {
    if adds == [] then [] else
      var front, last := ValuesIn(adds[..|adds| - 1], starts, hop), adds[|adds| - 1];
      if StartOf(last.at, hop) in starts then front + [last.value] else front
  }

  /** A live tile holds exactly the values added to it; a missing live tile got none. */
  ghost predicate Mirrors(tiles: Tiles, adds: seq<Entry>, now: int, hop: int, window: int)
    requires hop > 0
  {
    forall s | Live(s, now, hop, window) :: MirrorsAt(tiles, adds, s, hop)
  }

  ghost predicate MirrorsAt(tiles: Tiles, adds: seq<Entry>, s: int, hop: int)
    requires hop > 0
  {
    if s in tiles then tiles[s] == TileOf(ValuesIn(adds, {s}, hop)) else ValuesIn(adds, {s}, hop) == []
  }

  /** Dropping tiles on write never drops one that a later read counts. */
  lemma {:induction false} TileEvictionIsInvisible(adds: seq<Entry>, now: int, hop: int, window: int)
    requires hop > 0 && forall i | 0 <= i < |adds| :: adds[i].at <= now
    ensures Mirrors(TilesAdded(adds, hop, window), adds, now, hop, window)
  {
    if adds != [] {
      var front, last := adds[..|adds| - 1], adds[|adds| - 1];
      TileEvictionIsInvisible(front, now, hop, window);
      var tiles, start := TilesAdded(front, hop, window), StartOf(last.at, hop);
      forall s | Live(s, now, hop, window) ensures MirrorsAt(TilesAdded(adds, hop, window), adds, s, hop) {
        assert Live(s, last.at, hop, window) && MirrorsAt(tiles, front, s, hop);
        if s == start {
          assert (ValuesIn(front, {s}, hop) + [last.value])[..|ValuesIn(front, {s}, hop)|] == ValuesIn(front, {s}, hop);
        }
      }
    }
  }

  lemma {:induction false} SplitStarts(adds: seq<Entry>, starts: set<int>, s: int, hop: int)
    requires hop > 0 && s !in starts
    ensures Merge(TileOf(ValuesIn(adds, starts, hop)), TileOf(ValuesIn(adds, {s}, hop)))
            == TileOf(ValuesIn(adds, starts + {s}, hop))
  {
    if adds != [] {
      var front, last := adds[..|adds| - 1], adds[|adds| - 1];
      SplitStarts(front, starts, s, hop);
      var a, b := ValuesIn(front, starts, hop), ValuesIn(front, {s}, hop);
      MergePlus(TileOf(a), TileOf(b), last.value);
      TileOneMore(a, last.value);
      TileOneMore(b, last.value);
      TileOneMore(ValuesIn(front, starts + {s}, hop), last.value);
    }
  }

  lemma TileOneMore(values: seq<real>, v: real)
    ensures TileOf(values + [v]) == Plus(TileOf(values), v)
  {
    assert (values + [v])[..|values|] == values;
  }

  /** Merging tile by tile adds up to the whole, for any way of splitting that merging respects. */
  lemma {:induction false} MergeLiveAdds(tiles: Tiles, order: seq<int>, part: set<int> -> Tile)
    requires Distinct(order) && part({}) == EMPTY
    requires forall i | 0 <= i < |order| :: order[i] in tiles && tiles[order[i]] == part({order[i]})
    requires forall starts, s | s !in starts :: Merge(part(starts), part({s})) == part(starts + {s})
    ensures MergeLive(tiles, order) == part(SetOf(order))
  {
    if order == [] {
      assert SetOf(order) == {};
    } else {
      var front, s := order[..|order| - 1], order[|order| - 1];
      MergeLiveAdds(tiles, front, part);
      assert s !in SetOf(front) && SetOf(order) == SetOf(front) + {s};
    }
  }

  lemma MergeLiveIs(adds: seq<Entry>, tiles: Tiles, order: seq<int>, now: int, hop: int, window: int)
    requires hop > 0 && Mirrors(tiles, adds, now, hop, window) && Distinct(order)
    requires forall i | 0 <= i < |order| :: order[i] in tiles && Live(order[i], now, hop, window)
    ensures MergeLive(tiles, order) == TileOf(ValuesIn(adds, SetOf(order), hop))
  {
    var part := starts => TileOf(ValuesIn(adds, starts, hop));
    NoStarts(adds, hop);
    forall i | 0 <= i < |order| ensures tiles[order[i]] == part({order[i]}) {
      assert Live(order[i], now, hop, window) && MirrorsAt(tiles, adds, order[i], hop);
    }
    forall starts, s | s !in starts ensures Merge(part(starts), part({s})) == part(starts + {s}) {
      SplitStarts(adds, starts, s, hop);
    }
    MergeLiveAdds(tiles, order, part);
  }

  lemma {:induction false} NoStarts(adds: seq<Entry>, hop: int)
    requires hop > 0
    ensures ValuesIn(adds, {}, hop) == []
  {
    if adds != [] {
      NoStarts(adds[..|adds| - 1], hop);
    }
  }

  /** The values whose tile is live. */
  function LiveValues(adds: seq<Entry>, now: int, hop: int, window: int): seq<real>
    requires hop > 0
  {
    if adds == [] then [] else
      var front, last := LiveValues(adds[..|adds| - 1], now, hop, window), adds[|adds| - 1];
      if Live(StartOf(last.at, hop), now, hop, window) then front + [last.value] else front
  }

  lemma {:induction false} LiveValuesAreIn(adds: seq<Entry>, tiles: Tiles, now: int, hop: int, window: int,
                                           starts: set<int>)
    requires hop > 0
    requires forall i | 0 <= i < |adds| :: Live(StartOf(adds[i].at, hop), now, hop, window)
                                           <==> StartOf(adds[i].at, hop) in starts
    ensures ValuesIn(adds, starts, hop) == LiveValues(adds, now, hop, window)
  {
    if adds != [] {
      LiveValuesAreIn(adds[..|adds| - 1], tiles, now, hop, window, starts);
    }
  }

  lemma {:induction false} HasValue(adds: seq<Entry>, i: nat, hop: int)
    requires hop > 0 && i < |adds|
    ensures ValuesIn(adds, {StartOf(adds[i].at, hop)}, hop) != []
    decreases |adds|
  {
    if i < |adds| - 1 {
      HasValue(adds[..|adds| - 1], i, hop);
    }
  }

  /** In whatever order the live tiles are merged, the aggregate is that of all values added to live tiles. */
  lemma AggregateIsExact(adds: seq<Entry>, order: seq<int>, now: int, hop: int, window: int)
    requires hop > 0 && forall i | 0 <= i < |adds| :: adds[i].at <= now
    requires Distinct(order) && SetOf(order) == RetainedTiles(TilesAdded(adds, hop, window), now, hop, window).Keys
    ensures forall i | 0 <= i < |order| :: order[i] in TilesAdded(adds, hop, window)
    ensures MergeLive(TilesAdded(adds, hop, window), order) == TileOf(LiveValues(adds, now, hop, window))
  {
    var tiles := TilesAdded(adds, hop, window);
    forall i | 0 <= i < |order| ensures order[i] in tiles && Live(order[i], now, hop, window) {
      assert order[i] in SetOf(order);
    }
    TileEvictionIsInvisible(adds, now, hop, window);
    MergeLiveIs(adds, tiles, order, now, hop, window);
    forall i | 0 <= i < |adds|
        ensures Live(StartOf(adds[i].at, hop), now, hop, window) <==> StartOf(adds[i].at, hop) in SetOf(order)
    {
      HasValue(adds, i, hop);
    }
    LiveValuesAreIn(adds, tiles, now, hop, window, SetOf(order));
  }

  /** The tile window counts at least what the exact window counts, and at most what one hop more counts. */
  lemma {:induction false} Sandwich(adds: seq<Entry>, now: int, hop: int, window: int)
    requires hop > 0
    ensures CountSince(adds, now - window) <= |LiveValues(adds, now, hop, window)|
            <= CountSince(adds, now - window - hop + 1)
  {
    if adds != [] {
      Sandwich(adds[..|adds| - 1], now, hop, window);
      StartIsTheCoveringMultiple(adds[|adds| - 1].at, hop, 0);
    }
  }

  lemma FinishedCount(values: seq<real>)
    ensures Finished(TileOf(values)).count == |values|
  {
    TileInRange(values);
  }

  /** The same for the two kinds of window over one history of adds. */
  lemma TilesBetweenWindows(adds: seq<Entry>, order: seq<int>, now: int, hop: int, window: int)
    requires hop > 0 && forall i | 0 <= i < |adds| :: adds[i].at <= now
    requires Distinct(order) && SetOf(order) == RetainedTiles(TilesAdded(adds, hop, window), now, hop, window).Keys
    requires forall i | 0 <= i < |order| :: order[i] in TilesAdded(adds, hop, window)
    ensures var count := Finished(MergeLive(TilesAdded(adds, hop, window), order)).count;
            && |Retained(AddedAll(adds, Constant(window, |adds|)), now, window)| <= count
            && count <= |Retained(AddedAll(adds, Constant(window + hop - 1, |adds|)), now, window + hop - 1)|
  {
    AggregateIsExact(adds, order, now, hop, window);
    FinishedCount(LiveValues(adds, now, hop, window));
    Sandwich(adds, now, hop, window);
    SizeIsExact(adds, now, window);
    SizeIsExact(adds, now, window + hop - 1);
  }

  /** Without rounding, the variance of a reachable or merged tile is not negative: the floor changes nothing. */
  lemma VarianceNeedsNoFloor(t: Tile)
    requires Bounded(t) && t.count > 0
    ensures t.sumOfSquares / t.count as real - (t.sum / t.count as real) * (t.sum / t.count as real) >= 0.0
  {
    var n := t.count as real;
    Divided(t.sum, n);
    Divided(t.sumOfSquares, n);
    MeanOfSquares(n, t.sum, t.sumOfSquares, t.sum / n, t.sumOfSquares / n);
  }

  function SumOf(values: seq<real>): real {
    if values == [] then 0.0 else SumOf(values[..|values| - 1]) + values[|values| - 1]
  }

  function Square(x: real): real {
    x * x
  }

  function SquaredDeviations(values: seq<real>, mean: real): real {
    if values == [] then 0.0 else SquaredDeviations(values[..|values| - 1], mean) + Square(values[|values| - 1] - mean)
  }

  /** The deviations from any value, in terms of the components a tile keeps. */
  ghost predicate Deviate(deviations: real, t: Tile, mean: real) {
    deviations == t.sumOfSquares - 2.0 * (mean * t.sum) + t.count as real * (mean * mean)
  }

  lemma OneMoreDeviation(deviations: real, t: Tile, v: real, mean: real)
    requires Deviate(deviations, t, mean)
    ensures Deviate(deviations + Square(v - mean), Plus(t, v), mean)
  {
    assert Square(v - mean) == v * v - 2.0 * (mean * v) + mean * mean;
    assert mean * (t.sum + v) == mean * t.sum + mean * v;
    assert (t.count as real + 1.0) * (mean * mean) == t.count as real * (mean * mean) + mean * mean;
  }

  lemma {:induction false} DeviationsFromTile(values: seq<real>, mean: real)
    ensures Deviate(SquaredDeviations(values, mean), TileOf(values), mean)
  {
    if values != [] {
      DeviationsFromTile(values[..|values| - 1], mean);
      OneMoreDeviation(SquaredDeviations(values[..|values| - 1], mean), TileOf(values[..|values| - 1]),
                       values[|values| - 1], mean);
    }
  }

  lemma {:induction false} SumIsKept(values: seq<real>)
    ensures TileOf(values).sum == SumOf(values)
  {
    if values != [] {
      SumIsKept(values[..|values| - 1]);
    }
  }

  lemma VarianceScales(n: real, s: real, q: real, mean: real)
    requires n >= 1.0 && mean == s / n
    ensures n * mean == s && n * (q / n - mean * mean) == q - 2.0 * (mean * s) + n * (mean * mean)
  {
    Divided(s, n);
    Divided(q, n);
    assert mean * s == n * (mean * mean) by {
      assert mean * (n * mean) == n * (mean * mean);
    }
    assert n * (q / n - mean * mean) == n * (q / n) - n * (mean * mean);
  }

  /** Mean and variance of a reachable tile: the variance is the mean squared deviation from the mean. */
  lemma VarianceIsMeanDeviation(t: Tile, deviations: real)
    requires t.count > 0 && Bounded(t) && Deviate(deviations, t, t.sum / t.count as real)
    ensures var a := Finished(t);
            a.mean.Some? && t.count as real * a.mean.value == t.sum && t.count as real * a.variance == deviations
  {
    VarianceNeedsNoFloor(t);
    VarianceScales(t.count as real, t.sum, t.sumOfSquares, t.sum / t.count as real);
  }

  /** What the finished aggregate says of finite values: their count, their sum, and attained extremes. */
  lemma FinishedIsExact(values: seq<real>)
    requires values != [] && forall i | 0 <= i < |values| :: Finite(values[i])
    ensures var a := Finished(TileOf(values));
            && a.count == |values| && a.sum == SumOf(values)
            && a.min.Some? && a.min.value in values && a.max.Some? && a.max.value in values
            && forall i | 0 <= i < |values| :: a.min.value <= values[i] <= a.max.value
  {
    TileInRange(values);
    SumIsKept(values);
    ExtremesAreExact(values);
  }

  /** And its mean and variance: the sum over the count, and the mean squared deviation from that mean. */
  lemma MeanAndVarianceAreExact(t: Tile, values: seq<real>)
    requires t == TileOf(values) && t.count > 0
    ensures var a := Finished(t);
            && a.mean.Some? && t.count as real * a.mean.value == t.sum
            && t.count as real * a.variance == SquaredDeviations(values, a.mean.value)
  {
    var mean := t.sum / t.count as real;
    CauchySchwarz(values);
    DeviationsFromTile(values, mean);
    VarianceIsMeanDeviation(t, SquaredDeviations(values, mean));
  }

  lemma Divided(x: real, n: real)
    requires n >= 1.0
    ensures n * (x / n) == x
  {
  }

  lemma MeanOfSquares(n: real, s: real, q: real, mean: real, mean2: real)
    requires n >= 1.0 && n * q >= s * s && n * mean == s && n * mean2 == q
    ensures mean2 - mean * mean >= 0.0
  {
    var x := mean2 - mean * mean;
    assert s * s == n * (n * (mean * mean)) by {
      assert (n * mean) * (n * mean) == n * (n * (mean * mean));
    }
    assert n * q == n * (n * mean2);
    assert n * x == n * mean2 - n * (mean * mean);
    assert n * (n * x) == n * (n * mean2) - n * (n * (mean * mean));
    NotNegative(n, n * x);
    NotNegative(n, x);
  }
}
