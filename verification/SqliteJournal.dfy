/** The SQLite journal: one transaction per batch, keyset pages, the rowid tail (src/sqlite/journal.ts). */
module SqliteJournal {
  import opened Prelude
  import opened TextOrder

  type Payload(==, !new)

  /** Primary key: persistence id and sequence number. */
  datatype Row = Row(rowid: nat, pid: string, sequenceNr: nat, manifest: string, payload: Payload)

  datatype Key = Key(pid: string, sequenceNr: nat)

  function KeyOf(r: Row): Key {
    Key(r.pid, r.sequenceNr)
  }

  predicate KeyLess(a: Key, b: Key) {
    Less(a.pid, b.pid) || (a.pid == b.pid && a.sequenceNr < b.sequenceNr)
  }

  lemma KeyLessChains(a: Key, b: Key, c: Key)
    requires KeyLess(a, b) && KeyLess(b, c)
    ensures KeyLess(a, c)
  {
    if Less(a.pid, b.pid) && Less(b.pid, c.pid) {
      LessChains(a.pid, b.pid, c.pid);
    }
  }

  lemma KeyLessIsTotal(a: Key, b: Key)
    ensures KeyLess(a, b) || a == b || KeyLess(b, a)
    ensures !(KeyLess(a, b) && KeyLess(b, a)) && !KeyLess(a, a)
  {
    LessIsTotal(a.pid, b.pid);
    LessIsStrict(a.pid);
    LessIsStrict(b.pid);
    if KeyLess(a, b) && KeyLess(b, a) {
      KeyLessChains(a, b, a);
    }
  }

  // ---- Queries over the table ----

  type Filter = Row -> bool

  function Where(rows: seq<Row>, f: Filter): seq<Row> {
    if rows == [] then [] else
      var front := Where(rows[..|rows| - 1], f);
      if f(rows[|rows| - 1]) then front + [rows[|rows| - 1]] else front
  }

  /** Insertion in key order. */
  function Place(sorted: seq<Row>, r: Row): seq<Row> {
    if sorted == [] then [r]
    else if KeyLess(KeyOf(sorted[|sorted| - 1]), KeyOf(r)) then sorted + [r]
    else Place(sorted[..|sorted| - 1], r) + [sorted[|sorted| - 1]]
  }

  function OrderByKey(rows: seq<Row>): seq<Row> {
    if rows == [] then [] else Place(OrderByKey(rows[..|rows| - 1]), rows[|rows| - 1])
  }

  ghost predicate Ascending(rows: seq<Row>) {
    forall i, j | 0 <= i < j < |rows| :: KeyLess(KeyOf(rows[i]), KeyOf(rows[j]))
  }

  ghost predicate UniqueKeys(rows: seq<Row>) {
    forall i, j | 0 <= i < j < |rows| :: KeyOf(rows[i]) != KeyOf(rows[j])
  }

  predicate Holds(rows: seq<Row>, key: Key) {
    exists i :: 0 <= i < |rows| && KeyOf(rows[i]) == key
  }

  /** SELECT with a condition, in key order, at most `limit` rows. */
  function Page(table: seq<Row>, f: Filter, limit: nat): (page: seq<Row>)
    ensures |page| <= limit
  {
    var rows := Where(OrderByKey(table), f);
    if |rows| <= limit then rows else rows[..limit]
  }

  /** The unpaged sorted query. */
  function Query(table: seq<Row>, f: Filter): seq<Row> {
    Where(OrderByKey(table), f)
  }

  lemma {:induction false} PlaceIsAscending(sorted: seq<Row>, r: Row)
    requires Ascending(sorted) && !Holds(sorted, KeyOf(r))
    ensures Ascending(Place(sorted, r))
    ensures forall x :: x in Place(sorted, r) <==> x in sorted || x == r
  {
    if sorted != [] {
      var front, last := sorted[..|sorted| - 1], sorted[|sorted| - 1];
      assert sorted == front + [last];
      KeyLessIsTotal(KeyOf(last), KeyOf(r));
      if KeyLess(KeyOf(last), KeyOf(r)) {
        LastIsGreatest(sorted, r);
      } else {
        assert forall i | 0 <= i < |front| :: front[i] == sorted[i];
        PlaceIsAscending(front, r);
        assert KeyLess(KeyOf(r), KeyOf(last));
        BelowLast(Place(front, r), front, r, last);
      }
    }
  }

  lemma LastIsGreatest(sorted: seq<Row>, r: Row)
    requires Ascending(sorted) && sorted != [] && KeyLess(KeyOf(sorted[|sorted| - 1]), KeyOf(r))
    ensures Ascending(sorted + [r])
  {
    forall i | 0 <= i < |sorted| ensures KeyLess(KeyOf(sorted[i]), KeyOf(r)) {
      if i < |sorted| - 1 {
        KeyLessChains(KeyOf(sorted[i]), KeyOf(sorted[|sorted| - 1]), KeyOf(r));
      }
    }
  }

  lemma BelowLast(placed: seq<Row>, front: seq<Row>, r: Row, last: Row)
    requires Ascending(placed) && (forall x :: x in placed <==> x in front || x == r)
    requires KeyLess(KeyOf(r), KeyOf(last)) && forall x | x in front :: KeyLess(KeyOf(x), KeyOf(last))
    ensures Ascending(placed + [last])
  {
    assert forall i | 0 <= i < |placed| :: placed[i] in placed;
  }

  lemma KeyIsNew(rows: seq<Row>, sorted: seq<Row>, r: Row)
    requires (forall x :: x in sorted <==> x in rows) && forall i | 0 <= i < |rows| :: KeyOf(rows[i]) != KeyOf(r)
    ensures !Holds(sorted, KeyOf(r))
  {
    forall i | 0 <= i < |sorted| ensures KeyOf(sorted[i]) != KeyOf(r) {
      assert sorted[i] in rows;
    }
  }

  lemma {:induction false} OrderIsAscending(rows: seq<Row>)
    requires UniqueKeys(rows)
    ensures Ascending(OrderByKey(rows))
    ensures forall x :: x in OrderByKey(rows) <==> x in rows
  {
    if rows != [] {
      var front, last := rows[..|rows| - 1], rows[|rows| - 1];
      OrderIsAscending(front);
      KeyIsNew(front, OrderByKey(front), last);
      PlaceIsAscending(OrderByKey(front), last);
      assert rows == front + [last];
    }
  }

  lemma {:induction false} WhereHolds(rows: seq<Row>, f: Filter)
    ensures forall x :: x in Where(rows, f) <==> x in rows && f(x)
  {
    if rows != [] {
      WhereHolds(rows[..|rows| - 1], f);
      assert rows == rows[..|rows| - 1] + [rows[|rows| - 1]];
    }
  }

  lemma {:induction false} WhereIsAscending(rows: seq<Row>, f: Filter)
    requires Ascending(rows)
    ensures Ascending(Where(rows, f))
  {
    if rows != [] {
      var front := rows[..|rows| - 1];
      WhereIsAscending(front, f);
      WhereHolds(front, f);
      forall i | 0 <= i < |Where(front, f)| ensures Where(front, f)[i] in front {
        assert Where(front, f)[i] in Where(front, f);
      }
    }
  }

  /** The unpaged query lists exactly the matching rows, each once, in key order. */
  lemma QueryIsExact(table: seq<Row>, f: Filter)
    requires UniqueKeys(table)
    ensures Ascending(Query(table, f)) && forall x :: x in Query(table, f) <==> x in table && f(x)
  {
    OrderIsAscending(table);
    WhereHolds(OrderByKey(table), f);
    WhereIsAscending(OrderByKey(table), f);
  }

  // ---- A page continues where the cursor stands ----

  function After(f: Filter, cursor: Key): Filter {
    (r: Row) => f(r) && KeyLess(cursor, KeyOf(r))
  }

  /** In an ascending list, what lies above a row is what follows it. */
  lemma {:induction false} AboveRow(rows: seq<Row>, f: Filter, k: nat)
    requires Ascending(rows) && k < |Where(rows, f)|
    ensures Where(rows, After(f, KeyOf(Where(rows, f)[k]))) == Where(rows, f)[k + 1..]
  {
    var front, last := rows[..|rows| - 1], rows[|rows| - 1];
    var key := KeyOf(Where(rows, f)[k]);
    WhereHolds(front, f);
    if f(last) && k == |Where(front, f)| {
      assert key == KeyOf(last);
      NoneAbove(front, f, key);
      KeyLessIsTotal(key, key);
    } else {
      AboveRow(front, f, k);
      if f(last) {
        assert Where(front, f)[k] in Where(front, f);
        var i :| 0 <= i < |front| && front[i] == Where(front, f)[k];
        assert KeyLess(KeyOf(rows[i]), KeyOf(rows[|rows| - 1]));
      }
    }
  }

  lemma {:induction false} NoneAbove(rows: seq<Row>, f: Filter, key: Key)
    requires forall i | 0 <= i < |rows| :: KeyLess(KeyOf(rows[i]), key)
    ensures Where(rows, After(f, key)) == []
  {
    if rows != [] {
      NoneAbove(rows[..|rows| - 1], f, key);
      KeyLessIsTotal(KeyOf(rows[|rows| - 1]), key);
    }
  }

  /** The cursor moved to a matching row: what the next page sees is what follows that row. */
  lemma CursorMoves(table: seq<Row>, f: Filter, cursor: Key, n: nat)
    requires UniqueKeys(table) && 0 < n <= |Query(table, After(f, cursor))|
    ensures var rows := Query(table, After(f, cursor));
            Query(table, After(f, KeyOf(rows[n - 1]))) == rows[n..]
  {
    var rows := Query(table, After(f, cursor));
    var key := KeyOf(rows[n - 1]);
    OrderIsAscending(table);
    AboveRow(OrderByKey(table), After(f, cursor), n - 1);
    WhereHolds(OrderByKey(table), After(f, cursor));
    assert rows[n - 1] in rows;
    assert KeyLess(cursor, key);
    NestedAfter(OrderByKey(table), f, cursor, key);
  }

  lemma {:induction false} NestedAfter(rows: seq<Row>, f: Filter, cursor: Key, key: Key)
    requires KeyLess(cursor, key)
    ensures Where(rows, After(After(f, cursor), key)) == Where(rows, After(f, key))
  {
    if rows != [] {
      NestedAfter(rows[..|rows| - 1], f, cursor, key);
      if KeyLess(key, KeyOf(rows[|rows| - 1])) {
        KeyLessChains(cursor, key, KeyOf(rows[|rows| - 1]));
      }
    }
  }

  function OfEntity(pid: string): Filter {
    (r: Row) => r.pid == pid
  }

  /** An entity's later events, page by page: the same rows as the unpaged query. */
  method LoadEvents(table: seq<Row>, pid: string, fromSequenceNr: nat, pageSize: nat) returns (out: seq<Row>)
    requires UniqueKeys(table) && pageSize >= 1
    ensures out == Query(table, After(OfEntity(pid), Key(pid, fromSequenceNr)))
  {
    out := [];
    var cursor := fromSequenceNr;
    ghost var all := Query(table, After(OfEntity(pid), Key(pid, fromSequenceNr)));
    while true
      invariant out + Query(table, After(OfEntity(pid), Key(pid, cursor))) == all
      decreases |Query(table, After(OfEntity(pid), Key(pid, cursor)))|
    {
      var rows := Page(table, After(OfEntity(pid), Key(pid, cursor)), pageSize);
      out := out + rows;
      if |rows| < pageSize {
        return;
      }
      PageAdvances(table, OfEntity(pid), Key(pid, cursor), rows, pageSize, out[..|out| - |rows|], all);
      cursor := rows[|rows| - 1].sequenceNr;
    }
  }

  /** A full page moves its rows from what is left to what is out. */
  lemma PageAdvances(table: seq<Row>, f: Filter, cursor: Key, rows: seq<Row>, pageSize: nat, out: seq<Row>,
                     all: seq<Row>)
    requires UniqueKeys(table) && pageSize >= 1 && |rows| == pageSize && rows == Page(table, After(f, cursor), pageSize)
    requires out + Query(table, After(f, cursor)) == all
    ensures (out + rows) + Query(table, After(f, KeyOf(rows[|rows| - 1]))) == all
    ensures |Query(table, After(f, KeyOf(rows[|rows| - 1])))| < |Query(table, After(f, cursor))|
    ensures f(rows[|rows| - 1])
  {
    var left := Query(table, After(f, cursor));
    CursorMoves(table, f, cursor, pageSize);
    assert left == rows + left[pageSize..];
    Regroup(out, rows, left[pageSize..]);
    QueryIsExact(table, After(f, cursor));
    assert rows[|rows| - 1] in left;
  }

  /** A category's events, page by page on the composite key. */
  method AllEvents(table: seq<Row>, category: Filter, pageSize: nat) returns (out: seq<Row>)
    requires UniqueKeys(table) && pageSize >= 1
    requires forall i | 0 <= i < |table| :: table[i].pid != ""
    ensures out == Query(table, category)
  {
    out := [];
    var curPid, curSeq := "", 0;
    FromTheStart(table, category);
    ghost var all := Query(table, category);
    while true
      invariant out + Query(table, After(category, Key(curPid, curSeq))) == all
      decreases |Query(table, After(category, Key(curPid, curSeq)))|
    {
      var rows := Page(table, After(category, Key(curPid, curSeq)), pageSize);
      out := out + rows;
      if |rows| < pageSize {
        return;
      }
      PageAdvances(table, category, Key(curPid, curSeq), rows, pageSize, out[..|out| - |rows|], all);
      var last := rows[|rows| - 1];
      curPid, curSeq := last.pid, last.sequenceNr;
    }
  }

  lemma FromTheStart(table: seq<Row>, f: Filter)
    requires UniqueKeys(table) && forall i | 0 <= i < |table| :: table[i].pid != ""
    ensures Query(table, After(f, Key("", 0))) == Query(table, f)
  {
    OrderIsAscending(table);
    forall i | 0 <= i < |OrderByKey(table)| ensures OrderByKey(table)[i].pid != "" {
      assert OrderByKey(table)[i] in table;
    }
    AllAbove(OrderByKey(table), f);
  }

  lemma {:induction false} AllAbove(rows: seq<Row>, f: Filter)
    requires forall i | 0 <= i < |rows| :: rows[i].pid != ""
    ensures Where(rows, After(f, Key("", 0))) == Where(rows, f)
  {
    if rows != [] {
      AllAbove(rows[..|rows| - 1], f);
    }
  }

  // ---- One transaction per batch ----

  datatype Write = Written(sequenceNr: nat) | DuplicateSequenceNr(sequenceNr: nat)

  datatype NewEvent = NewEvent(manifest: string, payload: Payload)

  function RowsOf(pid: string, events: seq<NewEvent>, start: nat, rowid: nat): (rows: seq<Row>)
    ensures |rows| == |events|
  {
    seq(|events|, i requires 0 <= i < |events| =>
        Row(rowid + i + 1, pid, start + i + 1, events[i].manifest, events[i].payload))
  }

  /** Rowids grow in insertion order. */
  ghost predicate Inserted(table: seq<Row>, last: nat) {
    (forall i, j | 0 <= i < j < |table| :: table[i].rowid < table[j].rowid) && forall i | 0 <= i < |table| ::
        table[i].rowid <= last
  }

  ghost predicate Sound(table: seq<Row>, last: nat) {
    UniqueKeys(table) && Inserted(table, last)
  }

  lemma InsertKeepsSound(table: seq<Row>, last: nat, r: Row)
    requires Sound(table, last) && r.rowid == last + 1 && !Holds(table, KeyOf(r))
    ensures Sound(table + [r], last + 1)
  {
  }

  /** Behind the old rows lies one row per event of the batch, in order. */
  ghost predicate StoresBatch(table: seq<Row>, table': seq<Row>, pid: string, start: nat, events: seq<NewEvent>) {
    && |table'| == |table| + |events| && table <= table'
    && forall i | 0 <= i < |events| :: IsEvent(table'[|table| + i], pid, start + i + 1, events[i])
  }

  ghost predicate IsEvent(r: Row, pid: string, sequenceNr: nat, event: NewEvent) {
    KeyOf(r) == Key(pid, sequenceNr) && r.manifest == event.manifest && r.payload == event.payload
  }

  lemma LastIsAlone(rows: seq<Row>)
    requires Ascending(rows) && rows != []
    ensures forall x :: x in rows[..|rows| - 1] <==> x in rows && x != rows[|rows| - 1]
  {
    var front, last := rows[..|rows| - 1], rows[|rows| - 1];
    assert rows == front + [last];
    KeyLessIsTotal(KeyOf(last), KeyOf(last));
    forall i | 0 <= i < |front| ensures front[i] != last {
      assert KeyLess(KeyOf(rows[i]), KeyOf(last));
    }
  }

  /** A strictly ascending list is determined by its rows. */
  lemma {:induction false} AscendingIsUnique(a: seq<Row>, b: seq<Row>)
    requires Ascending(a) && Ascending(b) && forall x :: x in a <==> x in b
    ensures a == b
  {
    if a == [] {
      FirstIsIn(b);
    } else {
      var front, last := a[..|a| - 1], a[|a| - 1];
      assert last in b && b[|b| - 1] in a;
      KeyLessIsTotal(KeyOf(last), KeyOf(b[|b| - 1]));
      assert last == b[|b| - 1];
      LastIsAlone(a);
      LastIsAlone(b);
      forall x ensures x in front <==> x in b[..|b| - 1] {
        assert x in a <==> x in b;
      }
      AscendingIsUnique(front, b[..|b| - 1]);
      assert a == front + [last];
    }
  }

  /** What was written at the end of an entity's rows is loaded back from where it starts: exactly the batch, in
      order. */
  lemma WrittenIsLoaded(table: seq<Row>, table': seq<Row>, pid: string, start: nat, events: seq<NewEvent>)
    requires UniqueKeys(table') && StoresBatch(table, table', pid, start, events)
    requires forall i | 0 <= i < |table| && table[i].pid == pid :: table[i].sequenceNr <= start
    ensures var loaded := Query(table', After(OfEntity(pid), Key(pid, start)));
            |loaded| == |events| && forall i | 0 <= i < |events| :: IsEvent(loaded[i], pid, start + i + 1, events[i])
  {
    var f, batch := After(OfEntity(pid), Key(pid, start)), table'[|table|..];
    LessIsStrict(pid);
    QueryIsExact(table', f);
    forall i | 0 <= i < |batch| ensures IsEvent(batch[i], pid, start + i + 1, events[i]) {
      assert batch[i] == table'[|table| + i];
    }
    assert Ascending(batch);
    assert forall i | 0 <= i < |table| :: !f(table'[i]) by {
      assert forall i | 0 <= i < |table| :: table'[i] == table[i];
    }
    forall x ensures x in Query(table', f) <==> x in batch {
      if x in table' && f(x) {
        var i :| 0 <= i < |table'| && table'[i] == x;
        assert batch[i - |table|] == x;
      }
    }
    AscendingIsUnique(Query(table', f), batch);
  }

  class SqliteJournal {
    var table: seq<Row>
    var lastRowid: nat

    constructor ()
      ensures Valid() && table == [] && lastRowid == 0
    {
      table, lastRowid := [], 0;
    }

    ghost predicate Valid()
      reads this
    {
      Sound(table, lastRowid)
    }

    /** The first taken key rolls the whole batch back. */
    method PersistEvents(pid: string, events: seq<NewEvent>, start: nat) returns (r: Write)
      requires Valid()
      modifies this
      ensures Valid()
      ensures r.Written? ==> r.sequenceNr == start + |events|
                             && table == old(table) + RowsOf(pid, events, start, old(lastRowid))
                             && StoresBatch(old(table), table, pid, start, events)
      ensures r.DuplicateSequenceNr? ==> table == old(table) && lastRowid == old(lastRowid)
      ensures r.DuplicateSequenceNr? ==> start < r.sequenceNr <= start + |events|
                                         && FirstTaken(table, pid, start, r.sequenceNr)
    {
      var rows := RowsOf(pid, events, start, lastRowid);
      if |events| == 0 {
        assert table + rows == table;
        return Written(start);
      }
      var working, taken := InsertAll(table, lastRowid, rows, pid, start);
      if taken.Some? {
        return DuplicateSequenceNr(taken.value);
      }
      table, lastRowid := working, lastRowid + |rows|;
      return Written(start + |events|);
    }
  }

  /** The first number after `start` whose key is taken. */
  ghost predicate FirstTaken(table: seq<Row>, pid: string, start: nat, n: nat) {
    start < n && Holds(table, Key(pid, n)) && forall k | start < k < n :: !Holds(table, Key(pid, k))
  }

  predicate NumberedFrom(rows: seq<Row>, pid: string, start: nat, last: nat) {
    forall j | 0 <= j < |rows| :: KeyOf(rows[j]) == Key(pid, start + j + 1) && rows[j].rowid == last + j + 1
  }

  /** Inserts row by row; the collision reported is the first in event order. */
  method InsertAll(table: seq<Row>, last: nat, rows: seq<Row>, pid: string, start: nat)
      returns (working: seq<Row>, taken: Option<nat>)
    requires Sound(table, last) && NumberedFrom(rows, pid, start, last)
    ensures taken.None? ==> working == table + rows && Sound(working, last + |rows|)
    ensures taken.Some? ==> taken.value <= start + |rows| && FirstTaken(table, pid, start, taken.value)
  {
    working := table;
    var i := 0;
    while i < |rows|
      invariant 0 <= i <= |rows|
      invariant working == table + rows[..i] && Sound(working, last + i)
      invariant forall n | start < n <= start + i :: !Holds(table, Key(pid, n))
    {
      if Holds(working, KeyOf(rows[i])) {
        HeldBefore(table, rows, i, pid, start);
        return working, Some(start + i + 1);
      }
      NotHeld(table, rows[..i], KeyOf(rows[i]));
      InsertKeepsSound(working, last + i, rows[i]);
      assert rows[..i + 1] == rows[..i] + [rows[i]];
      Regroup(table, rows[..i], [rows[i]]);
      working := working + [rows[i]];
      i := i + 1;
    }
    assert rows[..i] == rows;
    return working, None;
  }

  lemma HeldBefore(table: seq<Row>, rows: seq<Row>, i: nat, pid: string, start: nat)
    requires i < |rows| && (forall j | 0 <= j < |rows| :: KeyOf(rows[j]) == Key(pid, start + j + 1))
    requires Holds(table + rows[..i], KeyOf(rows[i]))
    ensures Holds(table, Key(pid, start + i + 1))
  {
    var j :| 0 <= j < |table + rows[..i]| && KeyOf((table + rows[..i])[j]) == KeyOf(rows[i]);
    assert j < |table|;
  }

  lemma NotHeld(table: seq<Row>, more: seq<Row>, key: Key)
    requires !Holds(table + more, key)
    ensures !Holds(table, key)
  {
    forall i | 0 <= i < |table| ensures KeyOf(table[i]) != key {
      assert (table + more)[i] == table[i];
    }
  }

  // ---- The rowid tail ----

  function Beyond(f: Filter, cursor: nat): Filter {
    (r: Row) => f(r) && r.rowid > cursor
  }

  function Between(f: Filter, from: nat, to: nat): Filter {
    (r: Row) => f(r) && from < r.rowid <= to
  }

  /** SELECT with a condition, in rowid order, at most `limit` rows. */
  function RowidPage(table: seq<Row>, f: Filter, limit: nat): (page: seq<Row>)
    ensures |page| <= limit
  {
    var rows := Where(table, f);
    if |rows| <= limit then rows else rows[..limit]
  }

  lemma {:induction false} WhereConcat(a: seq<Row>, b: seq<Row>, f: Filter)
    ensures Where(a + b, f) == Where(a, f) + Where(b, f)
  {
    if b == [] {
      assert a + b == a;
    } else {
      WhereConcat(a, b[..|b| - 1], f);
      assert (a + b)[..|a + b| - 1] == a + b[..|b| - 1];
    }
  }

  lemma {:induction false} NoneBetween(rows: seq<Row>, f: Filter, from: nat, to: nat)
    requires forall i | 0 <= i < |rows| :: rows[i].rowid > to
    ensures Where(rows, Between(f, from, to)) == []
  {
    if rows != [] {
      NoneBetween(rows[..|rows| - 1], f, from, to);
    }
  }

  ghost predicate RowidsAscend(table: seq<Row>) {
    forall i, j | 0 <= i < j < |table| :: table[i].rowid < table[j].rowid
  }

  /** Adjoining ranges join. */
  lemma {:induction false} RangesJoin(table: seq<Row>, f: Filter, from: nat, middle: nat, to: nat)
    requires RowidsAscend(table) && from <= middle <= to
    ensures Where(table, Between(f, from, middle)) + Where(table, Between(f, middle, to))
            == Where(table, Between(f, from, to))
  {
    if table != [] {
      var front, last := table[..|table| - 1], table[|table| - 1];
      RangesJoin(front, f, from, middle, to);
      if f(last) && from < last.rowid <= middle {
        NothingAfter(front, f, middle, to, last.rowid);
      }
    }
  }

  lemma {:induction false} NothingAfter(rows: seq<Row>, f: Filter, middle: nat, to: nat, rowid: nat)
    requires rowid <= middle && forall i | 0 <= i < |rows| :: rows[i].rowid < rowid
    ensures Where(rows, Between(f, middle, to)) == []
  {
    if rows != [] {
      NothingAfter(rows[..|rows| - 1], f, middle, to, rowid);
    }
  }

  /** The first rows beyond a cursor are the rows up to the last of them. */
  lemma {:induction false} PageIsRange(table: seq<Row>, f: Filter, cursor: nat, n: nat)
    requires RowidsAscend(table) && 0 < n <= |Where(table, Beyond(f, cursor))|
    ensures var rows := Where(table, Beyond(f, cursor));
            cursor < rows[n - 1].rowid && rows[n - 1] in table
                && Where(table, Between(f, cursor, rows[n - 1].rowid)) == rows[..n]
  {
    var front, last := table[..|table| - 1], table[|table| - 1];
    var rows := Where(table, Beyond(f, cursor));
    if n <= |Where(front, Beyond(f, cursor))| {
      PageIsRange(front, f, cursor, n);
      assert rows[n - 1] in front;
    } else {
      assert rows == Where(front, Beyond(f, cursor)) + [last] && n == |rows|;
      AllUpTo(front, f, cursor, last.rowid);
    }
  }

  lemma {:induction false} AllUpTo(rows: seq<Row>, f: Filter, cursor: nat, to: nat)
    requires forall i | 0 <= i < |rows| :: rows[i].rowid <= to
    ensures Where(rows, Between(f, cursor, to)) == Where(rows, Beyond(f, cursor))
  {
    if rows != [] {
      AllUpTo(rows[..|rows| - 1], f, cursor, to);
    }
  }

  /** A tail between two yields: the rows fetched but not yet handed out, and those handed out. */
  datatype Tail = Tail(cursor: nat, fetched: seq<Row>, emitted: seq<Row>)

  /** The rowid read up to. */
  function ReadUpTo(tail: Tail): nat {
    if tail.fetched == [] then tail.cursor else tail.fetched[|tail.fetched| - 1].rowid
  }

  /** The emitted rows are exactly the matching rows up to the cursor, the fetched ones exactly those from there on
      up to the last one read. */
  ghost predicate Exact(table: seq<Row>, last: nat, f: Filter, start: nat, tail: Tail) {
    && start <= tail.cursor <= ReadUpTo(tail) && (ReadUpTo(tail) == start || ReadUpTo(tail) <= last)
    && tail.emitted == Where(table, Between(f, start, tail.cursor))
    && tail.fetched == Where(table, Between(f, tail.cursor, ReadUpTo(tail)))
  }

  /** So together they are, once and in order, the matching rows that were read. */
  lemma ExactMeansRead(table: seq<Row>, last: nat, f: Filter, start: nat, tail: Tail)
    requires Inserted(table, last) && Exact(table, last, f, start, tail)
    ensures tail.emitted + tail.fetched == Where(table, Between(f, start, ReadUpTo(tail)))
  {
    RangesJoin(table, f, start, tail.cursor, ReadUpTo(tail));
  }

  lemma {:induction false} SameRange(rows: seq<Row>, f: Filter, cursor: nat, to: nat, to': nat)
    requires forall i | 0 <= i < |rows| :: rows[i].rowid <= to && rows[i].rowid <= to'
    ensures Where(rows, Between(f, cursor, to)) == Where(rows, Between(f, cursor, to'))
  {
    if rows != [] {
      SameRange(rows[..|rows| - 1], f, cursor, to, to');
    }
  }

  /** The first row of a range is the whole range up to it. */
  lemma {:induction false} FirstOfRange(table: seq<Row>, f: Filter, cursor: nat, to: nat)
    requires RowidsAscend(table) && Where(table, Between(f, cursor, to)) != []
    ensures var first := Where(table, Between(f, cursor, to))[0];
            && first in table && f(first) && cursor < first.rowid <= to
            && Where(table, Between(f, cursor, first.rowid)) == [first]
            && forall i | 0 <= i < |table| && f(table[i]) && table[i].rowid > cursor :: table[i].rowid >= first.rowid
  {
    var front, last := table[..|table| - 1], table[|table| - 1];
    if Where(front, Between(f, cursor, to)) != [] {
      FirstOfRange(front, f, cursor, to);
    } else {
      SameRange(front, f, cursor, to, last.rowid);
      NoneMeansBelow(front, f, cursor, to);
    }
  }

  lemma {:induction false} NoneMeansBelow(rows: seq<Row>, f: Filter, cursor: nat, to: nat)
    requires Where(rows, Between(f, cursor, to)) == []
    ensures forall i | 0 <= i < |rows| && f(rows[i]) && rows[i].rowid > cursor :: rows[i].rowid > to
  {
    if rows != [] {
      NoneMeansBelow(rows[..|rows| - 1], f, cursor, to);
    }
  }

  function Fetched(table: seq<Row>, f: Filter, pageSize: nat, tail: Tail): Tail {
    tail.(fetched := RowidPage(table, Beyond(f, tail.cursor), pageSize))
  }

  function Emitted(tail: Tail): Tail
    requires tail.fetched != []
  {
    Tail(tail.fetched[0].rowid, tail.fetched[1..], tail.emitted + [tail.fetched[0]])
  }

  lemma EmitKeeps(table: seq<Row>, last: nat, f: Filter, start: nat, tail: Tail)
    requires Inserted(table, last) && Exact(table, last, f, start, tail) && tail.fetched != []
    ensures Exact(table, last, f, start, Emitted(tail))
  {
    var first, to := tail.fetched[0].rowid, ReadUpTo(tail);
    FirstOfRange(table, f, tail.cursor, to);
    RangesJoin(table, f, start, tail.cursor, first);
    RangesJoin(table, f, tail.cursor, first, to);
    assert Where(table, Between(f, first, to)) == tail.fetched[1..];
    if |tail.fetched| == 1 {
      assert ReadUpTo(Emitted(tail)) == to;
    }
  }

  lemma RangeStays(table: seq<Row>, last: nat, f: Filter, from: nat, to: nat, more: seq<Row>)
    requires from == to || to <= last
    requires forall i | 0 <= i < |more| :: more[i].rowid > last
    ensures Where(table + more, Between(f, from, to)) == Where(table, Between(f, from, to))
  {
    WhereConcat(table, more, Between(f, from, to));
    if to <= last {
      NoneBetween(more, f, from, to);
    } else {
      EmptyRange(more, f, from);
    }
    assert Where(table, Between(f, from, to)) + [] == Where(table, Between(f, from, to));
  }

  lemma AppendKeeps(table: seq<Row>, last: nat, f: Filter, start: nat, tail: Tail, more: seq<Row>)
    requires Exact(table, last, f, start, tail) && forall i | 0 <= i < |more| :: more[i].rowid > last
    ensures forall last' | last' >= last :: Exact(table + more, last', f, start, tail)
  {
    RangeStays(table, last, f, start, tail.cursor, more);
    RangeStays(table, last, f, tail.cursor, ReadUpTo(tail), more);
  }

  lemma {:induction false} EmptyRange(rows: seq<Row>, f: Filter, start: nat)
    ensures Where(rows, Between(f, start, start)) == []
  {
    if rows != [] {
      EmptyRange(rows[..|rows| - 1], f, start);
    }
  }

  lemma FetchKeeps(table: seq<Row>, last: nat, f: Filter, start: nat, tail: Tail, pageSize: nat)
    requires Inserted(table, last) && Exact(table, last, f, start, tail) && tail.fetched == [] && pageSize >= 1
    ensures Exact(table, last, f, start, Fetched(table, f, pageSize, tail))
  {
    var rows := Where(table, Beyond(f, tail.cursor));
    var page := RowidPage(table, Beyond(f, tail.cursor), pageSize);
    if page != [] {
      PageIsRange(table, f, tail.cursor, |page|);
      assert page == rows[..|page|];
    }
  }

  /** A short page means that everything was read. */
  lemma ShortPageCatchesUp(table: seq<Row>, last: nat, f: Filter, start: nat, tail: Tail, pageSize: nat)
    requires Inserted(table, last) && Exact(table, last, f, start, tail) && tail.fetched == [] && pageSize >= 1
    requires |Fetched(table, f, pageSize, tail).fetched| < pageSize
    ensures var tail' := Fetched(table, f, pageSize, tail);
            tail'.emitted + tail'.fetched == Where(table, Beyond(f, start))
  {
    AllUpTo(table, f, start, Max(tail.cursor, last));
    AllUpTo(table, f, tail.cursor, Max(tail.cursor, last));
    RangesJoin(table, f, start, tail.cursor, Max(tail.cursor, last));
  }

  datatype Step = Appends(more: seq<Row>) | Fetches(pageSize: nat) | Emits

  datatype System = System(table: seq<Row>, last: nat, tail: Tail)

  /** Batches are appended at any time, between pages and between yields. */
  ghost predicate Next(f: Filter, s: System, step: Step, s': System) {
    match step
    case Appends(more) =>
      && (forall i | 0 <= i < |more| :: more[i].rowid == s.last + i + 1)
      && s' == s.(table := s.table + more, last := s.last + |more|)
    case Fetches(pageSize) => s.tail.fetched == [] && pageSize >= 1
                              && s' == s.(tail := Fetched(s.table, f, pageSize, s.tail))
    case Emits => s.tail.fetched != [] && s' == s.(tail := Emitted(s.tail))
  }

  lemma StepKeeps(f: Filter, start: nat, s: System, step: Step, s': System)
    requires Inserted(s.table, s.last) && Exact(s.table, s.last, f, start, s.tail) && Next(f, s, step, s')
    ensures Inserted(s'.table, s'.last) && Exact(s'.table, s'.last, f, start, s'.tail)
  {
    match step
    case Appends(more) => AppendKeeps(s.table, s.last, f, start, s.tail, more);
    case Fetches(pageSize) => FetchKeeps(s.table, s.last, f, start, s.tail, pageSize);
    case Emits => EmitKeeps(s.table, s.last, f, start, s.tail);
  }

  ghost predicate StepAt(f: Filter, run: seq<System>, steps: seq<Step>, i: nat)
    requires |run| == |steps| + 1 && i < |steps|
  {
    Next(f, run[i], steps[i], run[i + 1])
  }

  /** Over every run: what the tail has emitted or holds is exactly, once and in order, the matching
      rows after its start cursor up to the last one read. */
  lemma {:induction false} TailIsExact(f: Filter, start: nat, run: seq<System>, steps: seq<Step>, i: nat)
    requires |run| == |steps| + 1 && Inserted(run[0].table, run[0].last) && run[0].tail == Tail(start, [], [])
    requires forall j: nat | j < |steps| :: StepAt(f, run, steps, j)
    requires i <= |steps|
    ensures Inserted(run[i].table, run[i].last) && Exact(run[i].table, run[i].last, f, start, run[i].tail)
  {
    if i == 0 {
      EmptyRange(run[0].table, f, start);
    } else {
      TailIsExact(f, start, run, steps, i - 1);
      assert StepAt(f, run, steps, i - 1);
      StepKeeps(f, start, run[i - 1], steps[i - 1], run[i]);
    }
  }

  /** The generator behind `tailAllEvents`; `emitted` is what it has yielded. */
  class CategoryTail {
    const category: Filter
    const pageSize: nat
    ghost const start: nat
    var cursor: nat
    var fetched: seq<Row>
    var caughtUp: bool
    ghost var emitted: seq<Row>

    constructor (category: Filter, pageSize: nat, afterGlobalSeq: nat, ghost table: seq<Row>, ghost last: nat)
      requires pageSize >= 1
      ensures this.category == category && this.pageSize == pageSize && start == afterGlobalSeq
      ensures Reads(table, last) && fetched == [] && emitted == []
    {
      this.category, this.pageSize, this.start := category, pageSize, afterGlobalSeq;
      cursor, fetched, caughtUp, emitted := afterGlobalSeq, [], false, [];
      new;
      EmptyRange(table, category, afterGlobalSeq);
    }

    /** Nothing is lost or repeated up to what was read of the table. */
    ghost predicate Reads(table: seq<Row>, last: nat)
      reads this
    {
      pageSize >= 1 && Exact(table, last, category, start, Tail(cursor, fetched, emitted))
    }

    /** Fetches the next page when the last one is used up; a short page is everything there is. */
    method Fetch(table: seq<Row>, ghost last: nat)
      requires Inserted(table, last) && Reads(table, last) && fetched == []
      modifies this`fetched, this`caughtUp
      ensures Reads(table, last) && |fetched| <= pageSize
      ensures caughtUp <==> |fetched| < pageSize
      ensures caughtUp ==> emitted + fetched == Where(table, Beyond(category, start))
    {
      ghost var tail := Tail(cursor, fetched, emitted);
      var rows := RowidPage(table, Beyond(category, cursor), pageSize);
      fetched := rows;
      caughtUp := |rows| < pageSize;
      FetchKeeps(table, last, category, start, tail, pageSize);
      if caughtUp {
        ShortPageCatchesUp(table, last, category, start, tail, pageSize);
      }
    }

    /** Yields the first row of the category behind the cursor, and puts the cursor on it. */
    method Yield(ghost table: seq<Row>, ghost last: nat) returns (r: Row)
      requires Inserted(table, last) && Reads(table, last) && fetched != []
      modifies this`cursor, this`fetched, this`emitted
      ensures Reads(table, last) && emitted == old(emitted) + [r] && cursor == r.rowid
      ensures r in table && category(r) && r.rowid > old(cursor)
      ensures forall i | 0 <= i < |table| && category(table[i]) && table[i].rowid > old(cursor) ::
              table[i].rowid >= r.rowid
    {
      ghost var tail := Tail(cursor, fetched, emitted);
      r := fetched[0];
      cursor, fetched, emitted := r.rowid, fetched[1..], emitted + [r];
      EmitKeeps(table, last, category, start, tail);
      FirstOfRange(table, category, tail.cursor, ReadUpTo(tail));
    }
  }
}
