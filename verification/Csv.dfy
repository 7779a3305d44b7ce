/** Splitting, escaping and tables of comma-separated values (src/ai/file/file-tool.ts:105-163);
    quoting as in section 2 of RFC 4180. */
module Csv {
  import opened Prelude

  const QUOTE: char := '"'
  const NEWLINE: char := '\n'

  /** What JavaScript's trim removes. */
  predicate IsSpace(c: char) {
    || c in {' ', '\t', '\n', '\r'}
        || c as int in {0x0B, 0x0C, 0xA0, 0x1680, 0x2028, 0x2029, 0x202F, 0x205F, 0x3000, 0xFEFF}
    || 0x2000 <= c as int <= 0x200A
  }

  function TrimStart(s: string): string {
    if s != "" && IsSpace(s[0]) then TrimStart(s[1..]) else s
  }

  function TrimEnd(s: string): string {
    if s != "" && IsSpace(s[|s| - 1]) then TrimEnd(s[..|s| - 1]) else s
  }

  function Trim(s: string): string {
    TrimEnd(TrimStart(s))
  }

  predicate Trimmed(s: string) {
    s == "" || (!IsSpace(s[0]) && !IsSpace(s[|s| - 1]))
  }

  lemma {:induction false} TrimStartShortens(s: string)
    ensures |TrimStart(s)| <= |s|
    ensures |TrimStart(s)| == |s| <==> TrimStart(s) == s
    ensures TrimStart(s) == s <==> s == "" || !IsSpace(s[0])
  {
    if s != "" && IsSpace(s[0]) {
      TrimStartShortens(s[1..]);
    }
  }

  lemma {:induction false} TrimEndShortens(s: string)
    ensures |TrimEnd(s)| <= |s|
    ensures TrimEnd(s) == s <==> s == "" || !IsSpace(s[|s| - 1])
  {
    if s != "" && IsSpace(s[|s| - 1]) {
      TrimEndShortens(s[..|s| - 1]);
    }
  }

  lemma TrimKeepsIff(s: string)
    ensures Trim(s) == s <==> Trimmed(s)
  {
    TrimStartShortens(s);
    TrimEndShortens(TrimStart(s));
    TrimEndShortens(s);
  }

  lemma {:induction false} TrimStartKeeps(s: string, k: nat)
    requires k < |s| && !IsSpace(s[k])
    ensures TrimStart(s) != "" && exists j :: 0 <= j < |TrimStart(s)| && !IsSpace(TrimStart(s)[j])
  {
    if IsSpace(s[0]) {
      TrimStartKeeps(s[1..], k - 1);
    } else {
      assert !IsSpace(TrimStart(s)[0]);
    }
  }

  lemma {:induction false} TrimEndKeeps(s: string, k: nat)
    requires k < |s| && !IsSpace(s[k])
    ensures TrimEnd(s) != ""
  {
    if IsSpace(s[|s| - 1]) {
      TrimEndKeeps(s[..|s| - 1], k);
    }
  }

  lemma NotBlank(s: string, k: nat)
    requires k < |s| && !IsSpace(s[k])
    ensures Trim(s) != ""
  {
    TrimStartKeeps(s, k);
    var j :| 0 <= j < |TrimStart(s)| && !IsSpace(TrimStart(s)[j]);
    TrimEndKeeps(TrimStart(s), j);
  }

  // ---- One line ----

  /** What the splitter makes of the rest of a line, in the middle of a field. */
  function SplitRest(line: string, current: string, inQuotes: bool, d: char): seq<string>
    decreases |line|
  {
    if line == "" then [Trim(current)]
    else if inQuotes then
      if line[0] == QUOTE && |line| > 1 && line[1] == QUOTE then SplitRest(line[2..], current + [QUOTE], true, d)
      else if line[0] == QUOTE then SplitRest(line[1..], current, false, d)
      else SplitRest(line[1..], current + [line[0]], true, d)
    else if line[0] == QUOTE then SplitRest(line[1..], current, true, d)
    else if line[0] == d then [Trim(current)] + SplitRest(line[1..], "", false, d)
    else SplitRest(line[1..], current + [line[0]], false, d)
  }

  method SplitCsvLine(line: string, d: char) returns (fields: seq<string>)
    ensures fields == SplitRest(line, "", false, d)
  {
    fields := [];
    var current, inQuotes := "", false;
    var i := 0;
    while i < |line|
      invariant 0 <= i <= |line|
      invariant fields + SplitRest(line[i..], current, inQuotes, d) == SplitRest(line, "", false, d)
    {
      var ch := line[i];
      ghost var rest := line[i..];
      assert rest[1..] == line[i + 1..];
      if inQuotes {
        if ch == QUOTE && i + 1 < |line| && line[i + 1] == QUOTE {
          assert rest[2..] == line[i + 2..];
          current := current + [QUOTE];
          i := i + 1;
        } else if ch == QUOTE {
          inQuotes := false;
        } else {
          current := current + [ch];
        }
      } else if ch == QUOTE {
        inQuotes := true;
      } else if ch == d {
        Regroup(fields, [Trim(current)], SplitRest(line[i + 1..], "", false, d));
        fields := fields + [Trim(current)];
        current := "";
      } else {
        current := current + [ch];
      }
      i := i + 1;
    }
    assert line[i..] == "";
    fields := fields + [Trim(current)];
  }

  /** Every quote twice. */
  function Doubled(v: string): string {
    if v == "" then "" else (if v[0] == QUOTE then [QUOTE, QUOTE] else [v[0]]) + Doubled(v[1..])
  }

  predicate NeedsQuotes(v: string, d: char) {
    d in v || QUOTE in v || NEWLINE in v
  }

  function Escape(v: string, d: char): string {
    if NeedsQuotes(v, d) then [QUOTE] + Doubled(v) + [QUOTE] else v
  }

  function EscapeAll(fields: seq<string>, d: char): (r: seq<string>)
    ensures |r| == |fields|
  {
    if fields == [] then [] else [Escape(fields[0], d)] + EscapeAll(fields[1..], d)
  }

  function TrimAll(fields: seq<string>): (r: seq<string>)
    ensures |r| == |fields|
  {
    if fields == [] then [] else [Trim(fields[0])] + TrimAll(fields[1..])
  }

  function Join(parts: seq<string>, d: char): string {
    if parts == [] then "" else if |parts| == 1 then parts[0] else parts[0] + [d] + Join(parts[1..], d)
  }

  /** A field without delimiter and quote is taken up as it stands. */
  lemma {:induction false} PlainScan(v: string, rest: string, current: string, d: char)
    requires d !in v && QUOTE !in v
    ensures SplitRest(v + rest, current, false, d) == SplitRest(rest, current + v, false, d)
    decreases |v|
  {
    if v == "" {
      assert v + rest == rest && current + v == current;
    } else {
      assert v == [v[0]] + v[1..];
      PlainScan(v[1..], rest, current + [v[0]], d);
      assert (v + rest)[1..] == v[1..] + rest;
      Regroup(current, [v[0]], v[1..]);
    }
  }

  /** Inside quotes, a doubled field up to its closing quote is the field. */
  lemma {:induction false} QuotedScan(v: string, rest: string, current: string, d: char)
    requires rest == "" || rest[0] != QUOTE
    ensures SplitRest(Doubled(v) + [QUOTE] + rest, current, true, d) == SplitRest(rest, current + v, false, d)
    decreases |v|
  {
    var line := Doubled(v) + [QUOTE] + rest;
    if v == "" {
      assert line == [QUOTE] + rest && line[1..] == rest && current + v == current;
    } else {
      assert v == [v[0]] + v[1..];
      QuotedScan(v[1..], rest, current + [v[0]], d);
      Regroup(current, [v[0]], v[1..]);
      if v[0] == QUOTE {
        assert line == [QUOTE, QUOTE] + (Doubled(v[1..]) + [QUOTE] + rest);
        assert line[2..] == Doubled(v[1..]) + [QUOTE] + rest;
      } else {
        assert line == [v[0]] + (Doubled(v[1..]) + [QUOTE] + rest);
        assert line[1..] == Doubled(v[1..]) + [QUOTE] + rest;
      }
    }
  }

  lemma QuotedField(v: string, rest: string, d: char)
    requires rest == "" || rest[0] != QUOTE
    ensures SplitRest([QUOTE] + Doubled(v) + [QUOTE] + rest, "", false, d) == SplitRest(rest, v, false, d)
  {
    var line, inner := [QUOTE] + Doubled(v) + [QUOTE] + rest, Doubled(v) + [QUOTE] + rest;
    assert line == [QUOTE] + inner;
    assert line[1..] == inner;
    QuotedScan(v, rest, "", d);
    assert "" + v == v;
  }

  lemma FieldScan(v: string, rest: string, d: char)
    requires d != QUOTE && (rest == "" || rest[0] != QUOTE)
    ensures SplitRest(Escape(v, d) + rest, "", false, d) == SplitRest(rest, v, false, d)
  {
    if NeedsQuotes(v, d) {
      QuotedField(v, rest, d);
    } else {
      PlainScan(v, rest, "", d);
      assert "" + v == v;
    }
  }

  /** Splitting an escaped line gives the fields back, trimmed. */
  lemma {:induction false} SplitJoined(fields: seq<string>, d: char)
    requires fields != [] && d != QUOTE
    ensures SplitRest(Join(EscapeAll(fields, d), d), "", false, d) == TrimAll(fields)
  {
    var v := fields[0];
    if |fields| == 1 {
      FieldScan(v, "", d);
      assert Escape(v, d) + "" == Escape(v, d);
    } else {
      var rest := Join(EscapeAll(fields[1..], d), d);
      SplitJoined(fields[1..], d);
      assert EscapeAll(fields, d)[1..] == EscapeAll(fields[1..], d);
      assert Join(EscapeAll(fields, d), d) == Escape(v, d) + ([d] + rest);
      FieldScan(v, [d] + rest, d);
      assert ([d] + rest)[1..] == rest;
    }
  }

  lemma {:induction false} TrimAllAt(fields: seq<string>, i: nat)
    requires i < |fields|
    ensures TrimAll(fields)[i] == Trim(fields[i])
  {
    if i > 0 {
      TrimAllAt(fields[1..], i - 1);
    }
  }

  ghost predicate AllTrimmed(fields: seq<string>) {
    forall i | 0 <= i < |fields| :: Trimmed(fields[i])
  }

  /** The round trip is exact precisely for trimmed fields, whatever delimiters, quotes and newlines they hold. */
  lemma RoundTripIff(fields: seq<string>, d: char)
    requires fields != [] && d != QUOTE
    ensures SplitRest(Join(EscapeAll(fields, d), d), "", false, d) == fields <==> AllTrimmed(fields)
  {
    SplitJoined(fields, d);
    forall i | 0 <= i < |fields| ensures TrimAll(fields)[i] == fields[i] <==> Trimmed(fields[i]) {
      TrimAllAt(fields, i);
      TrimKeepsIff(fields[i]);
    }
    if AllTrimmed(fields) {
      assert TrimAll(fields) == fields;
    }
  }

  // ---- Tables ----

  type Row = map<string, string>

  function ValueAt(row: Row, header: string): string {
    if header in row then row[header] else ""
  }

  function ValuesOf(row: Row, headers: seq<string>): (r: seq<string>)
    ensures |r| == |headers|
  {
    if headers == [] then [] else [ValueAt(row, headers[0])] + ValuesOf(row, headers[1..])
  }

  function RowLine(row: Row, headers: seq<string>, d: char): string {
    Join(EscapeAll(ValuesOf(row, headers), d), d)
  }

  function RowLines(rows: seq<Row>, headers: seq<string>, d: char): (r: seq<string>)
    ensures |r| == |rows|
  {
    if rows == [] then [] else [RowLine(rows[0], headers, d)] + RowLines(rows[1..], headers, d)
  }

  /** `headers` are the keys of the first row, in order; they are written unescaped. */
  function ToCsv(headers: seq<string>, rows: seq<Row>, d: char): string {
    if rows == [] then "" else Join([Join(headers, d)] + RowLines(rows, headers, d), NEWLINE)
  }

  function SplitOn(s: string, current: string, d: char): seq<string> {
    if s == "" then [current]
    else if s[0] == d then [current] + SplitOn(s[1..], "", d)
    else SplitOn(s[1..], current + [s[0]], d)
  }

  function NonBlank(lines: seq<string>): seq<string> {
    if lines == [] then [] else (if Trim(lines[0]) == "" then [] else [lines[0]]) + NonBlank(lines[1..])
  }

  /** Header by header, a later header of the same name wins. */
  function Assigned(headers: seq<string>, values: seq<string>): Row {
    if headers == [] then map[] else
      var last := |headers| - 1;
      Assigned(headers[..last], values)[headers[last] := if last < |values| then values[last] else ""]
  }

  function ParsedRows(headers: seq<string>, lines: seq<string>, d: char): (r: seq<Row>)
    ensures |r| == |lines|
  {
    if lines == [] then [] else
      ParsedRows(headers, lines[..|lines| - 1], d) + [Assigned(headers, SplitRest(lines[|lines| - 1], "", false, d))]
  }

  function Parsed(csv: string, d: char): seq<Row> {
    var lines := NonBlank(SplitOn(csv, "", NEWLINE));
    if |lines| < 2 then [] else ParsedRows(SplitRest(lines[0], "", false, d), lines[1..], d)
  }

  method ParseCsv(csv: string, d: char) returns (rows: seq<Row>)
    ensures rows == Parsed(csv, d)
  {
    var lines := NonBlank(SplitOn(csv, "", NEWLINE));
    if |lines| < 2 {
      return [];
    }
    var headers := SplitCsvLine(lines[0], d);
    ghost var body := lines[1..];
    rows := [];
    var k := 1;
    while k < |lines|
      invariant 1 <= k <= |lines|
      invariant rows == ParsedRows(headers, body[..k - 1], d)
    {
      assert body[..k][..k - 1] == body[..k - 1] && body[k - 1] == lines[k];
      var values := SplitCsvLine(lines[k], d);
      var row: Row := map[];
      var i := 0;
      while i < |headers|
        invariant 0 <= i <= |headers|
        invariant row == Assigned(headers[..i], values)
      {
        assert headers[..i + 1][..i] == headers[..i];
        row := row[headers[i] := if i < |values| then values[i] else ""];
        i := i + 1;
      }
      assert headers[..i] == headers;
      rows := rows + [row];
      k := k + 1;
    }
    assert body[..k - 1] == body;
  }

  lemma {:induction false} SplitTaken(s: string, rest: string, current: string, d: char)
    requires d !in s
    ensures SplitOn(s + rest, current, d) == SplitOn(rest, current + s, d)
  {
    if s == "" {
      assert s + rest == rest && current + s == current;
    } else {
      assert s == [s[0]] + s[1..];
      SplitTaken(s[1..], rest, current + [s[0]], d);
      assert (s + rest)[1..] == s[1..] + rest;
      Regroup(current, [s[0]], s[1..]);
    }
  }

  lemma {:induction false} SplitJoinedLines(lines: seq<string>, d: char)
    requires lines != [] && forall i | 0 <= i < |lines| :: d !in lines[i]
    ensures SplitOn(Join(lines, d), "", d) == lines
  {
    assert "" + lines[0] == lines[0];
    if |lines| == 1 {
      SplitTaken(lines[0], "", "", d);
      assert lines[0] + "" == lines[0];
    } else {
      SplitJoinedLines(lines[1..], d);
      var rest := [d] + Join(lines[1..], d);
      assert Join(lines, d) == lines[0] + rest && rest[1..] == Join(lines[1..], d);
      SplitTaken(lines[0], rest, "", d);
    }
  }

  lemma {:induction false} NothingBlank(lines: seq<string>)
    requires forall i | 0 <= i < |lines| :: Trim(lines[i]) != ""
    ensures NonBlank(lines) == lines
  {
    if lines != [] {
      NothingBlank(lines[1..]);
    }
  }

  lemma {:induction false} BlankShortens(lines: seq<string>)
    ensures |NonBlank(lines)| <= |lines|
    ensures |NonBlank(lines)| == |lines| ==> forall i | 0 <= i < |lines| :: Trim(lines[i]) != ""
  {
    if lines != [] {
      BlankShortens(lines[1..]);
      if |NonBlank(lines)| == |lines| {
        forall i | 0 <= i < |lines| ensures Trim(lines[i]) != "" {
          if i > 0 {
            assert Trim(lines[1..][i - 1]) != "";
          }
        }
      }
    }
  }

  /** Without delimiter, quote or newline. */
  predicate Plain(v: string, d: char) {
    d !in v && QUOTE !in v && NEWLINE !in v
  }

  lemma {:induction false} JoinHas(parts: seq<string>, d: char)
    requires |parts| >= 2
    ensures exists k :: 0 <= k < |Join(parts, d)| && Join(parts, d)[k] == d
  {
    assert Join(parts, d)[|parts[0]|] == d;
  }

  lemma {:induction false} JoinLacks(parts: seq<string>, d: char, c: char)
    requires c != d && forall i | 0 <= i < |parts| :: c !in parts[i]
    ensures c !in Join(parts, d)
  {
    if |parts| >= 2 {
      JoinLacks(parts[1..], d, c);
    }
  }

  lemma {:induction false} EscapedLacksNewline(fields: seq<string>, d: char)
    requires forall i | 0 <= i < |fields| :: NEWLINE !in fields[i]
    ensures forall i | 0 <= i < |fields| :: NEWLINE !in EscapeAll(fields, d)[i]
  {
    if fields != [] {
      EscapedLacksNewline(fields[1..], d);
      DoubledLacksNewline(fields[0]);
      forall i | 0 <= i < |fields| ensures NEWLINE !in EscapeAll(fields, d)[i] {
        if i > 0 {
          assert EscapeAll(fields, d)[i] == EscapeAll(fields[1..], d)[i - 1];
        }
      }
    }
  }

  lemma {:induction false} DoubledLacksNewline(v: string)
    requires NEWLINE !in v
    ensures NEWLINE !in Doubled(v)
  {
    if v != "" {
      DoubledLacksNewline(v[1..]);
    }
  }

  lemma {:induction false} PlainEscapes(fields: seq<string>, d: char)
    requires forall i | 0 <= i < |fields| :: Plain(fields[i], d)
    ensures EscapeAll(fields, d) == fields
  {
    if fields != [] {
      PlainEscapes(fields[1..], d);
    }
  }

  lemma {:induction false} ValueIs(row: Row, headers: seq<string>, i: nat)
    requires i < |headers|
    ensures ValuesOf(row, headers)[i] == ValueAt(row, headers[i])
  {
    if i > 0 {
      ValueIs(row, headers[1..], i - 1);
    }
  }

  lemma {:induction false} RowLineIs(rows: seq<Row>, headers: seq<string>, d: char, i: nat)
    requires i < |rows|
    ensures RowLines(rows, headers, d)[i] == RowLine(rows[i], headers, d)
  {
    if i > 0 {
      RowLineIs(rows[1..], headers, d, i - 1);
    }
  }

  /** A value that survives a table: trimmed and on one line. */
  predicate Cell(v: string) {
    Trimmed(v) && NEWLINE !in v
  }

  /** Rows over exactly the headers, with cells for values. */
  ghost predicate Tabular(headers: seq<string>, rows: seq<Row>) {
    forall i | 0 <= i < |rows| :: rows[i].Keys == SetOf(headers) && forall h | h in headers :: Cell(rows[i][h])
  }

  ghost predicate HeadersFit(headers: seq<string>, d: char) {
    Distinct(headers) && forall i | 0 <= i < |headers| :: Plain(headers[i], d) && Trimmed(headers[i])
  }

  lemma {:induction false} AssignedHolds(headers: seq<string>, values: seq<string>, i: nat)
    requires Distinct(headers) && i < |headers| <= |values|
    ensures headers[i] in Assigned(headers, values) && Assigned(headers, values)[headers[i]] == values[i]
    decreases |headers|
  {
    if i < |headers| - 1 {
      AssignedHolds(headers[..|headers| - 1], values, i);
    }
  }

  lemma {:induction false} AssignedKeys(headers: seq<string>, values: seq<string>)
    ensures Assigned(headers, values).Keys == SetOf(headers)
  {
    if headers != [] {
      AssignedKeys(headers[..|headers| - 1], values);
      assert SetOf(headers) == SetOf(headers[..|headers| - 1]) + {headers[|headers| - 1]};
    }
  }

  /** Reading a written row. */
  lemma RowRoundTrip(headers: seq<string>, row: Row, d: char)
    requires headers != [] && HeadersFit(headers, d) && d != QUOTE && Tabular(headers, [row])
    ensures Assigned(headers, SplitRest(RowLine(row, headers, d), "", false, d)) == row
  {
    var values := ValuesOf(row, headers);
    assert row == [row][0];
    forall i | 0 <= i < |values| ensures Trimmed(values[i]) && values[i] == row[headers[i]] {
      ValueIs(row, headers, i);
      assert headers[i] in SetOf(headers);
    }
    RoundTripIff(values, d);
    AssignedBack(headers, row, values);
  }

  /** Assigning a row's values to its headers gives the row back. */
  lemma AssignedBack(headers: seq<string>, row: Row, values: seq<string>)
    requires Distinct(headers) && row.Keys == SetOf(headers) && |values| == |headers|
    requires forall i | 0 <= i < |headers| :: headers[i] in row && values[i] == row[headers[i]]
    ensures Assigned(headers, values) == row
  {
    AssignedKeys(headers, values);
    forall h | h in row ensures Assigned(headers, values)[h] == row[h] {
      assert h in SetOf(headers);
      var i :| 0 <= i < |headers| && headers[i] == h;
      AssignedHolds(headers, values, i);
    }
  }

  lemma RowLineFits(headers: seq<string>, row: Row, d: char)
    requires d != NEWLINE && Tabular(headers, [row])
    ensures NEWLINE !in RowLine(row, headers, d)
  {
    var values := ValuesOf(row, headers);
    assert row == [row][0];
    forall i | 0 <= i < |values| ensures NEWLINE !in values[i] {
      ValueIs(row, headers, i);
      assert headers[i] in SetOf(headers);
    }
    EscapedLacksNewline(values, d);
    JoinLacks(EscapeAll(values, d), d, NEWLINE);
  }

  lemma {:induction false} RowsRoundTrip(headers: seq<string>, rows: seq<Row>, lines: seq<string>, d: char)
    requires |lines| == |rows| && forall i | 0 <= i < |rows| ::
             Assigned(headers, SplitRest(lines[i], "", false, d)) == rows[i]
    ensures ParsedRows(headers, lines, d) == rows
  {
    if rows != [] {
      var front, last := rows[..|rows| - 1], rows[|rows| - 1];
      RowsRoundTrip(headers, front, lines[..|lines| - 1], d);
      assert rows == front + [last];
    }
  }

  /** The lines of a table survive being joined and split. */
  lemma TableLines(headers: seq<string>, rows: seq<Row>, d: char)
    requires rows != [] && HeadersFit(headers, d) && d != NEWLINE && Tabular(headers, rows)
    ensures SplitOn(ToCsv(headers, rows, d), "", NEWLINE) == [Join(headers, d)] + RowLines(rows, headers, d)
  {
    var lines := [Join(headers, d)] + RowLines(rows, headers, d);
    JoinLacks(headers, d, NEWLINE);
    forall i | 0 <= i < |lines| ensures NEWLINE !in lines[i] {
      if i > 0 {
        RowLineIs(rows, headers, d, i - 1);
        RowLineFits(headers, rows[i - 1], d);
      }
    }
    SplitJoinedLines(lines, NEWLINE);
  }

  /** Parsing a written table gives its rows back: distinct, plain, trimmed headers, at least two columns
      and one row, a delimiter that is no space, cells on one line. */
  lemma TableRoundTrip(headers: seq<string>, rows: seq<Row>, d: char)
    requires |headers| >= 2 && rows != [] && HeadersFit(headers, d) && Tabular(headers, rows)
    requires d != QUOTE && !IsSpace(d)
    ensures Parsed(ToCsv(headers, rows, d), d) == rows
  {
    var lines := [Join(headers, d)] + RowLines(rows, headers, d);
    TableLines(headers, rows, d);
    forall i | 0 <= i < |lines| ensures Trim(lines[i]) != "" {
      if i == 0 {
        DelimitedIsNotBlank(headers, d);
      } else {
        RowLineIs(rows, headers, d, i - 1);
        DelimitedIsNotBlank(EscapeAll(ValuesOf(rows[i - 1], headers), d), d);
      }
    }
    NothingBlank(lines);
    HeaderRoundTrip(headers, d);
    assert lines[1..] == RowLines(rows, headers, d);
    forall i | 0 <= i < |rows| ensures Assigned(headers, SplitRest(lines[1..][i], "", false, d)) == rows[i] {
      RowLineIs(rows, headers, d, i);
      RowRoundTrip(headers, rows[i], d);
    }
    RowsRoundTrip(headers, rows, lines[1..], d);
  }

  lemma DelimitedIsNotBlank(parts: seq<string>, d: char)
    requires |parts| >= 2 && !IsSpace(d)
    ensures Trim(Join(parts, d)) != ""
  {
    JoinHas(parts, d);
    var k :| 0 <= k < |Join(parts, d)| && Join(parts, d)[k] == d;
    NotBlank(Join(parts, d), k);
  }

  lemma HeaderRoundTrip(headers: seq<string>, d: char)
    requires headers != [] && HeadersFit(headers, d) && d != QUOTE
    ensures SplitRest(Join(headers, d), "", false, d) == headers
  {
    PlainEscapes(headers, d);
    RoundTripIff(headers, d);
  }

  /** With a single column, a row is lost exactly when its value is empty. */
  lemma SingleColumnKeepsIff(header: string, rows: seq<Row>, d: char)
    requires rows != [] && header != "" && HeadersFit([header], d) && Tabular([header], rows) && d != QUOTE
             && d != NEWLINE
    ensures |Parsed(ToCsv([header], rows, d), d)| == |rows| <==>
            forall i | 0 <= i < |rows| :: ValueAt(rows[i], header) != ""
  {
    var lines := RowLines(rows, [header], d);
    TableLines([header], rows, d);
    TrimKeepsIff(header);
    assert ([header] + lines)[1..] == lines && Join([header], d) == header;
    BlankShortens(lines);
    if forall i | 0 <= i < |lines| :: Trim(lines[i]) != "" {
      NothingBlank(lines);
    }
    forall i | 0 <= i < |rows| ensures Trim(lines[i]) == "" <==> ValueAt(rows[i], header) == "" {
      RowLineIs(rows, [header], d, i);
      SingleValueLine(header, rows[i], d);
    }
  }

  lemma SingleValueLine(header: string, row: Row, d: char)
    requires header in row && Trimmed(row[header])
    ensures Trim(RowLine(row, [header], d)) == "" <==> row[header] == ""
  {
    var v := row[header];
    assert ValuesOf(row, [header]) == [v] && EscapeAll([v], d) == [Escape(v, d)];
    if v != "" {
      NotBlank(Escape(v, d), 0);
    }
  }

  /** Two rows are written under the header "a", and the one whose value is empty is not read back. */
  lemma EmptyRowVanishes()
    ensures var rows := [map["a" := "x"], map["a" := ""]];
            |rows| == 2 && |Parsed(ToCsv(["a"], rows, ','), ',')| < 2
  {
    var rows: seq<Row> := [map["a" := "x"], map["a" := ""]];
    SingleColumnKeepsIff("a", rows, ',');
    assert ValueAt(rows[1], "a") == "";
    TableLines(["a"], rows, ',');
    TrimKeepsIff("a");
    BlankShortens(RowLines(rows, ["a"], ','));
  }
}
