/** What the splitter makes of every line, quotes in the middle of fields and unclosed ones included
    (src/ai/file/file-tool.ts:121-148). */
module CsvLines {
  import opened Prelude
  import opened Csv

  /** A piece of a field: bare text, quoted text, or text behind a quote that is never closed. */
  datatype Part = Bare(text: string) | Quoted(text: string) | Open(text: string)

  type Field = seq<Part>

  function Written(part: Part): string {
    match part
    case Bare(text) => text
    case Quoted(text) => [QUOTE] + Doubled(text) + [QUOTE]
    case Open(text) => [QUOTE] + Doubled(text)
  }

  function FieldWritten(field: Field): string {
    if field == [] then "" else Written(field[0]) + FieldWritten(field[1..])
  }

  function LineWritten(fields: seq<Field>, d: char): string {
    if fields == [] then ""
    else if |fields| == 1 then FieldWritten(fields[0])
    else FieldWritten(fields[0]) + [d] + LineWritten(fields[1..], d)
  }

  function Text(field: Field): string {
    if field == [] then "" else field[0].text + Text(field[1..])
  }

  function TrimmedTexts(fields: seq<Field>): seq<string> {
    if fields == [] then [] else [Trim(Text(fields[0]))] + TrimmedTexts(fields[1..])
  }

  /** Bare text has neither delimiter nor quote, two quoted pieces do not touch, and nothing follows an open one. */
  predicate FieldFits(field: Field, d: char, last: bool) {
    field != [] ==>
      && (field[0].Bare? ==> field[0].text != "" && d !in field[0].text && QUOTE !in field[0].text)
      && (field[0].Quoted? && |field| > 1 ==> field[1].Bare?)
      && (field[0].Open? ==> last && |field| == 1)
      && FieldFits(field[1..], d, last)
  }

  predicate LineFits(fields: seq<Field>, d: char) {
    fields != [] && FieldFits(fields[0], d, |fields| == 1) && (|fields| > 1 ==> LineFits(fields[1..], d))
  }

  // ---- Every written line is split into the texts of its fields ----

  lemma {:induction false} OpenScan(v: string, current: string, d: char)
    ensures SplitRest(Doubled(v), current, true, d) == [Trim(current + v)]
    decreases |v|
  {
    if v == "" {
      assert current + v == current;
    } else {
      assert v == [v[0]] + v[1..];
      OpenScan(v[1..], current + [v[0]], d);
      Regroup(current, [v[0]], v[1..]);
      if v[0] == QUOTE {
        assert Doubled(v) == [QUOTE, QUOTE] + Doubled(v[1..]) && Doubled(v)[2..] == Doubled(v[1..]);
      } else {
        assert Doubled(v) == [v[0]] + Doubled(v[1..]) && Doubled(v)[1..] == Doubled(v[1..]);
      }
    }
  }

  /** A field's text does not begin with a quote unless its first piece is quoted. */
  lemma {:induction false} StartsBare(field: Field, rest: string, d: char, last: bool)
    requires FieldFits(field, d, last) && (field == [] || field[0].Bare?) && (rest == "" || rest[0] != QUOTE)
    ensures FieldWritten(field) + rest == "" || (FieldWritten(field) + rest)[0] != QUOTE
  {
    if field != [] {
      assert field[0].text[0] in field[0].text;
      assert (FieldWritten(field) + rest)[0] == field[0].text[0];
    }
  }

  /** A closed piece is read up to what follows it. */
  lemma PartRead(part: Part, tail: string, current: string, d: char)
    requires part.Bare? ==> d !in part.text && QUOTE !in part.text
    requires !part.Open? && (part.Quoted? ==> tail == "" || tail[0] != QUOTE)
    ensures SplitRest(Written(part) + tail, current, false, d) == SplitRest(tail, current + part.text, false, d)
  {
    if part.Bare? {
      PlainScan(part.text, tail, current, d);
    } else {
      assert Written(part) + tail == [QUOTE] + (Doubled(part.text) + [QUOTE] + tail);
      assert (Written(part) + tail)[1..] == Doubled(part.text) + [QUOTE] + tail;
      QuotedScan(part.text, tail, current, d);
    }
  }

  lemma OpenRead(field: Field, current: string, d: char)
    requires |field| == 1 && field[0].Open?
    ensures SplitRest(FieldWritten(field) + "", current, false, d) == SplitRest("", current + Text(field), false, d)
  {
    var text := field[0].text;
    assert FieldWritten(field) + "" == Written(Open(text)) && Text(field) == text + "" == text;
    assert Written(Open(text))[1..] == Doubled(text);
    OpenScan(text, current, d);
  }

  lemma FirstPartRead(field: Field, rest: string, current: string, d: char)
    requires d != QUOTE && field != [] && !field[0].Open? && FieldFits(field, d, rest == "")
    requires rest == "" || rest[0] == d
    ensures SplitRest(FieldWritten(field) + rest, current, false, d)
         == SplitRest(FieldWritten(field[1..]) + rest, current + field[0].text, false, d)
  {
    var tail := FieldWritten(field[1..]) + rest;
    assert FieldWritten(field) + rest == Written(field[0]) + tail;
    if field[0].Quoted? {
      StartsBare(field[1..], rest, d, rest == "");
    }
    PartRead(field[0], tail, current, d);
  }

  /** A field is read up to what follows it: the end of the line or a delimiter. */
  lemma {:induction false} FieldRead(field: Field, rest: string, current: string, d: char)
    requires d != QUOTE && FieldFits(field, d, rest == "") && (rest == "" || rest[0] == d)
    ensures SplitRest(FieldWritten(field) + rest, current, false, d)
         == SplitRest(rest, current + Text(field), false, d)
    decreases |field|
  {
    if field == [] {
      assert FieldWritten(field) + rest == rest && current + Text(field) == current;
    } else {
      var part := field[0];
      if part.Open? {
        OpenRead(field, current, d);
      } else {
        FirstPartRead(field, rest, current, d);
        FieldRead(field[1..], rest, current + part.text, d);
        Regroup(current, part.text, Text(field[1..]));
      }
    }
  }

  /** A line of any such fields is split into their texts, trimmed. */
  lemma {:induction false} SplitWritten(fields: seq<Field>, d: char)
    requires d != QUOTE && LineFits(fields, d)
    ensures SplitRest(LineWritten(fields, d), "", false, d) == TrimmedTexts(fields)
  {
    var text := Text(fields[0]);
    assert "" + text == text;
    if |fields| == 1 {
      assert FieldWritten(fields[0]) + "" == FieldWritten(fields[0]);
      FieldRead(fields[0], "", "", d);
    } else {
      var rest := LineWritten(fields[1..], d);
      assert LineWritten(fields, d) == FieldWritten(fields[0]) + ([d] + rest);
      FieldRead(fields[0], [d] + rest, "", d);
      assert ([d] + rest)[1..] == rest;
      SplitWritten(fields[1..], d);
    }
  }

  // ---- And every line is written so ----

  lemma {:induction false} QuoteEnds(line: string) returns (text: string, closed: bool, rest: string)
    ensures |rest| <= |line| && (rest == "" || rest[0] != QUOTE)
    ensures if closed then line == Doubled(text) + [QUOTE] + rest else line == Doubled(text) && rest == ""
    decreases |line|
  {
    if line == "" {
      return "", false, "";
    }
    if line[0] == QUOTE && |line| > 1 && line[1] == QUOTE {
      text, closed, rest := QuoteEnds(line[2..]);
      assert line == [QUOTE, QUOTE] + line[2..];
      assert Doubled([QUOTE] + text) == [QUOTE, QUOTE] + Doubled(text) by {
        assert ([QUOTE] + text)[1..] == text;
      }
      text := [QUOTE] + text;
    } else if line[0] == QUOTE {
      assert line == [QUOTE] + line[1..];
      return "", true, line[1..];
    } else {
      text, closed, rest := QuoteEnds(line[1..]);
      assert line == [line[0]] + line[1..];
      assert Doubled([line[0]] + text) == [line[0]] + Doubled(text) by {
        assert ([line[0]] + text)[1..] == text;
      }
      text := [line[0]] + text;
    }
  }

  /** One more piece in front of the first field. */
  lemma Prepended(part: Part, fields: seq<Field>, d: char) returns (fields': seq<Field>)
    requires LineFits(fields, d) && FieldFits([part] + fields[0], d, |fields| == 1)
    ensures LineFits(fields', d) && LineWritten(fields', d) == Written(part) + LineWritten(fields, d)
  {
    fields' := [[part] + fields[0]] + fields[1..];
    assert ([part] + fields[0])[1..] == fields[0] && fields'[1..] == fields[1..];
    if |fields| > 1 {
      Regroup(Written(part), FieldWritten(fields[0]), [d] + LineWritten(fields[1..], d));
      assert FieldWritten(fields'[0]) + [d] + LineWritten(fields'[1..], d)
          == FieldWritten(fields'[0]) + ([d] + LineWritten(fields[1..], d));
      assert LineWritten(fields, d) == FieldWritten(fields[0]) + ([d] + LineWritten(fields[1..], d));
    }
  }

  /** A field that begins with a quoted piece begins with a quote. */
  lemma FirstIsBare(fields: seq<Field>, d: char)
    requires LineFits(fields, d)
    ensures fields[0] == [] || fields[0][0].Bare?
            || (LineWritten(fields, d) != "" && LineWritten(fields, d)[0] == QUOTE)
  {
    if fields[0] != [] && !fields[0][0].Bare? {
      assert Written(fields[0][0])[0] == QUOTE;
    }
  }

  /** Every line is the line of some such fields. */
  lemma {:induction false} EveryLineIsWritten(line: string, d: char) returns (fields: seq<Field>)
    requires d != QUOTE
    ensures LineFits(fields, d) && LineWritten(fields, d) == line
    decreases |line|
  {
    if line == "" {
      fields := [[]];
    } else if line[0] == QUOTE {
      var text, closed, rest := QuoteEnds(line[1..]);
      if closed {
        var later := EveryLineIsWritten(rest, d);
        fields := QuotedFirst(text, later, d);
        assert line == [QUOTE] + line[1..] == LineWritten(fields, d);
      } else {
        fields := [[Open(text)]];
        assert FieldWritten([Open(text)]) == Written(Open(text)) + "";
        assert line == [QUOTE] + line[1..];
      }
    } else {
      var later := EveryLineIsWritten(line[1..], d);
      fields := CharFirst(line[0], later, d);
      assert line == [line[0]] + line[1..];
    }
  }

  lemma QuotedFirst(text: string, later: seq<Field>, d: char) returns (fields: seq<Field>)
    requires LineFits(later, d) && (LineWritten(later, d) == "" || LineWritten(later, d)[0] != QUOTE)
    ensures LineFits(fields, d)
            && LineWritten(fields, d) == [QUOTE] + (Doubled(text) + [QUOTE] + LineWritten(later, d))
  {
    FirstIsBare(later, d);
    assert ([Quoted(text)] + later[0])[1..] == later[0];
    fields := Prepended(Quoted(text), later, d);
  }

  lemma CharFirst(c: char, later: seq<Field>, d: char) returns (fields: seq<Field>)
    requires LineFits(later, d) && c != QUOTE
    ensures LineFits(fields, d) && LineWritten(fields, d) == [c] + LineWritten(later, d)
  {
    if c == d {
      fields := [[]] + later;
      assert fields[1..] == later;
    } else {
      assert ([Bare([c])] + later[0])[1..] == later[0];
      fields := Prepended(Bare([c]), later, d);
    }
  }

  /** So the splitter's answer to every line is known: the texts of its fields, trimmed. */
  lemma SplitIsKnown(line: string, d: char) returns (fields: seq<Field>)
    requires d != QUOTE
    ensures LineFits(fields, d) && LineWritten(fields, d) == line
    ensures SplitRest(line, "", false, d) == TrimmedTexts(fields)
  {
    fields := EveryLineIsWritten(line, d);
    SplitWritten(fields, d);
  }

  /** A value is written as it is exactly when it holds neither delimiter nor quote nor line break, as rule 6 of
      section 2 of RFC 4180 asks; otherwise as one quoted piece. */
  lemma EscapedIff(v: string, d: char)
    ensures Escape(v, d) == v <==> d !in v && QUOTE !in v && NEWLINE !in v
    ensures Escape(v, d) == v || Escape(v, d) == Written(Quoted(v))
  {
    DoubledIsNotShorter(v);
  }

  lemma {:induction false} DoubledIsNotShorter(v: string)
    ensures |Doubled(v)| >= |v|
  {
    if v != "" {
      DoubledIsNotShorter(v[1..]);
    }
  }

  /** A table is the empty text exactly when it has no rows. */
  lemma EmptyTextIff(headers: seq<string>, rows: seq<Row>, d: char)
    ensures ToCsv(headers, rows, d) == "" <==> rows == []
  {
    if rows != [] {
      var lines := RowLines(rows, headers, d);
      assert ([Join(headers, d)] + lines)[1..] == lines;
    }
  }

  /** Trimmed away are the white space and line ends of ECMAScript, code point by code point. */
  lemma SpacesAre(c: char)
    ensures IsSpace(c) <==> c as int in {
        0x09, 0x0A, 0x0B, 0x0C, 0x0D, 0x20, 0xA0, 0x1680, 0x2000, 0x2001, 0x2002, 0x2003, 0x2004, 0x2005, 0x2006,
        0x2007, 0x2008, 0x2009, 0x200A, 0x2028, 0x2029, 0x202F, 0x205F, 0x3000, 0xFEFF}
  {
  }
}
