/** The audit export of apps/control-plane/src/modules/audit/audit.controller.ts, and a reader
    written from section 2 of RFC 4180 that decodes it. */
module Csv {
  import opened Text

  // ---- The writer ----

  const CSV_COLUMNS: seq<string> := [
    "createdAt", "userEmail", "action", "targetType", "targetId", "projectId", "ip", "status", "meta"]

  /** A field of an audit row, with the text JavaScript turns it into. */
  datatype Value = Null | Undefined | Date(iso: string) | Object(json: string) | Primitive(text: string)

  type Row = map<string, Value>

  function TextOf(v: Value): string {
    match v
    case Null => ""
    case Undefined => ""
    case Date(iso) => iso
    case Object(json) => json
    case Primitive(text) => text
  }

  /** `replace(/"/g, '""')` */
  function DoubleQuotes(s: string): string {
    if s == "" then "" else (if s[0] == '"' then "\"\"" else [s[0]]) + DoubleQuotes(s[1..])
  }

  function Quoted(s: string): string {
    "\"" + DoubleQuotes(s) + "\""
  }

  function CsvCell(v: Value): string {
    Quoted(TextOf(v))
  }

  /** `r[c]` is undefined for a missing column. */
  function Column(r: Row, c: string): Value {
    if c in r then r[c] else Undefined
  }

  function Cells(r: Row): seq<string> {
    Map(c => TextOf(Column(r, c)), CSV_COLUMNS)
  }

  function JoinLines(lines: seq<string>): string {
    if |lines| == 0 then ""
    else if |lines| == 1 then lines[0]
    else lines[0] + "\r\n" + JoinLines(lines[1..])
  }

  function Line(r: Row): string {
    Join(Map(c => CsvCell(Column(r, c)), CSV_COLUMNS), ',')
  }

  function ToCsv(rows: seq<Row>): string {
    JoinLines([Join(CSV_COLUMNS, ',')] + Map(Line, rows)) + "\r\n"
  }

  // ---- The reader ----

  /** Characters a field may hold without quotes. */
  predicate IsTextData(c: char) {
    c != ',' && c != '"' && c != '\r' && c != '\n'
  }

  /** The rest of a quoted field: two quotes stand for one, a single quote ends the field. */
  function ReadQuoted(s: string): (r: Option<(string, string)>)
    ensures r.Some? ==> |r.value.1| < |s|
  {
    if s == "" then None
    else if s[0] != '"' then Prepend(s[0], ReadQuoted(s[1..]))
    else if |s| > 1 && s[1] == '"' then Prepend('"', ReadQuoted(s[2..]))
    else Some(("", s[1..]))
  }

  function Prepend(c: char, r: Option<(string, string)>): Option<(string, string)> {
    if r.None? then None else Some(([c] + r.value.0, r.value.1))
  }

  function ReadBare(s: string): (r: (string, string))
    ensures s == r.0 + r.1
  {
    if s == "" || !IsTextData(s[0]) then ("", s)
    else
      var r := ReadBare(s[1..]);
      ([s[0]] + r.0, r.1)
  }

  function ReadField(s: string): (r: Option<(string, string)>)
    ensures r.Some? ==> |r.value.1| <= |s|
  {
    if s != "" && s[0] == '"' then ReadQuoted(s[1..]) else Some(ReadBare(s))
  }

  /** One record: fields separated by commas, up to CRLF or the end of the file. */
  function ReadRecord(s: string): (r: Option<(seq<string>, string)>)
    ensures r.Some? ==> |r.value.1| <= |s| && (s != "" ==> |r.value.1| < |s|)
    decreases |s|
  {
    match ReadField(s)
    case None => None
    case Some((field, rest)) =>
      if rest == "" then Some(([field], ""))
      else if rest[0] == ',' then
        match ReadRecord(rest[1..])
        case None => None
        case Some((fields, rest')) => Some(([field] + fields, rest'))
      else if HasPrefix(rest, "\r\n") then Some(([field], rest[2..]))
      else None
  }

  function ReadFile(s: string): Option<seq<seq<string>>>
    decreases |s|
  {
    if s == "" then Some([])
    else
      match ReadRecord(s)
      case None => None
      case Some((record, rest)) =>
        match ReadFile(rest)
        case None => None
        case Some(records) => Some([record] + records)
  }

  // ---- Decoding ----

  lemma {:induction false} ReadUndoesQuotes(s: string, rest: string)
    requires rest == "" || rest[0] != '"'
    ensures ReadQuoted(DoubleQuotes(s) + "\"" + rest) == Some((s, rest))
  {
    var text := DoubleQuotes(s) + "\"" + rest;
    if s == "" {
      assert text == "\"" + rest && text[1..] == rest;
    } else {
      var tail := DoubleQuotes(s[1..]) + "\"" + rest;
      ReadUndoesQuotes(s[1..], rest);
      if s[0] == '"' {
        assert text == "\"\"" + tail && text[2..] == tail;
      } else {
        assert text == [s[0]] + tail && text[1..] == tail;
      }
      assert [s[0]] + s[1..] == s;
    }
  }

  /** A quoted or bare field before `rest` reads back as its text. */
  ghost predicate Reads(field: string, text: string) {
    forall rest :: rest == "" || rest[0] == ',' || HasPrefix(rest, "\r\n") ==>
      ReadField(field + rest) == Some((text, rest))
  }

  lemma {:induction false} QuotedReads(s: string)
    ensures Reads(Quoted(s), s)
  {
    forall rest | rest == "" || rest[0] == ',' || HasPrefix(rest, "\r\n")
      ensures ReadField(Quoted(s) + rest) == Some((s, rest))
    {
      ReadUndoesQuotes(s, rest);
      var text := Quoted(s) + rest;
      assert text[0] == '"' && text[1..] == DoubleQuotes(s) + "\"" + rest;
    }
  }

  lemma {:induction false} BareReads(s: string, rest: string)
    requires forall c :: c in s ==> IsTextData(c)
    requires rest == "" || !IsTextData(rest[0])
    ensures ReadBare(s + rest) == (s, rest)
  {
    if s == "" {
      assert s + rest == rest;
    } else {
      assert (s + rest)[1..] == s[1..] + rest;
      BareReads(s[1..], rest);
      assert [s[0]] + s[1..] == s;
    }
  }

  lemma {:induction false} BareFieldReads(s: string)
    requires s != "" && forall c :: c in s ==> IsTextData(c)
    ensures Reads(s, s)
  {
    forall rest | rest == "" || rest[0] == ',' || HasPrefix(rest, "\r\n")
      ensures ReadField(s + rest) == Some((s, rest))
    {
      BareReads(s, rest);
      assert (s + rest)[0] == s[0];
    }
  }

  /** Joining fields with commas and ending the record with CRLF reads back as their texts. */
  lemma {:induction false} RecordReads(fields: seq<string>, texts: seq<string>, rest: string)
    requires |fields| == |texts| > 0
    requires forall i :: 0 <= i < |fields| ==> Reads(fields[i], texts[i])
    ensures ReadRecord(Join(fields, ',') + "\r\n" + rest) == Some((texts, rest))
    decreases |fields|
  {
    hide ReadRecord, Reads;
    if |fields| == 1 {
      LastFieldReads(fields[0], texts[0], rest);
      assert [texts[0]] == texts;
    } else {
      RecordReads(fields[1..], texts[1..], rest);
      var more := Join(fields[1..], ',') + "\r\n" + rest;
      FieldReads(fields[0], texts[0], more, texts[1..], rest);
      assert Join(fields, ',') + "\r\n" + rest == fields[0] + "," + more;
      assert [texts[0]] + texts[1..] == texts;
    }
  }

  lemma {:induction false} FieldReads(field: string, text: string, more: string, texts: seq<string>, rest: string)
    requires Reads(field, text) && ReadRecord(more) == Some((texts, rest))
    ensures ReadRecord(field + "," + more) == Some(([text] + texts, rest))
  {
    hide ReadField, HasPrefix;
    var tail := "," + more;
    assert field + "," + more == field + tail && tail[1..] == more && tail[0] == ',';
    assert ReadField(field + tail) == Some((text, tail));
  }

  lemma {:induction false} LastFieldReads(field: string, text: string, rest: string)
    requires Reads(field, text)
    ensures ReadRecord(field + "\r\n" + rest) == Some(([text], rest))
  {
    hide ReadField, HasPrefix;
    var tail := "\r\n" + rest;
    assert field + "\r\n" + rest == field + tail && tail[2..] == rest && tail[0] == '\r';
    CrlfPrefix(rest);
    assert ReadField(field + tail) == Some((text, tail));
  }

  lemma CrlfPrefix(rest: string)
    ensures HasPrefix("\r\n" + rest, "\r\n")
  {
  }

  lemma LineReads(r: Row, rest: string)
    ensures ReadRecord(Line(r) + "\r\n" + rest) == Some((Cells(r), rest))
  {
    var fields, texts := Map(c => CsvCell(Column(r, c)), CSV_COLUMNS), Cells(r);
    forall i | 0 <= i < |fields|
      ensures Reads(fields[i], texts[i])
    {
      QuotedReads(texts[i]);
    }
    RecordReads(fields, texts, rest);
  }

  lemma HeaderReads(rest: string)
    ensures ReadRecord(Join(CSV_COLUMNS, ',') + "\r\n" + rest) == Some((CSV_COLUMNS, rest))
  {
    forall i | 0 <= i < |CSV_COLUMNS|
      ensures Reads(CSV_COLUMNS[i], CSV_COLUMNS[i])
    {
      BareFieldReads(CSV_COLUMNS[i]);
    }
    RecordReads(CSV_COLUMNS, CSV_COLUMNS, rest);
  }

  lemma {:induction false} LinesRead(rows: seq<Row>)
    requires rows != []
    ensures ReadFile(JoinLines(Map(Line, rows)) + "\r\n") == Some(Map(Cells, rows))
  {
    hide ReadRecord, Line, Cells;
    var lines := Map(Line, rows);
    if |rows| == 1 {
      LineReads(rows[0], "");
      assert JoinLines(lines) + "\r\n" == Line(rows[0]) + "\r\n" + "";
      assert Map(Cells, rows) == [Cells(rows[0])] + [];
    } else {
      LinesRead(rows[1..]);
      assert lines[1..] == Map(Line, rows[1..]);
      var rest := JoinLines(lines[1..]) + "\r\n";
      assert JoinLines(lines) + "\r\n" == Line(rows[0]) + "\r\n" + rest;
      LineReads(rows[0], rest);
      assert Map(Cells, rows) == [Cells(rows[0])] + Map(Cells, rows[1..]);
    }
  }

  /** The export is the header line followed by one line per row. */
  lemma ToCsvLines(rows: seq<Row>)
    ensures ToCsv(rows) == Join(CSV_COLUMNS, ',') + "\r\n"
                           + if rows == [] then "" else JoinLines(Map(Line, rows)) + "\r\n"
  {
    hide Line, Join;
    var header, lines := Join(CSV_COLUMNS, ','), Map(Line, rows);
    if rows == [] {
      assert [header] + lines == [header];
    } else {
      assert ([header] + lines)[1..] == lines;
    }
  }

  /** The export decodes: a reader following RFC 4180 recovers the header and every cell, whatever
      mix of quotes, commas and line breaks the cells hold. */
  lemma ReadUndoesToCsv(rows: seq<Row>)
    ensures ReadFile(ToCsv(rows)) == Some([CSV_COLUMNS] + Map(Cells, rows))
  {
    hide ReadRecord, Line, Cells, ToCsv, JoinLines, Join;
    ToCsvLines(rows);
    if rows == [] {
      HeaderReads("");
      assert Map(Cells, rows) == [];
    } else {
      LinesRead(rows);
      HeaderReads(JoinLines(Map(Line, rows)) + "\r\n");
    }
  }

  /** Hence two exports are equal only if their cells are. */
  lemma ToCsvIsInjective(a: seq<Row>, b: seq<Row>)
    requires ToCsv(a) == ToCsv(b)
    ensures Map(Cells, a) == Map(Cells, b)
  {
    hide ToCsv, ReadFile, Cells;
    ReadUndoesToCsv(a);
    ReadUndoesToCsv(b);
    assert ([CSV_COLUMNS] + Map(Cells, a))[1..] == Map(Cells, a);
    assert ([CSV_COLUMNS] + Map(Cells, b))[1..] == Map(Cells, b);
  }

  /** What a reader finds in each cell: nothing for a missing, null or undefined field, and otherwise the
      field's text as it is. */
  lemma ReadsEachField(rows: seq<Row>, k: nat, i: nat)
    requires k < |rows| && i < |CSV_COLUMNS|
    ensures var file, column, r := ReadFile(ToCsv(rows)), CSV_COLUMNS[i], rows[k];
            && file.Some? && |file.value| == |rows| + 1 && file.value[0] == CSV_COLUMNS
            && |file.value[k + 1]| == |CSV_COLUMNS|
            && (column !in r || r[column] == Null || r[column] == Undefined ==> file.value[k + 1][i] == "")
            && (forall text :: column in r && r[column] in {Date(text), Object(text), Primitive(text)} ==>
                  file.value[k + 1][i] == text)
  {
    hide ToCsv, ReadFile;
    ReadUndoesToCsv(rows);
  }
}
