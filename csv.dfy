/**
 * The text `downloadCSV` builds before handing it to the browser: a header
 * row of the first record's keys, one row per record with its values in
 * header order, fields separated by semicolons, rows by line feeds, the whole
 * preceded by a UTF-8 byte order mark; and the name the file is saved under.
 *
 * `Read` is a reader for that format (quoted fields with doubled quotes);
 * `ContentReadsBack` proves that it recovers the header and every cell.
 */
module Csv {
  import opened Wrappers

  /** A record value as `String(row[header] ?? '')` sees it: null, undefined, or the text it renders to. */
  datatype Value = Null | Undefined | Text(text: string)

  /** One record: its keys in enumeration order, each with its value. */
  type Row = seq<(string, Value)>

  const Bom: char := '\U{FEFF}'
  const Quote: char := '"'
  const Separator: char := ';'
  const LineFeed: char := '\n'

  /** `Object.keys(row)`. */
  function Keys(row: Row): (r: seq<string>)
    ensures |r| == |row|
    ensures forall i | 0 <= i < |row| :: r[i] == row[i].0
  {
    if row == [] then [] else [row[0].0] + Keys(row[1..])
  }

  /** `row[key]`: the value of the first field named `key`, undefined when there is none. */
  function Lookup(row: Row, key: string): Value {
    if row == [] then Undefined
    else if row[0].0 == key then row[0].1
    else Lookup(row[1..], key)
  }

  /** `String(value ?? '')`. */
  function CellText(v: Value): string {
    match v
    case Null => ""
    case Undefined => ""
    case Text(t) => t
  }

  /** `parts.join(sep)`. */
  function Join(parts: seq<string>, sep: string): string {
    if parts == [] then ""
    else if |parts| == 1 then parts[0]
    else parts[0] + sep + Join(parts[1..], sep)
  }

  /** A field that contains a quote, a semicolon or a line feed is written quoted. */
  predicate NeedsQuoting(s: string) {
    Quote in s || Separator in s || LineFeed in s
  }

  /** `s.replace(/"/g, '""')`. */
  function DoubleQuotes(s: string): (r: string)
    ensures |r| >= |s|
  {
    if s == [] then ""
    else (if s[0] == Quote then [Quote, Quote] else [s[0]]) + DoubleQuotes(s[1..])
  }

  /** The field as written: quoted with inner quotes doubled when it needs quoting, else unchanged. */
  function Escape(s: string): string {
    if NeedsQuoting(s) then [Quote] + DoubleQuotes(s) + [Quote] else s
  }

  /** The fields of one row, escaped, in order. */
  function EscapeAll(fields: seq<string>): (r: seq<string>)
    ensures |r| == |fields|
  {
    if fields == [] then [] else [Escape(fields[0])] + EscapeAll(fields[1..])
  }

  /** The cells of a record in header order. */
  function Cells(headers: seq<string>, row: Row): (r: seq<string>)
    ensures |r| == |headers|
    ensures forall i | 0 <= i < |headers| :: r[i] == CellText(Lookup(row, headers[i]))
  {
    if headers == [] then [] else [CellText(Lookup(row, headers[0]))] + Cells(headers[1..], row)
  }

  /** The data lines: each record's escaped cells joined with semicolons. */
  function DataLines(headers: seq<string>, data: seq<Row>): (r: seq<string>)
    ensures |r| == |data|
  {
    if data == [] then []
    else [Join(EscapeAll(Cells(headers, data[0])), [Separator])] + DataLines(headers, data[1..])
  }

  /** The content `downloadCSV` builds; nothing for no records, as it returns before building any. */
  function Content(data: seq<Row>): (r: Option<string>)
    ensures r.Some? <==> data != []
    ensures r.Some? ==> |r.value| >= 1 && r.value[0] == Bom
  {
    if data == [] then None
    else
      var headers := Keys(data[0]);
      Some([Bom] + Join([Join(headers, [Separator])] + DataLines(headers, data), [LineFeed]))
  }

  /** `filename.endsWith('.csv') ? filename : filename + '.csv'`. */
  function DownloadName(filename: string): (r: string)
    ensures |r| >= 4 && r[|r| - 4..] == ".csv"
    ensures r == filename <==> (|filename| >= 4 && filename[|filename| - 4..] == ".csv")
    ensures r != filename ==> r == filename + ".csv"
  {
    if |filename| >= 4 && filename[|filename| - 4..] == ".csv" then filename else filename + ".csv"
  }

  // ---------------------------------------------------------------------------
  // Properties of the writer
  // ---------------------------------------------------------------------------

  /** Naming the file a second time changes nothing. */
  lemma DownloadNameIdempotent(filename: string)
    ensures DownloadName(DownloadName(filename)) == DownloadName(filename)
  {
  }

  // ---------------------------------------------------------------------------
  // A reader for the format, and the round trip
  // ---------------------------------------------------------------------------

  /** An unquoted field: everything up to the next separator or line feed. */
  function ReadPlain(s: string): (r: (string, string))
    ensures |r.1| <= |s|
  {
    if s == [] || s[0] == Separator || s[0] == LineFeed then ("", s)
    else
      var tail := ReadPlain(s[1..]);
      ([s[0]] + tail.0, tail.1)
  }

  /** The inside of a quoted field, after its opening quote: a doubled quote is one quote, a single one closes it. */
  function ReadQuoted(s: string): (r: (string, string))
    ensures |r.1| <= |s|
  {
    if s == [] then ("", "")
    else if s[0] == Quote then
      if |s| >= 2 && s[1] == Quote then
        var tail := ReadQuoted(s[2..]);
        ([Quote] + tail.0, tail.1)
      else ("", s[1..])
    else
      var tail := ReadQuoted(s[1..]);
      ([s[0]] + tail.0, tail.1)
  }

  /** One field, quoted or not, and what follows it. */
  function ReadField(s: string): (r: (string, string))
    ensures |r.1| <= |s|
  {
    if s != [] && s[0] == Quote then ReadQuoted(s[1..]) else ReadPlain(s)
  }

  /** The fields of one line and what follows it, from the line feed that ends it on. */
  function ReadLine(s: string): (r: (seq<string>, string))
    ensures |r.1| <= |s|
    decreases |s|
  {
    var field := ReadField(s);
    if field.1 != [] && field.1[0] == Separator then
      var tail := ReadLine(field.1[1..]);
      ([field.0] + tail.0, tail.1)
    else ([field.0], field.1)
  }

  /** Every line of a text, each as its fields. */
  function Read(s: string): seq<seq<string>>
    decreases |s|
  {
    var line := ReadLine(s);
    if line.1 != [] && line.1[0] == LineFeed then [line.0] + Read(line.1[1..]) else [line.0]
  }

  /** What may follow a field: nothing, a separator or a line feed. */
  predicate FieldEnd(rest: string) {
    rest == [] || rest[0] == Separator || rest[0] == LineFeed
  }

  lemma {:induction false} ReadPlainBack(f: string, rest: string)
    requires Separator !in f && LineFeed !in f
    requires FieldEnd(rest)
    ensures ReadPlain(f + rest) == (f, rest)
  {
    if f == [] {
      assert f + rest == rest;
    } else {
      var s := f + rest;
      assert f[0] in f;
      assert s[0] == f[0] && s[1..] == f[1..] + rest;
      assert Separator !in f[1..] && LineFeed !in f[1..] by {
        assert forall c | c in f[1..] :: c in f;
      }
      ReadPlainBack(f[1..], rest);
      assert ReadPlain(s) == ([f[0]] + f[1..], rest);
      assert [f[0]] + f[1..] == f;
    }
  }

  /** One step of reading a quoted field: a doubled quote, or any other character, is kept. */
  lemma ReadQuotedStep(c: char, tail: string)
    ensures c == Quote ==> ReadQuoted([Quote, Quote] + tail) == ([Quote] + ReadQuoted(tail).0, ReadQuoted(tail).1)
    ensures c != Quote ==> ReadQuoted([c] + tail) == ([c] + ReadQuoted(tail).0, ReadQuoted(tail).1)
  {
    assert ([Quote, Quote] + tail)[2..] == tail;
    assert ([c] + tail)[1..] == tail;
  }

  lemma DoubleQuotesStep(f: string, rest: string)
    requires f != []
    ensures DoubleQuotes(f) + [Quote] + rest
      == (if f[0] == Quote then [Quote, Quote] else [f[0]]) + (DoubleQuotes(f[1..]) + [Quote] + rest)
  {
  }

  lemma {:induction false} ReadQuotedBack(f: string, rest: string)
    requires FieldEnd(rest)
    ensures ReadQuoted(DoubleQuotes(f) + [Quote] + rest) == (f, rest)
  {
    if f == [] {
      assert DoubleQuotes(f) + [Quote] + rest == [Quote] + rest;
    } else {
      ReadQuotedBack(f[1..], rest);
      DoubleQuotesStep(f, rest);
      ReadQuotedStep(f[0], DoubleQuotes(f[1..]) + [Quote] + rest);
      assert [f[0]] + f[1..] == f;
    }
  }

  /** Reading a written field gives it back, and stops where it ends. */
  lemma ReadFieldBack(f: string, rest: string)
    requires FieldEnd(rest)
    ensures ReadField(Escape(f) + rest) == (f, rest)
  {
    if NeedsQuoting(f) {
      ReadQuotedBack(f, rest);
      assert Escape(f) + rest == [Quote] + (DoubleQuotes(f) + [Quote] + rest);
    } else {
      ReadPlainBack(f, rest);
      assert f != [] ==> f[0] != Quote;
    }
  }

  /** Reading a written line gives back its fields, and stops at the line feed after it. */
  lemma {:induction false} ReadLineBack(fields: seq<string>, rest: string)
    requires fields != []
    requires rest == [] || rest[0] == LineFeed
    ensures ReadLine(Join(EscapeAll(fields), [Separator]) + rest) == (fields, rest)
  {
    var line := Join(EscapeAll(fields), [Separator]);
    if |fields| == 1 {
      assert line == Escape(fields[0]);
      ReadFieldBack(fields[0], rest);
      assert [fields[0]] == fields;
    } else {
      var tail := Join(EscapeAll(fields[1..]), [Separator]) + rest;
      assert EscapeAll(fields)[1..] == EscapeAll(fields[1..]);
      assert line == Escape(fields[0]) + [Separator] + Join(EscapeAll(fields[1..]), [Separator]);
      var after := [Separator] + tail;
      assert line + rest == Escape(fields[0]) + after;
      ReadFieldBack(fields[0], after);
      assert ReadField(line + rest) == (fields[0], after);
      ReadLineBack(fields[1..], rest);
      assert after[0] == Separator && after[1..] == tail;
      assert ReadLine(tail) == (fields[1..], rest);
      assert ReadLine(line + rest) == ([fields[0]] + fields[1..], rest);
      assert [fields[0]] + fields[1..] == fields;
    }
  }

  /** A line that ends at a line feed is followed by the lines after it. */
  lemma ReadStep(s: string, fields: seq<string>, tail: string)
    requires ReadLine(s) == (fields, [LineFeed] + tail)
    ensures Read(s) == [fields] + Read(tail)
  {
    assert ([LineFeed] + tail)[1..] == tail;
  }

  /** Writing two or more lines is writing the first, a line feed, then the rest. */
  lemma WriteStep(lines: seq<seq<string>>)
    requires |lines| >= 2
    ensures Join(WriteLines(lines), [LineFeed])
      == Join(EscapeAll(lines[0]), [Separator]) + ([LineFeed] + Join(WriteLines(lines[1..]), [LineFeed]))
  {
    assert WriteLines(lines)[1..] == WriteLines(lines[1..]);
  }

  /** Reading written lines gives back every line's fields. */
  lemma {:induction false} ReadBack(lines: seq<seq<string>>)
    requires lines != []
    requires forall i | 0 <= i < |lines| :: lines[i] != []
    ensures Read(Join(WriteLines(lines), [LineFeed])) == lines
  {
    if |lines| == 1 {
      ReadLineBack(lines[0], "");
      assert Join(EscapeAll(lines[0]), [Separator]) + "" == Join(EscapeAll(lines[0]), [Separator]);
    } else {
      var tail := Join(WriteLines(lines[1..]), [LineFeed]);
      WriteStep(lines);
      ReadLineBack(lines[0], [LineFeed] + tail);
      ReadStep(Join(EscapeAll(lines[0]), [Separator]) + ([LineFeed] + tail), lines[0], tail);
      ReadBack(lines[1..]);
      assert [lines[0]] + lines[1..] == lines;
    }
  }

  /** Each line written as its escaped fields joined with semicolons. */
  function WriteLines(lines: seq<seq<string>>): (r: seq<string>)
    ensures |r| == |lines|
  {
    if lines == [] then [] else [Join(EscapeAll(lines[0]), [Separator])] + WriteLines(lines[1..])
  }

  /** The cells of every record, in header order. */
  function Table(headers: seq<string>, data: seq<Row>): (r: seq<seq<string>>)
    ensures |r| == |data|
    ensures forall i | 0 <= i < |data| :: r[i] == Cells(headers, data[i])
  {
    if data == [] then [] else [Cells(headers, data[0])] + Table(headers, data[1..])
  }

  /** Header names that need no quoting are written as the escaped form would write them. */
  lemma {:induction false} PlainHeaders(headers: seq<string>)
    requires forall i | 0 <= i < |headers| :: !NeedsQuoting(headers[i])
    ensures EscapeAll(headers) == headers
  {
    if headers != [] {
      PlainHeaders(headers[1..]);
    }
  }

  lemma {:induction false} DataLinesAreWritten(headers: seq<string>, data: seq<Row>)
    ensures DataLines(headers, data) == WriteLines(Table(headers, data))
  {
    if data != [] {
      DataLinesAreWritten(headers, data[1..]);
    }
  }

  /**
   * When the first record has a key and none of its keys needs quoting (the
   * header row is written unescaped), reading the content after the byte order
   * mark gives back the header row and, for every record, its cells in header order.
   */
  lemma ContentReadsBack(data: seq<Row>)
    requires data != [] && data[0] != []
    requires forall i | 0 <= i < |data[0]| :: !NeedsQuoting(data[0][i].0)
    ensures var headers := Keys(data[0]);
      && Content(data).Some?
      && Content(data).value[0] == Bom
      && Read(Content(data).value[1..]) == [headers] + Table(headers, data)
  {
    var headers := Keys(data[0]);
    var lines := [headers] + Table(headers, data);
    PlainHeaders(headers);
    DataLinesAreWritten(headers, data);
    assert WriteLines(lines) == [Join(headers, [Separator])] + DataLines(headers, data) by {
      assert WriteLines(lines)[1..] == WriteLines(lines[1..]);
      assert lines[1..] == Table(headers, data);
    }
    forall i | 0 <= i < |lines|
      ensures lines[i] != []
    {
      if i > 0 {
        assert lines[i] == Cells(headers, data[i - 1]);
      }
    }
    ReadBack(lines);
    var body := Join(WriteLines(lines), [LineFeed]);
    assert Content(data).value == [Bom] + body;
    assert ([Bom] + body)[1..] == body;
  }
}
