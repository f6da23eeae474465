/** The two CSV writers (the export manager's, which quotes only when needed,
    and the data manager's, which quotes every cell) and a reader following
    rules 5 to 7 of section 2 of RFC 4180, with the round trip proved for both. */
module Csv {
  import opened Records
  import opened Seqs

  /** The fixed column order of every export. */
  const Headers: seq<string> := ["name", "email", "journal", "topic", "verified", "duplicate", "source_url", "timestamp"]

  /** `fields.join(',')`, with no quoting. */
  function JoinCommas(fields: seq<string>): string
  {
    if fields == [] then "" else if |fields| == 1 then fields[0] else fields[0] + "," + JoinCommas(fields[1..])
  }

  /** The header line, `headers.join(',')`. */
  const HeaderLine: string := JoinCommas(Headers)

  /** `String(item[header] || '')` for a flag: false is falsy and prints as nothing. */
  function FlagText(b: bool): string
  {
    if b then "true" else ""
  }

  /** The eight cell texts of a record, in header order. */
  function Cells(c: Contact): (r: seq<string>)
    ensures |r| == |Headers|
  {
    [c.name, c.email, c.journal, c.topic, FlagText(c.verified), FlagText(c.duplicate), c.sourceUrl, c.timestamp]
  }

  /** `value.replace(/"/g, '""')`. */
  function Double(t: string): (r: string)
    ensures |r| >= |t|
    ensures ('"' in r) == ('"' in t) && (',' in r) == (',' in t) && ('\n' in r) == ('\n' in t)
    ensures '"' !in t ==> r == t
  {
    if t == [] then [] else (if t[0] == '"' then "\"\"" else [t[0]]) + Double(t[1..])
  }

  predicate NeedsQuotes(t: string)
  {
    ',' in t || '"' in t || '\n' in t
  }

  /** One cell as the export manager writes it (`quoteAll` false) or as the data
      manager writes it (`quoteAll` true). */
  function EncodeCell(t: string, quoteAll: bool): (r: string)
    ensures quoteAll || NeedsQuotes(t) ==> r == "\"" + Double(t) + "\""
    ensures !quoteAll && !NeedsQuotes(t) ==> r == t
  {
    if quoteAll || NeedsQuotes(t) then "\"" + Double(t) + "\"" else Double(t)
  }

  /** `row.join(',')` over the encoded cells. */
  function RenderRow(fields: seq<string>, quoteAll: bool): string
    requires |fields| >= 1
  {
    if |fields| == 1 then EncodeCell(fields[0], quoteAll)
    else EncodeCell(fields[0], quoteAll) + "," + RenderRow(fields[1..], quoteAll)
  }

  /** `lines.join('\n')`. */
  function JoinLines(ls: seq<string>): string
  {
    if ls == [] then "" else if |ls| == 1 then ls[0] else ls[0] + "\n" + JoinLines(ls[1..])
  }

  /** The cells of each record, in record order. */
  function CellRows(data: seq<Contact>): (r: seq<seq<string>>)
    ensures |r| == |data| && forall i :: 0 <= i < |data| ==> r[i] == Cells(data[i])
  {
    if data == [] then [] else [Cells(data[0])] + CellRows(data[1..])
  }

  /** One written line per record, in record order. */
  function RecordLines(data: seq<Contact>, quoteAll: bool): (r: seq<string>)
    ensures |r| == |data| && forall i :: 0 <= i < |data| ==> r[i] == RenderRow(Cells(data[i]), quoteAll)
  {
    if data == [] then [] else [RenderRow(Cells(data[0]), quoteAll)] + RecordLines(data[1..], quoteAll)
  }

  /** `generateCSV` of the export manager. */
  function GenerateCsv(data: seq<Contact>): string
  {
    if data == [] then "" else JoinLines([HeaderLine] + RecordLines(data, false))
  }

  /** `exportToCSV` of the data manager: the same layout, every cell quoted. */
  function ExportToCsv(results: seq<Contact>): string
  {
    if results == [] then "" else JoinLines([HeaderLine] + RecordLines(results, true))
  }

  // ---------------------------------------------------------------- reader

  /** Unquoted cell: everything up to the next comma, line break or the end. */
  function ScanPlain(s: string): (r: (string, string))
    ensures |r.1| <= |s|
  {
    if s == [] || s[0] == ',' || s[0] == '\n' then ([], s)
    else var (f, rest) := ScanPlain(s[1..]); ([s[0]] + f, rest)
  }

  /** Inside a quoted cell: `""` stands for one quote and a lone `"` closes the cell. */
  function ScanQuoted(s: string): (r: (string, string))
    ensures |r.1| <= |s|
  {
    if s == [] then ([], [])
    else if s[0] == '"' then
      if |s| > 1 && s[1] == '"' then var (f, rest) := ScanQuoted(s[2..]); ("\"" + f, rest)
      else ([], s[1..])
    else var (f, rest) := ScanQuoted(s[1..]); ([s[0]] + f, rest)
  }

  function ParseCell(s: string): (r: (string, string))
    ensures |r.1| <= |s|
  {
    if |s| > 0 && s[0] == '"' then ScanQuoted(s[1..]) else ScanPlain(s)
  }

  /** Cells separated by commas, up to a line break or the end. */
  function ParseRow(s: string): (r: (seq<string>, string))
    ensures |r.1| <= |s|
    decreases |s|
  {
    var (f, rest) := ParseCell(s);
    if |rest| > 0 && rest[0] == ',' then
      var (fs, rest') := ParseRow(rest[1..]); ([f] + fs, rest')
    else ([f], rest)
  }

  /** Rows separated by line breaks; reading stops at the first malformed row end. */
  function ParseDocument(s: string): seq<seq<string>>
    decreases |s|
  {
    var (row, rest) := ParseRow(s);
    if |rest| > 0 && rest[0] == '\n' then [row] + ParseDocument(rest[1..]) else [row]
  }

  // ---------------------------------------------------------------- round trip

  lemma {:induction false} ScanQuotedDouble(t: string, rest: string)
    requires rest == [] || rest[0] != '"'
    ensures ScanQuoted(Double(t) + ("\"" + rest)) == (t, rest)
  {
    if t == [] {
      assert Double(t) + ("\"" + rest) == "\"" + rest;
    } else {
      ScanQuotedDouble(t[1..], rest);
      var x := Double(t[1..]) + ("\"" + rest);
      DoubleStep(t, rest);
      if t[0] == '"' {
        ScanQuotedPair(x);
      } else {
        ScanQuotedOther(t[0], x);
      }
      assert t == [t[0]] + t[1..];
    }
  }

  /** Doubling a non-empty text, one character at a time. */
  lemma DoubleStep(t: string, rest: string)
    requires t != []
    ensures Double(t) + ("\"" + rest) == (if t[0] == '"' then "\"\"" else [t[0]]) + (Double(t[1..]) + ("\"" + rest))
  {
    var h := if t[0] == '"' then "\"\"" else [t[0]];
    var d := Double(t[1..]);
    assert Double(t) == h + d;
    Regroup(h, d, "\"" + rest);
  }

  /** A doubled quote inside a quoted cell reads as one quote. */
  lemma ScanQuotedPair(x: string)
    ensures ScanQuoted("\"\"" + x) == ("\"" + ScanQuoted(x).0, ScanQuoted(x).1)
  {
    assert ("\"\"" + x)[2..] == x;
  }

  /** Any other character inside a quoted cell reads as itself. */
  lemma ScanQuotedOther(c: char, x: string)
    requires c != '"'
    ensures ScanQuoted([c] + x) == ([c] + ScanQuoted(x).0, ScanQuoted(x).1)
  {
    assert ([c] + x)[1..] == x;
  }

  lemma {:induction false} ScanPlainClean(t: string, rest: string)
    requires ',' !in t && '\n' !in t
    requires rest == [] || rest[0] == ',' || rest[0] == '\n'
    ensures ScanPlain(t + rest) == (t, rest)
  {
    if t != [] {
      assert t == [t[0]] + t[1..];
      assert t[0] in t;
      assert ',' !in t[1..] && '\n' !in t[1..];
      ScanPlainClean(t[1..], rest);
      var s := t + rest;
      assert s[0] == t[0] && s[1..] == t[1..] + rest;
      assert ScanPlain(s) == ([t[0]] + t[1..], rest);
    } else {
      assert t + rest == rest;
    }
  }

  /** A cell that opens with a quote is scanned from the character after it. */
  lemma OpenQuote(body: string, rest: string)
    ensures ParseCell("\"" + (body + ("\"" + rest))) == ScanQuoted(body + ("\"" + rest))
  {
    assert ("\"" + (body + ("\"" + rest)))[1..] == body + ("\"" + rest);
  }

  /** Reading back one written cell gives the original text and stops just before
      the separator that follows it, whichever writer produced it. */
  lemma CellRoundTrip(t: string, quoteAll: bool, rest: string)
    requires rest == [] || rest[0] == ',' || rest[0] == '\n'
    ensures ParseCell(EncodeCell(t, quoteAll) + rest) == (t, rest)
  {
    if quoteAll || NeedsQuotes(t) {
      ScanQuotedDouble(t, rest);
      OpenQuote(Double(t), rest);
      Regroup("\"" + Double(t), "\"", rest);
      Regroup("\"", Double(t), "\"" + rest);
    } else {
      ScanPlainClean(t, rest);
    }
  }

  /** After a cell, a comma means the row goes on. */
  lemma ParseRowComma(s: string, f: string, tail: string)
    requires ParseCell(s) == (f, "," + tail)
    ensures ParseRow(s) == ([f] + ParseRow(tail).0, ParseRow(tail).1)
  {
    assert ("," + tail)[1..] == tail;
  }

  /** After a row, a line break means the document goes on. */
  lemma ParseDocumentNewline(s: string, row: seq<string>, tail: string)
    requires ParseRow(s) == (row, "\n" + tail)
    ensures ParseDocument(s) == [row] + ParseDocument(tail)
  {
    assert ("\n" + tail)[1..] == tail;
  }

  lemma RenderRowCons(fields: seq<string>, quoteAll: bool, rest: string)
    requires |fields| > 1
    ensures RenderRow(fields, quoteAll) + rest
         == EncodeCell(fields[0], quoteAll) + ("," + (RenderRow(fields[1..], quoteAll) + rest))
  {
  }

  lemma JoinLinesCons(ls: seq<string>)
    requires |ls| > 1
    ensures JoinLines(ls) == ls[0] + ("\n" + JoinLines(ls[1..]))
  {
  }

  lemma {:induction false} RowRoundTrip(fields: seq<string>, quoteAll: bool, rest: string)
    requires |fields| >= 1
    requires rest == [] || rest[0] == '\n'
    ensures ParseRow(RenderRow(fields, quoteAll) + rest) == (fields, rest)
  {
    if |fields| == 1 {
      CellRoundTrip(fields[0], quoteAll, rest);
      assert RenderRow(fields, quoteAll) + rest == EncodeCell(fields[0], quoteAll) + rest;
      assert fields == [fields[0]];
    } else {
      var tail := RenderRow(fields[1..], quoteAll) + rest;
      RenderRowCons(fields, quoteAll, rest);
      CellRoundTrip(fields[0], quoteAll, "," + tail);
      ParseRowComma(EncodeCell(fields[0], quoteAll) + ("," + tail), fields[0], tail);
      RowRoundTrip(fields[1..], quoteAll, rest);
      assert fields == [fields[0]] + fields[1..];
    }
  }

  /** Rows, each rendered with the same writer, one per line. */
  function RenderRows(rows: seq<seq<string>>, quoteAll: bool): (r: seq<string>)
    requires forall k :: 0 <= k < |rows| ==> |rows[k]| >= 1
    ensures |r| == |rows|
  {
    if rows == [] then [] else [RenderRow(rows[0], quoteAll)] + RenderRows(rows[1..], quoteAll)
  }

  /** A document of rendered rows, one per line, reads back as those rows. */
  lemma {:induction false} DocumentRoundTrip(rows: seq<seq<string>>, quoteAll: bool)
    requires rows != []
    requires forall k :: 0 <= k < |rows| ==> |rows[k]| >= 1
    ensures ParseDocument(JoinLines(RenderRows(rows, quoteAll))) == rows
  {
    var lines := RenderRows(rows, quoteAll);
    if |rows| == 1 {
      RowRoundTrip(rows[0], quoteAll, []);
      assert JoinLines(lines) == lines[0] + [];
    } else {
      var tail := JoinLines(RenderRows(rows[1..], quoteAll));
      assert lines[1..] == RenderRows(rows[1..], quoteAll);
      JoinLinesCons(lines);
      RowRoundTrip(rows[0], quoteAll, "\n" + tail);
      ParseDocumentNewline(JoinLines(lines), rows[0], tail);
      DocumentRoundTrip(rows[1..], quoteAll);
      assert rows == [rows[0]] + rows[1..];
    }
  }

  lemma {:induction false} RecordLinesRendered(data: seq<Contact>, quoteAll: bool)
    ensures RecordLines(data, quoteAll) == RenderRows(CellRows(data), quoteAll)
  {
    if data != [] {
      RecordLinesRendered(data[1..], quoteAll);
      assert CellRows(data)[1..] == CellRows(data[1..]);
    }
  }

  /** A row none of whose cells needs quoting is written as the plain join. */
  lemma {:induction false} PlainRowIsJoin(fields: seq<string>)
    requires |fields| >= 1
    requires forall k :: 0 <= k < |fields| ==> !NeedsQuotes(fields[k])
    ensures RenderRow(fields, false) == JoinCommas(fields)
  {
    if |fields| > 1 {
      PlainRowIsJoin(fields[1..]);
    }
  }

  lemma FrontHeadersPlain()
    ensures !NeedsQuotes("name") && !NeedsQuotes("email") && !NeedsQuotes("journal") && !NeedsQuotes("topic")
  {
  }

  lemma BackHeadersPlain()
    ensures !NeedsQuotes("verified") && !NeedsQuotes("duplicate") && !NeedsQuotes("source_url") && !NeedsQuotes("timestamp")
  {
  }

  lemma HeaderLineIsRendered()
    ensures HeaderLine == RenderRow(Headers, false)
  {
    FrontHeadersPlain();
    BackHeadersPlain();
    assert forall k :: 0 <= k < |Headers| ==> !NeedsQuotes(Headers[k]);
    PlainRowIsJoin(Headers);
  }

  lemma RecordsRoundTrip(data: seq<Contact>, quoteAll: bool)
    requires data != []
    ensures ParseDocument(JoinLines([HeaderLine] + RecordLines(data, quoteAll))) == [Headers] + CellRows(data)
  {
    var body := RecordLines(data, quoteAll);
    var lines := [HeaderLine] + body;
    assert lines[1..] == body;
    JoinLinesCons(lines);
    HeaderLineIsRendered();
    RowRoundTrip(Headers, false, "\n" + JoinLines(body));
    ParseDocumentNewline(JoinLines(lines), Headers, JoinLines(body));
    RecordLinesRendered(data, quoteAll);
    DocumentRoundTrip(CellRows(data), quoteAll);
  }

  /** The export manager's file reads back as the header followed by one row per
      record, in order, each holding that record's eight cells. */
  lemma GenerateCsvRoundTrip(data: seq<Contact>)
    requires data != []
    ensures ParseDocument(GenerateCsv(data)) == [Headers] + CellRows(data)
  {
    RecordsRoundTrip(data, false);
  }

  /** The data manager's file reads back the same way, although every cell is quoted. */
  lemma ExportToCsvRoundTrip(results: seq<Contact>)
    requires results != []
    ensures ParseDocument(ExportToCsv(results)) == [Headers] + CellRows(results)
  {
    RecordsRoundTrip(results, true);
  }

  /** The first line is exactly the header, and there is no output at all without data. */
  lemma GenerateCsvShape(data: seq<Contact>)
    ensures data == [] ==> GenerateCsv(data) == "" && ExportToCsv(data) == ""
    ensures data != [] ==> GenerateCsv(data)[..|HeaderLine| + 1] == HeaderLine + "\n"
    ensures data != [] ==> ExportToCsv(data)[..|HeaderLine| + 1] == HeaderLine + "\n"
  {
    if data != [] {
      var lines := [HeaderLine] + RecordLines(data, false);
      assert lines[1..] == RecordLines(data, false);
      var lines' := [HeaderLine] + RecordLines(data, true);
      assert lines'[1..] == RecordLines(data, true);
    }
  }
}
