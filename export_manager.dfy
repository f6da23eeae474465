/** The export manager: the guards in front of every download, the statistics
    report with its journal breakdown listed by falling count, and the
    validation report with its errors and warnings. */
module Exports {
  import opened Wrappers
  import opened Text
  import opened Records
  import opened Csv
  import opened EmailRules

  /** `supportedFormats`. */
  const Formats: seq<string> := ["csv", "xlsx", "json", "txt"]

  /** What a download hands to the browser. */
  datatype Download = Download(filename: string, content: string, mimeType: string)

  /** `s.replace(pat, rep)` with a string pattern: only the first occurrence is replaced. */
  function ReplaceFirst(s: string, pat: string, rep: string): (r: string)
    requires pat != []
    ensures !Contains(s, pat) ==> r == s
    decreases |s|
  {
    if |s| < |pat| then s
    else if s[..|pat|] == pat then
      assert OccursAt(s, pat, 0);
      rep + s[|pat|..]
    else
      var r := [s[0]] + ReplaceFirst(s[1..], pat, rep);
      assert !Contains(s, pat) ==> !Contains(s[1..], pat) by {
        if Contains(s[1..], pat) {
          var i :| 0 <= i <= |s[1..]| - |pat| && OccursAt(s[1..], pat, i);
          assert s[i + 1..i + 1 + |pat|] == s[1..][i..i + |pat|];
          assert OccursAt(s, pat, i + 1);
        }
      }
      r
  }

  /** `pat` occurs in `s` at `k` and nowhere before. */
  predicate FirstOccurrence(s: string, pat: string, k: int)
  {
    OccursAt(s, pat, k) && forall j :: 0 <= j < k ==> !OccursAt(s, pat, j)
  }

  /** When the pattern occurs, exactly its first occurrence is replaced and the
      text around it is kept. */
  lemma {:induction false} ReplaceFirstCharacterised(s: string, pat: string, rep: string)
    requires pat != []
    ensures Contains(s, pat) ==>
      exists k :: FirstOccurrence(s, pat, k) && ReplaceFirst(s, pat, rep) == s[..k] + rep + s[k + |pat|..]
    decreases |s|
  {
    if |s| >= |pat| && s[..|pat|] == pat {
      assert FirstOccurrence(s, pat, 0);
      assert ReplaceFirst(s, pat, rep) == s[..0] + rep + s[0 + |pat|..];
    } else if Contains(s, pat) {
      var t := s[1..];
      var i :| 0 <= i <= |s| - |pat| && OccursAt(s, pat, i);
      OccursShift(s, pat, i);
      ReplaceFirstCharacterised(t, pat, rep);
      var k :| FirstOccurrence(t, pat, k) && ReplaceFirst(t, pat, rep) == t[..k] + rep + t[k + |pat|..];
      FirstOccurrenceShift(s, pat, k);
      ReplaceFirstTail(s, pat, rep);
      SpliceShift(s, pat, rep, k);
      assert FirstOccurrence(s, pat, k + 1) && ReplaceFirst(s, pat, rep) == s[..k + 1] + rep + s[k + 1 + |pat|..];
    }
  }

  /** Past a first character that does not start the pattern, the search goes on in the rest. */
  lemma ReplaceFirstTail(s: string, pat: string, rep: string)
    requires pat != [] && |s| >= |pat| && s[..|pat|] != pat
    ensures ReplaceFirst(s, pat, rep) == [s[0]] + ReplaceFirst(s[1..], pat, rep)
  {
  }

  lemma OccursShift(s: string, pat: string, j: int)
    requires 0 < j && s != []
    ensures OccursAt(s, pat, j) <==> OccursAt(s[1..], pat, j - 1)
  {
    if 0 <= j <= |s| - |pat| {
      assert s[1..][j - 1..j - 1 + |pat|] == s[j..j + |pat|];
    }
  }

  lemma FirstOccurrenceShift(s: string, pat: string, k: int)
    requires s != [] && pat != [] && !OccursAt(s, pat, 0) && FirstOccurrence(s[1..], pat, k)
    ensures FirstOccurrence(s, pat, k + 1)
  {
    OccursShift(s, pat, k + 1);
    forall j | 0 < j < k + 1 ensures !OccursAt(s, pat, j) {
      OccursShift(s, pat, j);
    }
  }

  lemma SpliceShift(s: string, pat: string, rep: string, k: int)
    requires s != [] && 0 <= k && k + |pat| <= |s| - 1
    ensures [s[0]] + (s[1..][..k] + rep + s[1..][k + |pat|..]) == s[..k + 1] + rep + s[k + 1 + |pat|..]
  {
    assert [s[0]] + s[1..][..k] == s[..k + 1];
    assert s[1..][k + |pat|..] == s[k + 1 + |pat|..];
  }

  /** A name with no `.` before the `.xlsx` extension gets `.csv` in its place. */
  lemma {:induction false} XlsxBecomesCsv(base: string)
    requires '.' !in base
    ensures ReplaceFirst(base + ".xlsx", ".xlsx", ".csv") == base + ".csv"
  {
    var s := base + ".xlsx";
    if base == [] {
      assert s == ".xlsx";
      assert s[5..] == [];
    } else {
      assert s[0] == base[0] && s[0] != '.';
      assert s[..5] != ".xlsx";
      assert s[1..] == base[1..] + ".xlsx";
      XlsxBecomesCsv(base[1..]);
    }
  }

  /** `scholar_scraper_export_${date}`. */
  function DefaultName(today: string): string
  {
    "scholar_scraper_export_" + today
  }

  /** The block `exportTXT` writes for one record; `localeDate` renders the record's
      timestamp the way `toLocaleString` does. */
  function TxtBlock(c: Contact, localeDate: string -> string): string
  {
    JoinLines([
      "Name: " + (if c.name == "" then "N/A" else c.name),
      "Email: " + c.email,
      "Journal: " + (if c.journal == "" then "N/A" else c.journal),
      "Topic: " + (if c.topic == "" then "N/A" else c.topic),
      "Verified: " + (if c.verified then "Yes" else "No"),
      "Source: " + c.sourceUrl,
      "Date: " + localeDate(c.timestamp),
      "---"])
  }

  /** The blocks of `exportTXT`, separated by an empty line. */
  function TxtContent(data: seq<Contact>, localeDate: string -> string): string
  {
    if data == [] then ""
    else if |data| == 1 then TxtBlock(data[0], localeDate)
    else TxtBlock(data[0], localeDate) + "\n\n" + TxtContent(data[1..], localeDate)
  }

  /** The name of the download: the given one, or the default name with the
      format as extension; an `.xlsx` name is then saved as `.csv`. */
  function ExportName(format: string, filename: string, today: string): string
  {
    var name := if filename != "" then filename else DefaultName(today) + "." + format;
    if format == "xlsx" then ReplaceFirst(name, ".xlsx", ".csv") else name
  }

  /** Without a given name the file is called after the day, with `.csv` for the
      spreadsheet format and the format's own extension otherwise. */
  lemma DefaultExportName(format: string, today: string)
    requires '.' !in today
    ensures ExportName(format, "", today) == DefaultName(today) + "." + (if format == "xlsx" then "csv" else format)
  {
    if format == "xlsx" {
      assert DefaultName(today) + "." + format == DefaultName(today) + ".xlsx";
      XlsxBecomesCsv(DefaultName(today));
    }
  }

  /** The byte order mark put in front of the spreadsheet export. */
  const Bom: char := '\U{FEFF}'

  /** The file body and its MIME type for a supported format. */
  function ExportContent(format: string, d: seq<Contact>, stringify: seq<Contact> -> string,
                         localeDate: string -> string): (string, string)
  {
    if format == "csv" then (GenerateCsv(d), "text/csv")
    else if format == "xlsx" then ([Bom] + GenerateCsv(d), "text/csv")
    else if format == "json" then (stringify(d), "application/json")
    else (TxtContent(d, localeDate), "text/plain")
  }

  /** `exportData`. `data` is None for a null argument, an empty `filename` stands
      for the missing or falsy one, `today` is the ISO date of the clock and
      `stringify` is `JSON.stringify(data, null, 2)`. The format is checked first,
      then the data; only then is anything produced. */
  function ExportData(data: Option<seq<Contact>>, format: string, filename: string, today: string,
                      stringify: seq<Contact> -> string, localeDate: string -> string): (r: Result<Download, string>)
    ensures r.Err? <==> format !in Formats || data.None? || data.value == []
    ensures format !in Formats ==> r == Err("Unsupported format: " + format)
    ensures format in Formats && (data.None? || data.value == []) ==> r == Err("No data to export")
    ensures r.Ok? ==> r.value.filename == ExportName(format, filename, today)
    ensures r.Ok? && format == "csv" ==>
      r.value.mimeType == "text/csv" && ParseDocument(r.value.content) == [Headers] + CellRows(data.value)
    ensures r.Ok? && format == "xlsx" ==> r.value.content == [Bom] + GenerateCsv(data.value)
    ensures r.Ok? && format == "json" ==> r.value.content == stringify(data.value)
  {
    if format !in Formats then Err("Unsupported format: " + format)
    else if data.None? || data.value == [] then Err("No data to export")
    else
      var d := data.value;
      var (content, mime) := ExportContent(format, d, stringify, localeDate);
      if format == "csv" then GenerateCsvRoundTrip(d); Ok(Download(ExportName(format, filename, today), content, mime))
      else Ok(Download(ExportName(format, filename, today), content, mime))
  }

  // ---------------------------------------------------------------- statistics

  /** The counting part of `generateExportStats`; `journals` is the insertion-ordered
      object of per-journal counts. */
  datatype ExportStats = ExportStats(
    totalRecords: nat,
    verifiedEmails: nat,
    unverifiedEmails: nat,
    duplicates: nat,
    uniqueEmails: nat,
    journals: seq<JournalCount>)

  /** `generateExportStats`: the filters count, and the loop tallies each record
      under its journal or under "Unknown". */
  method GenerateExportStats(data: seq<Contact>) returns (stats: ExportStats)
    ensures stats.totalRecords == |data|
    ensures stats.verifiedEmails == CountVerified(data) && stats.unverifiedEmails == CountUnverified(data)
    ensures stats.duplicates == CountDuplicates(data) && stats.uniqueEmails == |Emails(data)|
    ensures stats.verifiedEmails + stats.unverifiedEmails == stats.totalRecords
    ensures stats.uniqueEmails <= stats.totalRecords
    ensures stats.journals == Tally(data)
    ensures Total(stats.journals) == stats.totalRecords && LabelsDistinct(stats.journals)
    ensures forall l :: Lookup(stats.journals, l) == Occurrences(data, l)
  {
    var journals: seq<JournalCount> := [];
    for i := 0 to |data|
      invariant journals == Tally(data[..i])
    {
      assert data[..i + 1][..i] == data[..i];
      journals := Bump(journals, JournalLabel(data[i]));
    }
    assert data[..|data|] == data;
    VerifiedSplit(data);
    EmailsBounded(data);
    TallyCorrect(data);
    stats := ExportStats(|data|, CountVerified(data), CountUnverified(data), CountDuplicates(data), |Emails(data)|, journals);
  }

  /** Puts `x` in front of the first entry whose count is not larger, so that among
      equal counts the earlier entry stays first. */
  function InsertByCount(x: JournalCount, t: seq<JournalCount>): seq<JournalCount>
  {
    if t == [] || x.count >= t[0].count then [x] + t
    else [t[0]] + InsertByCount(x, t[1..])
  }

  lemma TotalCons(y: JournalCount, t: seq<JournalCount>)
    ensures Total([y] + t) == y.count + Total(t)
  {
    assert ([y] + t)[1..] == t;
  }

  /** Inserting keeps every entry and adds `x`: the same entries and total plus `x`'s. */
  lemma {:induction false} InsertByCountKeeps(x: JournalCount, t: seq<JournalCount>)
    ensures multiset(InsertByCount(x, t)) == multiset(t) + multiset{x} && |InsertByCount(x, t)| == |t| + 1
    ensures Total(InsertByCount(x, t)) == Total(t) + x.count
  {
    if t != [] && x.count < t[0].count {
      InsertByCountKeeps(x, t[1..]);
      assert t == [t[0]] + t[1..];
      TotalCons(t[0], InsertByCount(x, t[1..]));
      TotalCons(t[0], t[1..]);
    } else {
      TotalCons(x, t);
    }
  }

  /** Entries bounded by `b` stay bounded by `b` after an insertion of a bounded entry. */
  lemma {:induction false} InsertBounded(x: JournalCount, t: seq<JournalCount>, b: nat)
    requires x.count <= b
    requires forall k :: 0 <= k < |t| ==> t[k].count <= b
    ensures forall k :: 0 <= k < |InsertByCount(x, t)| ==> InsertByCount(x, t)[k].count <= b
  {
    if t != [] && x.count < t[0].count {
      InsertBounded(x, t[1..], b);
    }
  }

  /** `Object.entries(journals).sort(([,a], [,b]) => b - a)`: a stable sort by
      falling count. */
  function SortByCount(t: seq<JournalCount>): (r: seq<JournalCount>)
    ensures multiset(r) == multiset(t) && |r| == |t|
    ensures Total(r) == Total(t)
  {
    if t == [] then []
    else
      var rest := SortByCount(t[1..]);
      InsertByCountKeeps(t[0], rest);
      assert t == [t[0]] + t[1..];
      TotalCons(t[0], t[1..]);
      InsertByCount(t[0], rest)
  }

  predicate NonIncreasing(t: seq<JournalCount>)
  {
    forall i, j :: 0 <= i < j < |t| ==> t[i].count >= t[j].count
  }

  /** The entries with count `c`, in order. */
  function WithCount(t: seq<JournalCount>, c: nat): seq<JournalCount>
  {
    if t == [] then [] else (if t[0].count == c then [t[0]] else []) + WithCount(t[1..], c)
  }

  lemma {:induction false} InsertKeepsOrder(x: JournalCount, t: seq<JournalCount>)
    requires NonIncreasing(t)
    ensures NonIncreasing(InsertByCount(x, t))
  {
    if t != [] && x.count < t[0].count {
      InsertKeepsOrder(x, t[1..]);
      var rest := InsertByCount(x, t[1..]);
      InsertBounded(x, t[1..], t[0].count);
      var r := [t[0]] + rest;
      assert InsertByCount(x, t) == r;
      forall i, j | 0 <= i < j < |r| ensures r[i].count >= r[j].count {
        assert r[j] == rest[j - 1];
        if i > 0 {
          assert r[i] == rest[i - 1];
        }
      }
    }
  }

  lemma WithCountCons(y: JournalCount, t: seq<JournalCount>, c: nat)
    ensures WithCount([y] + t, c) == (if y.count == c then [y] else []) + WithCount(t, c)
  {
    assert ([y] + t)[1..] == t;
  }

  lemma {:induction false} InsertWithCount(x: JournalCount, t: seq<JournalCount>, c: nat)
    ensures WithCount(InsertByCount(x, t), c) == (if x.count == c then [x] else []) + WithCount(t, c)
  {
    if t != [] && x.count < t[0].count {
      var ins := InsertByCount(x, t[1..]);
      assert InsertByCount(x, t) == [t[0]] + ins;
      InsertWithCount(x, t[1..], c);
      WithCountCons(t[0], ins, c);
      WithCountCons(t[0], t[1..], c);
      assert t == [t[0]] + t[1..];
      if x.count == c {
        assert WithCount(t, c) == WithCount(t[1..], c);
        assert WithCount(InsertByCount(x, t), c) == WithCount(ins, c);
      } else {
        var ts: seq<JournalCount> := if t[0].count == c then [t[0]] else [];
        assert WithCount(ins, c) == WithCount(t[1..], c);
        assert WithCount(InsertByCount(x, t), c) == ts + WithCount(t[1..], c);
      }
    } else {
      assert InsertByCount(x, t) == [x] + t;
      WithCountCons(x, t, c);
    }
  }

  /** The journal breakdown is listed by falling count, every entry exactly once,
      and journals with the same count keep their first-counted order. */
  lemma {:induction false} SortByCountCorrect(t: seq<JournalCount>)
    ensures NonIncreasing(SortByCount(t))
    ensures multiset(SortByCount(t)) == multiset(t)
    ensures forall c :: WithCount(SortByCount(t), c) == WithCount(t, c)
  {
    if t != [] {
      SortByCountCorrect(t[1..]);
      InsertKeepsOrder(t[0], SortByCount(t[1..]));
      forall c ensures WithCount(SortByCount(t), c) == WithCount(t, c) {
        InsertWithCount(t[0], SortByCount(t[1..]), c);
      }
    }
  }

  /** `${journal}: ${count}` for each entry. */
  function JournalLines(t: seq<JournalCount>): (r: seq<string>)
    ensures |r| == |t|
    ensures forall i :: 0 <= i < |t| ==> r[i] == t[i].journal + ": " + NatToString(t[i].count)
  {
    if t == [] then [] else [t[0].journal + ": " + NatToString(t[0].count)] + JournalLines(t[1..])
  }

  function Repeat(c: char, n: nat): (r: string)
    ensures |r| == n && forall i :: 0 <= i < n ==> r[i] == c
  {
    if n == 0 then [] else [c] + Repeat(c, n - 1)
  }

  /** The lines of `formatStatsAsText`; `exportDate` is the clock as `toLocaleString`
      prints it and `dateRange` the two ends of the date range as `toLocaleDateString`
      prints them, when the data has one. */
  function StatsLines(stats: ExportStats, exportDate: string, dateRange: Option<(string, string)>): (lines: seq<string>)
    ensures |lines| >= |stats.journals|
    ensures lines[|lines| - |stats.journals|..] == JournalLines(SortByCount(stats.journals))
  {
    var head := [
      "Scholar Summit Email Scraper - Export Statistics",
      Repeat('=', 50),
      "",
      "Export Date: " + exportDate,
      "Total Records: " + NatToString(stats.totalRecords),
      "Verified Emails: " + NatToString(stats.verifiedEmails),
      "Unverified Emails: " + NatToString(stats.unverifiedEmails),
      "Unique Emails: " + NatToString(stats.uniqueEmails),
      "Duplicates: " + NatToString(stats.duplicates),
      ""];
    var range := match dateRange
      case Some((earliest, latest)) => ["Date Range: " + earliest + " - " + latest, ""]
      case None => [];
    var journals := JournalLines(SortByCount(stats.journals));
    var lines := head + range + ["Journals:", Repeat('-', 20)] + journals;
    assert |journals| == |stats.journals|;
    assert lines[|lines| - |journals|..] == journals;
    lines
  }

  function FormatStatsAsText(stats: ExportStats, exportDate: string, dateRange: Option<(string, string)>): string
  {
    JoinLines(StatsLines(stats, exportDate, dateRange))
  }

  /** The statistics text ends with one line per journal, listed by falling count,
      each journal exactly once with its count, equal counts in first-counted order. */
  lemma StatsTextListsJournals(data: seq<Contact>, stats: ExportStats, exportDate: string, dateRange: Option<(string, string)>)
    requires stats.journals == Tally(data)
    ensures var lines := StatsLines(stats, exportDate, dateRange);
      var sorted := SortByCount(stats.journals);
      && lines[|lines| - |stats.journals|..] == JournalLines(sorted)
      && NonIncreasing(sorted)
      && multiset(sorted) == multiset(Tally(data))
      && Total(sorted) == |data|
  {
    SortByCountCorrect(stats.journals);
    TallyCorrect(data);
  }

  // ---------------------------------------------------------------- validation

  /** The report of `validateExportData`. */
  datatype ExportCheck = ExportCheck(valid: bool, errors: seq<string>, warnings: seq<string>)

  const RequiredFields: seq<string> := ["email"]
  const RecommendedFields: seq<string> := ["name", "journal", "source_url", "timestamp"]

  /** `item[field]`, "" when absent. */
  function Field(c: Contact, field: string): string
  {
    match field
    case "email" => c.email
    case "name" => c.name
    case "journal" => c.journal
    case "source_url" => c.sourceUrl
    case "timestamp" => c.timestamp
    case _ => ""
  }

  function MissingMessage(kind: string, field: string, n: nat): string
  {
    "Missing " + kind + " field '" + field + "' in record " + NatToString(n)
  }

  /** The messages for the falsy `fields` of record number `n` (counting from 1). */
  function Missing(c: Contact, fields: seq<string>, kind: string, n: nat): (r: seq<string>)
    ensures |r| <= |fields|
  {
    if fields == [] then []
    else
      var f := fields[|fields| - 1];
      Missing(c, fields[..|fields| - 1], kind, n) + (if Field(c, f) == "" then [MissingMessage(kind, f, n)] else [])
  }

  function FormatWarning(c: Contact, n: nat): seq<string>
  {
    if c.email != "" && !EmailShaped(c.email) then ["Invalid email format in record " + NatToString(n) + ": " + c.email] else []
  }

  /** The errors of the records, record by record. */
  function Errors(data: seq<Contact>): seq<string>
  {
    if data == [] then []
    else Errors(data[..|data| - 1]) + Missing(data[|data| - 1], RequiredFields, "required", |data|)
  }

  /** The warnings of the records, record by record. */
  function RecordWarnings(data: seq<Contact>): seq<string>
  {
    if data == [] then []
    else
      var c := data[|data| - 1];
      RecordWarnings(data[..|data| - 1]) + Missing(c, RecommendedFields, "recommended", |data|) + FormatWarning(c, |data|)
  }

  function Warnings(data: seq<Contact>): seq<string>
  {
    (if data == [] then ["No data to export"] else []) + RecordWarnings(data)
  }

  /** The messages for record `n`'s falsy `fields`, one field after another. */
  method CheckFields(c: Contact, fields: seq<string>, kind: string, n: nat) returns (msgs: seq<string>)
    ensures msgs == Missing(c, fields, kind, n)
  {
    msgs := [];
    for j := 0 to |fields|
      invariant msgs == Missing(c, fields[..j], kind, n)
    {
      assert fields[..j + 1][..j] == fields[..j];
      if Field(c, fields[j]) == "" {
        msgs := msgs + [MissingMessage(kind, fields[j], n)];
      }
    }
    assert fields[..|fields|] == fields;
  }

  /** The checks of one record, number `n`: its errors, then its warnings. */
  method CheckRecord(item: Contact, n: nat) returns (missing: seq<string>, advised: seq<string>)
    ensures missing == Missing(item, RequiredFields, "required", n)
    ensures advised == Missing(item, RecommendedFields, "recommended", n) + FormatWarning(item, n)
  {
    missing := CheckFields(item, RequiredFields, "required", n);
    advised := CheckFields(item, RecommendedFields, "recommended", n);
    if item.email != "" && !EmailShaped(item.email) {
      advised := advised + ["Invalid email format in record " + NatToString(n) + ": " + item.email];
    }
  }

  /** The record loop of `validateExportData`: the checks of every record, in order. */
  method CheckRecords(items: seq<Contact>) returns (errors: seq<string>, warnings: seq<string>)
    ensures errors == Errors(items) && warnings == RecordWarnings(items)
  {
    errors := [];
    warnings := [];
    for i := 0 to |items|
      invariant errors == Errors(items[..i])
      invariant warnings == RecordWarnings(items[..i])
    {
      CheckStep(items, i);
      var missing, advised := CheckRecord(items[i], i + 1);
      errors := errors + missing;
      assert errors == Errors(items[..i + 1]);
      warnings := warnings + advised;
      assert warnings == RecordWarnings(items[..i + 1]);
    }
    assert items[..|items|] == items;
  }

  /** `validateExportData`; `data` is None when the argument is not an array. */
  method ValidateExportData(data: Option<seq<Contact>>) returns (report: ExportCheck)
    ensures data.None? ==> report == ExportCheck(false, ["Data must be an array"], [])
    ensures data.Some? ==> report.errors == Errors(data.value) && report.warnings == Warnings(data.value)
    ensures data.Some? ==> (report.valid <==> forall i :: 0 <= i < |data.value| ==> data.value[i].email != "")
  {
    if data.None? {
      return ExportCheck(false, ["Data must be an array"], []);
    }
    var items := data.value;
    var lead: seq<string> := [];
    if |items| == 0 {
      lead := lead + ["No data to export"];
    }
    var errors, advised := CheckRecords(items);
    ErrorsExactlyMissingEmails(items);
    report := ExportCheck(|errors| == 0, errors, lead + advised);
  }

  /** The errors and warnings of one record more. */
  lemma CheckStep(items: seq<Contact>, i: nat)
    requires i < |items|
    ensures Errors(items[..i + 1]) == Errors(items[..i]) + Missing(items[i], RequiredFields, "required", i + 1)
    ensures RecordWarnings(items[..i + 1]) == RecordWarnings(items[..i])
      + Missing(items[i], RecommendedFields, "recommended", i + 1) + FormatWarning(items[i], i + 1)
  {
    assert items[..i + 1][..i] == items[..i];
  }

  lemma RequiredMissing(c: Contact, n: nat)
    ensures Missing(c, RequiredFields, "required", n) ==
      (if c.email == "" then [MissingMessage("required", "email", n)] else [])
  {
    assert RequiredFields[..0] == [];
  }

  /** There is an error exactly for each record without an email. */
  lemma {:induction false} ErrorsExactlyMissingEmails(data: seq<Contact>)
    ensures Errors(data) == [] <==> forall i :: 0 <= i < |data| ==> data[i].email != ""
  {
    if data != [] {
      var init := data[..|data| - 1];
      ErrorsExactlyMissingEmails(init);
      RequiredMissing(data[|data| - 1], |data|);
      if forall i :: 0 <= i < |data| ==> data[i].email != "" {
        forall i | 0 <= i < |init| ensures init[i].email != "" {
          assert init[i] == data[i];
        }
      } else {
        var k :| 0 <= k < |data| && data[k].email == "";
        if k < |data| - 1 {
          assert init[k] == data[k];
        }
      }
    }
  }

  /** A non-empty email of the wrong shape is reported as a warning naming its record
      (and, by `ValidateExportData`'s contract, does not make the data invalid). */
  lemma {:induction false} MalformedEmailWarned(data: seq<Contact>, k: nat)
    requires k < |data| && data[k].email != "" && !EmailShaped(data[k].email)
    ensures "Invalid email format in record " + NatToString(k + 1) + ": " + data[k].email in Warnings(data)
  {
    var msg := "Invalid email format in record " + NatToString(k + 1) + ": " + data[k].email;
    var init := data[..|data| - 1];
    if k < |data| - 1 {
      assert init[k] == data[k];
      MalformedEmailWarned(init, k);
      assert msg in RecordWarnings(init);
    } else {
      assert FormatWarning(data[k], |data|) == [msg];
    }
    assert msg in RecordWarnings(data);
  }
}
