/** The page scraper of the desktop shell: the journal and author lookups over a
    loaded page, the record-building loop over the addresses found on it, the MX
    lookup domain and the run flags. A loaded page is given by the texts of the
    elements each CSS selector matches (in document order), the list of matches
    of the address pattern in its text, and its raw title. */
module PageScraper {
  import opened Wrappers
  import opened Text
  import opened Seqs
  import opened Records
  import opened EmailRules

  /** The texts of the elements a selector matches, in document order. */
  type Query = string -> seq<string>

  datatype Page = Page(matches: seq<string>, title: string, query: Query)

  const JournalSelectors: seq<string> := [".journal-title", ".publication-title", "[data-journal]", ".journal-name"]
  const AuthorSelectors: seq<string> := [".author-name", ".author", "[data-author]", ".contributor"]

  /** `sels[k]` is the first selector that matches some element. */
  predicate FirstHit(sels: seq<string>, query: Query, k: int)
  {
    0 <= k < |sels| && query(sels[k]) != [] && forall j :: 0 <= j < k ==> query(sels[j]) == []
  }

  /** The trimmed text of the first element of the first selector that matches anything. */
  function FirstText(sels: seq<string>, query: Query): (r: string)
    ensures (forall k :: 0 <= k < |sels| ==> query(sels[k]) == []) ==> r == ""
    ensures forall k :: FirstHit(sels, query, k) ==> r == Trim(query(sels[k])[0])
  {
    if sels == [] then ""
    else if query(sels[0]) != [] then Trim(query(sels[0])[0])
    else
      TailHits(sels, query);
      FirstText(sels[1..], query)
  }

  /** When the first selector matches nothing, the first hit is the first hit of the rest. */
  lemma TailHits(sels: seq<string>, query: Query)
    requires sels != [] && query(sels[0]) == []
    ensures forall k :: FirstHit(sels, query, k) ==> FirstHit(sels[1..], query, k - 1) && sels[1..][k - 1] == sels[k]
    ensures (forall k :: 0 <= k < |sels| ==> query(sels[k]) == []) ==> forall k :: 0 <= k < |sels[1..]| ==> query(sels[1..][k]) == []
  {
    forall k | FirstHit(sels, query, k) ensures FirstHit(sels[1..], query, k - 1) {
      forall j | 0 <= j < k - 1 ensures query(sels[1..][j]) == [] {
        assert sels[1..][j] == sels[j + 1];
      }
    }
    forall k | 0 <= k < |sels[1..]| ensures sels[1..][k] == sels[k + 1] { }
  }

  /** `extractJournal`: the first listed selector that matches an element decides,
      even when that element's text trims to nothing. */
  function ExtractJournal(query: Query): (r: string)
    ensures (forall k :: 0 <= k < |JournalSelectors| ==> query(JournalSelectors[k]) == []) ==> r == ""
    ensures forall k :: FirstHit(JournalSelectors, query, k) ==> r == Trim(query(JournalSelectors[k])[0])
  {
    FirstText(JournalSelectors, query)
  }

  /** The non-empty trimmed texts, in order. */
  function NonEmptyTrims(ts: seq<string>): seq<string>
  {
    if ts == [] then []
    else
      var name := Trim(ts[|ts| - 1]);
      NonEmptyTrims(ts[..|ts| - 1]) + (if name != "" then [name] else [])
  }

  /** Exactly the non-empty trimmed texts are kept. */
  lemma {:induction false} NonEmptyTrimsMembers(ts: seq<string>)
    ensures forall n :: n in NonEmptyTrims(ts) <==> n != "" && exists i :: 0 <= i < |ts| && Trim(ts[i]) == n
  {
    if ts != [] {
      var init := ts[..|ts| - 1];
      var name := Trim(ts[|ts| - 1]);
      var rest := NonEmptyTrims(init);
      var last: seq<string> := if name != "" then [name] else [];
      assert NonEmptyTrims(ts) == rest + last;
      NonEmptyTrimsMembers(init);
      forall n ensures n in NonEmptyTrims(ts) <==> n != "" && exists i :: 0 <= i < |ts| && Trim(ts[i]) == n {
        assert n in rest + last <==> n in rest || n in last;
        if n in rest {
          var i :| 0 <= i < |init| && Trim(init[i]) == n;
          assert ts[i] == init[i];
        }
        if n != "" && exists i :: 0 <= i < |ts| && Trim(ts[i]) == n {
          var i :| 0 <= i < |ts| && Trim(ts[i]) == n;
          if i < |init| {
            assert init[i] == ts[i];
          }
        }
      }
    }
  }

  /** The names one selector yields: each non-empty trimmed text once, first occurrences in order. */
  function Names(ts: seq<string>): seq<string>
  {
    Distinct(NonEmptyTrims(ts))
  }

  /** The names of `sels[k]` are the first non-empty ones. */
  predicate FirstNamed(sels: seq<string>, query: Query, k: int)
  {
    0 <= k < |sels| && Names(query(sels[k])) != [] && forall j :: 0 <= j < k ==> Names(query(sels[j])) == []
  }

  /** The names of the first selector that yields any. */
  function AuthorsFrom(sels: seq<string>, query: Query): (r: seq<string>)
    ensures (forall k :: 0 <= k < |sels| ==> Names(query(sels[k])) == []) ==> r == []
    ensures forall k :: FirstNamed(sels, query, k) ==> r == Names(query(sels[k]))
  {
    if sels == [] then []
    else if Names(query(sels[0])) != [] then Names(query(sels[0]))
    else
      TailNamed(sels, query);
      AuthorsFrom(sels[1..], query)
  }

  /** When the first selector yields no name, the first selector with names is found in the rest. */
  lemma TailNamed(sels: seq<string>, query: Query)
    requires sels != [] && Names(query(sels[0])) == []
    ensures forall k :: FirstNamed(sels, query, k) ==> FirstNamed(sels[1..], query, k - 1) && sels[1..][k - 1] == sels[k]
    ensures (forall k :: 0 <= k < |sels| ==> Names(query(sels[k])) == []) ==>
      forall k :: 0 <= k < |sels[1..]| ==> Names(query(sels[1..][k])) == []
  {
    forall k | FirstNamed(sels, query, k) ensures FirstNamed(sels[1..], query, k - 1) {
      forall j | 0 <= j < k - 1 ensures Names(query(sels[1..][j])) == [] {
        assert sels[1..][j] == sels[j + 1];
      }
    }
    forall k | 0 <= k < |sels[1..]| ensures sels[1..][k] == sels[k + 1] { }
  }

  /** The body of `extractAuthors` for one selector: collect each non-empty
      trimmed text not collected yet. */
  method CollectNames(texts: seq<string>) returns (authors: seq<string>)
    ensures authors == Names(texts)
  {
    authors := [];
    for j := 0 to |texts|
      invariant authors == Names(texts[..j])
    {
      var name := Trim(texts[j]);
      var before := NonEmptyTrims(texts[..j]);
      assert texts[..j + 1][..j] == texts[..j] && texts[..j + 1][j] == texts[j];
      assert NonEmptyTrims(texts[..j + 1]) == before + (if name != "" then [name] else []);
      if name != "" {
        DistinctCharacterised(before);
        DistinctSnoc(before, name);
        assert Names(texts[..j + 1]) == Distinct(before + [name]);
        if name !in authors {
          authors := authors + [name];
        }
      } else {
        assert before + [] == before;
      }
    }
    assert texts[..|texts|] == texts;
  }

  /** `extractAuthors`: the selectors in turn, stopping at the first that yields a name. */
  method ExtractAuthors(query: Query) returns (authors: seq<string>)
    ensures authors == AuthorsFrom(AuthorSelectors, query)
  {
    authors := [];
    var k := 0;
    while k < |AuthorSelectors|
      invariant 0 <= k <= |AuthorSelectors|
      invariant authors == []
      invariant AuthorsFrom(AuthorSelectors, query) == AuthorsFrom(AuthorSelectors[k..], query)
    {
      authors := CollectNames(query(AuthorSelectors[k]));
      assert AuthorSelectors[k..][1..] == AuthorSelectors[k + 1..];
      if |authors| > 0 {
        return;
      }
      k := k + 1;
    }
  }

  /** The authors found are non-empty, trimmed texts of the deciding selector's
      elements, each once, every such text is among them, and they come in the
      order in which each first occurs. */
  lemma AuthorsCharacterised(query: Query, k: int)
    requires FirstNamed(AuthorSelectors, query, k)
    ensures var r := AuthorsFrom(AuthorSelectors, query);
      && r != []
      && (forall i, j :: 0 <= i < j < |r| ==> r[i] != r[j])
      && (forall n :: n in r <==> n != "" && exists i :: 0 <= i < |query(AuthorSelectors[k])| && Trim(query(AuthorSelectors[k])[i]) == n)
      && IsSubsequence(r, NonEmptyTrims(query(AuthorSelectors[k])))
      && InFirstOccurrenceOrder(r, NonEmptyTrims(query(AuthorSelectors[k])), Id)
  {
    NonEmptyTrimsMembers(query(AuthorSelectors[k]));
    DistinctCharacterised(NonEmptyTrims(query(AuthorSelectors[k])));
  }

  // ---------------------------------------------------------------- records

  /** The record for one accepted address of the page at `url`. */
  function PageRecord(email: string, url: string, journal: string, title: string,
                      authors: seq<string>, verified: bool): Contact
  {
    Contact(if |authors| > 0 then authors[0] else "", email, journal, title, verified, false, url, "", "")
  }

  function EmailList(rs: seq<Contact>): (r: seq<string>)
    ensures |r| == |rs| && forall i :: 0 <= i < |rs| ==> r[i] == rs[i].email
  {
    if rs == [] then [] else [rs[0].email] + EmailList(rs[1..])
  }

  /** The records for the addresses `es`, in order: one per address the scraper
      accepts, marked verified when its MX lookup succeeds. */
  function PageRecords(es: seq<string>, url: string, journal: string, title: string,
                       authors: seq<string>, resolve: string -> Option<nat>): (r: seq<Contact>)
    ensures |r| <= |es|
    ensures forall i :: 0 <= i < |r| ==>
      (r[i] == PageRecord(r[i].email, url, journal, title, authors, VerifyEmailMx(r[i].email, resolve))
       && IsValidEmail(r[i].email))
  {
    if es == [] then []
    else
      var rest := PageRecords(es[1..], url, journal, title, authors, resolve);
      if IsValidEmail(es[0]) then
        var r := [PageRecord(es[0], url, journal, title, authors, VerifyEmailMx(es[0], resolve))] + rest;
        assert forall i :: 0 < i < |r| ==> r[i] == rest[i - 1];
        r
      else rest
  }

  /** The emails of the records for `es`: the first address if accepted, then those of the rest. */
  lemma PageEmailsCons(es: seq<string>, url: string, journal: string, title: string,
                       authors: seq<string>, resolve: string -> Option<nat>)
    requires es != []
    ensures EmailList(PageRecords(es, url, journal, title, authors, resolve))
         == (if IsValidEmail(es[0]) then [es[0]] else []) + EmailList(PageRecords(es[1..], url, journal, title, authors, resolve))
  {
    var rest := PageRecords(es[1..], url, journal, title, authors, resolve);
    if IsValidEmail(es[0]) {
      var r := [PageRecord(es[0], url, journal, title, authors, VerifyEmailMx(es[0], resolve))] + rest;
      assert r[1..] == rest;
    }
  }

  lemma {:induction false} PageEmailsMembers(es: seq<string>, url: string, journal: string, title: string,
                                             authors: seq<string>, resolve: string -> Option<nat>)
    ensures forall e :: e in EmailList(PageRecords(es, url, journal, title, authors, resolve)) <==> e in es && IsValidEmail(e)
  {
    if es != [] {
      PageEmailsCons(es, url, journal, title, authors, resolve);
      PageEmailsMembers(es[1..], url, journal, title, authors, resolve);
      assert forall e :: e in es <==> e == es[0] || e in es[1..];
    }
  }

  lemma {:induction false} PageEmailsOrder(es: seq<string>, url: string, journal: string, title: string,
                                           authors: seq<string>, resolve: string -> Option<nat>)
    ensures IsSubsequence(EmailList(PageRecords(es, url, journal, title, authors, resolve)), es)
  {
    if es != [] {
      var tail := EmailList(PageRecords(es[1..], url, journal, title, authors, resolve));
      PageEmailsCons(es, url, journal, title, authors, resolve);
      PageEmailsOrder(es[1..], url, journal, title, authors, resolve);
      if IsValidEmail(es[0]) {
        assert ([es[0]] + tail)[1..] == tail;
      } else {
        SubsequenceOfTail(tail, es);
      }
    }
  }

  lemma {:induction false} PageEmailsDistinct(es: seq<string>, url: string, journal: string, title: string,
                                              authors: seq<string>, resolve: string -> Option<nat>)
    requires forall i, j :: 0 <= i < j < |es| ==> es[i] != es[j]
    ensures var l := EmailList(PageRecords(es, url, journal, title, authors, resolve));
      forall i, j :: 0 <= i < j < |l| ==> l[i] != l[j]
  {
    if es != [] {
      var tail := EmailList(PageRecords(es[1..], url, journal, title, authors, resolve));
      PageEmailsCons(es, url, journal, title, authors, resolve);
      UniqueTail(es);
      PageEmailsDistinct(es[1..], url, journal, title, authors, resolve);
      if IsValidEmail(es[0]) {
        PageEmailsMembers(es[1..], url, journal, title, authors, resolve);
        UniqueCons(es[0], tail);
      }
    }
  }

  /** The tail of a list without repeats has none, and lacks the head. */
  lemma UniqueTail<T>(xs: seq<T>)
    requires xs != [] && forall i, j :: 0 <= i < j < |xs| ==> xs[i] != xs[j]
    ensures forall i, j :: 0 <= i < j < |xs[1..]| ==> xs[1..][i] != xs[1..][j]
    ensures xs[0] !in xs[1..]
  {
    forall i, j | 0 <= i < j < |xs[1..]| ensures xs[1..][i] != xs[1..][j] {
      assert xs[1..][i] == xs[i + 1] && xs[1..][j] == xs[j + 1];
    }
    forall i | 0 <= i < |xs[1..]| ensures xs[1..][i] != xs[0] {
      assert xs[1..][i] == xs[i + 1];
    }
  }

  /** A new head on a list without repeats gives a list without repeats. */
  lemma UniqueCons<T>(x: T, xs: seq<T>)
    requires x !in xs && forall i, j :: 0 <= i < j < |xs| ==> xs[i] != xs[j]
    ensures var l := [x] + xs; forall i, j :: 0 <= i < j < |l| ==> l[i] != l[j]
  {
    var l := [x] + xs;
    forall i, j | 0 <= i < j < |l| ensures l[i] != l[j] {
      assert l[j] == xs[j - 1];
      if i > 0 {
        assert l[i] == xs[i - 1];
      }
    }
  }

  /** Exactly the accepted addresses get a record, in the order they were found,
      and distinct addresses give records with distinct addresses. */
  lemma PageRecordsEmails(es: seq<string>, url: string, journal: string, title: string,
                          authors: seq<string>, resolve: string -> Option<nat>)
    ensures var r := PageRecords(es, url, journal, title, authors, resolve);
      && (forall e :: e in EmailList(r) <==> e in es && IsValidEmail(e))
      && IsSubsequence(EmailList(r), es)
      && ((forall i, j :: 0 <= i < j < |es| ==> es[i] != es[j]) ==>
          forall i, j :: 0 <= i < j < |r| ==> r[i].email != r[j].email)
  {
    PageEmailsMembers(es, url, journal, title, authors, resolve);
    PageEmailsOrder(es, url, journal, title, authors, resolve);
    if forall i, j :: 0 <= i < j < |es| ==> es[i] != es[j] {
      PageEmailsDistinct(es, url, journal, title, authors, resolve);
      var r := PageRecords(es, url, journal, title, authors, resolve);
      assert forall i :: 0 <= i < |r| ==> EmailList(r)[i] == r[i].email;
    }
  }

  /** The loop of `scrapeEmailsFromPage` over the page's distinct addresses:
      every address the scraper accepts is checked for MX records and recorded. */
  method BuildRecords(uniqueEmails: seq<string>, url: string, journal: string, title: string,
                      authors: seq<string>, resolve: string -> Option<nat>) returns (results: seq<Contact>)
    ensures results == PageRecords(uniqueEmails, url, journal, title, authors, resolve)
  {
    results := [];
    for i := 0 to |uniqueEmails|
      invariant PageRecords(uniqueEmails, url, journal, title, authors, resolve)
        == results + PageRecords(uniqueEmails[i..], url, journal, title, authors, resolve)
    {
      var email := uniqueEmails[i];
      assert uniqueEmails[i..][1..] == uniqueEmails[i + 1..];
      if IsValidEmail(email) {
        var verified := VerifyEmailMx(email, resolve);
        results := results + [PageRecord(email, url, journal, title, authors, verified)];
      }
    }
  }

  /** `scrapeEmailsFromPage`; `page` is None when loading or reading the page
      throws, which yields no records. */
  method ScrapeEmailsFromPage(url: string, page: Option<Page>, resolve: string -> Option<nat>)
    returns (results: seq<Contact>)
    ensures page.None? ==> results == []
    ensures page.Some? ==>
      results == PageRecords(Distinct(page.value.matches), url, ExtractJournal(page.value.query),
                             Trim(page.value.title), AuthorsFrom(AuthorSelectors, page.value.query), resolve)
  {
    if page.None? {
      return [];
    }
    var p := page.value;
    var title := Trim(p.title);
    var journal := ExtractJournal(p.query);
    var authors := ExtractAuthors(p.query);
    var uniqueEmails := Distinct(p.matches);
    results := BuildRecords(uniqueEmails, url, journal, title, authors, resolve);
  }

  /** One record per distinct accepted address of the page, no two with the same
      address, in the order found, all marked as not duplicates and attributed to the page. */
  lemma PageResultsCharacterised(matches: seq<string>, url: string, journal: string, title: string,
                                 authors: seq<string>, resolve: string -> Option<nat>)
    ensures var r := PageRecords(Distinct(matches), url, journal, title, authors, resolve);
      && (forall i, j :: 0 <= i < j < |r| ==> r[i].email != r[j].email)
      && (forall e :: e in EmailList(r) <==> e in matches && IsValidEmail(e))
      && IsSubsequence(EmailList(r), Distinct(matches))
      && (forall i :: 0 <= i < |r| ==>
            (r[i].sourceUrl == url && !r[i].duplicate && r[i].name == (if |authors| > 0 then authors[0] else "")))
  {
    DistinctCharacterised(matches);
    PageRecordsEmails(Distinct(matches), url, journal, title, authors, resolve);
  }

  // ---------------------------------------------------------------- MX lookup

  /** `s.split(sep)` for a one-character separator. */
  function Split(s: string, sep: char): (parts: seq<string>)
    ensures |parts| >= 1
    ensures forall k :: 0 <= k < |parts| ==> sep !in parts[k]
  {
    if s == [] then [""]
    else
      var rest := Split(s[1..], sep);
      if s[0] == sep then [""] + rest
      else
        var r := [[s[0]] + rest[0]] + rest[1..];
        assert forall k :: 1 <= k < |r| ==> r[k] == rest[k];
        r
  }

  /** `parts.join(sep)`. */
  function Join(parts: seq<string>, sep: char): string
    requires |parts| >= 1
  {
    if |parts| == 1 then parts[0] else parts[0] + [sep] + Join(parts[1..], sep)
  }

  /** Splitting loses nothing: joining the parts back gives the address. */
  lemma {:induction false} SplitJoin(s: string, sep: char)
    ensures Join(Split(s, sep), sep) == s
  {
    if s != [] {
      var rest := Split(s[1..], sep);
      SplitJoin(s[1..], sep);
      if s[0] == sep {
        assert ([""] + rest)[1..] == rest;
      } else {
        var r := [[s[0]] + rest[0]] + rest[1..];
        if |rest| == 1 {
          assert r == [[s[0]] + rest[0]];
        } else {
          assert r[1..] == rest[1..];
        }
      }
    }
  }

  /** `email.split('@')[1]`: None (undefined) when there is no `@`. */
  function MxDomain(email: string): (d: Option<string>)
    ensures d.None? <==> '@' !in email
    ensures d.Some? ==> '@' !in d.value
  {
    var parts := Split(email, '@');
    SplitJoin(email, '@');
    if |parts| > 1 then Some(parts[1])
    else
      assert email == parts[0];
      None
  }

  /** `email[i]` is the first `@`, and `d` runs from just after it up to the next `@` or the end. */
  predicate DomainAt(email: string, i: int, d: string)
  {
    0 <= i < |email| && email[i] == '@' && '@' !in email[..i]
    && StartsWith(email[i + 1..], d)
    && (i + 1 + |d| == |email| || email[i + 1 + |d|] == '@')
  }

  /** The domain is the text right after the first `@`, up to the next `@` or the end. */
  lemma MxDomainPlace(email: string)
    requires '@' in email
    ensures exists i :: DomainAt(email, i, MxDomain(email).value)
  {
    var parts := Split(email, '@');
    SplitJoin(email, '@');
    var i := |parts[0]|;
    var tail := Join(parts[1..], '@');
    assert email == parts[0] + ['@'] + tail;
    assert email[..i] == parts[0];
    assert email[i + 1..] == tail;
    var d := parts[1];
    assert MxDomain(email) == Some(d);
    if |parts| == 2 {
      assert parts[1..] == [d];
      assert tail == d;
      assert email[i + 1..][..|d|] == d;
    } else {
      assert tail == d + ['@'] + Join(parts[2..], '@');
      assert email[i + 1 + |d|] == tail[|d|];
      assert tail[..|d|] == d;
    }
    assert DomainAt(email, i, d);
  }

  /** `verifyEmailMX`: true only when the domain resolves to at least one MX record;
      every failure of the lookup (`resolve` giving None) counts as false. */
  function VerifyEmailMx(email: string, resolve: string -> Option<nat>): (ok: bool)
    ensures ok <==> MxDomain(email).Some? && resolve(MxDomain(email).value).Some? && resolve(MxDomain(email).value).value > 0
    ensures '@' !in email ==> !ok
  {
    match MxDomain(email)
    case None => false
    case Some(domain) =>
      match resolve(domain)
      case None => false
      case Some(count) => count > 0
  }

  // ---------------------------------------------------------------- run flags

  class ScholarScraper {
    var isRunning: bool
    var isPaused: bool
    var currentJob: Option<string>

    constructor()
      ensures !isRunning && !isPaused && currentJob.None?
    {
      isRunning := false;
      isPaused := false;
      currentJob := None;
    }

    method Pause()
      modifies this
      ensures isPaused && isRunning == old(isRunning) && currentJob == old(currentJob)
    {
      isPaused := true;
    }

    method Resume()
      modifies this
      ensures !isPaused && isRunning == old(isRunning) && currentJob == old(currentJob)
    {
      isPaused := false;
    }

    /** Clears both flags and forgets the current job. */
    method Stop()
      modifies this
      ensures !isRunning && !isPaused && currentJob.None?
    {
      isRunning := false;
      isPaused := false;
      if currentJob.Some? {
        currentJob := None;
      }
    }
  }
}
