/** The address checks: the shared format regex `^[^\s@]+@[^\s@]+\.[^\s@]+$`
    and the two role-account exclusion lists (the page scraper's and the data
    manager's, which differ by `webmaster@`). */
module EmailRules {
  import opened Text

  /** `[^\s@]+`: non-empty, no white space, no `@`. */
  predicate Plain(s: string)
  {
    |s| > 0 && forall k :: 0 <= k < |s| ==> !IsSpace(s[k]) && s[k] != '@'
  }

  /** The whole address matches `^[^\s@]+@[^\s@]+\.[^\s@]+$`: it splits at an `@`
      (index `i`) and a later `.` (index `j`) into three plain parts. */
  predicate EmailShaped(s: string)
  {
    exists i, j | 0 <= i < j < |s| :: SplitsAt(s, i, j)
  }

  predicate SplitsAt(s: string, i: int, j: int)
  {
    0 <= i < j < |s| && s[i] == '@' && s[j] == '.' && Plain(s[..i]) && Plain(s[i + 1..j]) && Plain(s[j + 1..])
  }

  /** The exclusion list of the page scraper. */
  const ScraperExclusions: seq<string> := ["noreply", "no-reply", "donotreply", "support@", "admin@", "info@"]

  /** The exclusion list of the data manager: the scraper's plus `webmaster@`. */
  const StoreExclusions: seq<string> := ScraperExclusions + ["webmaster@"]

  /** Some pattern occurs in the address, ignoring ASCII case. */
  predicate Excluded(email: string, patterns: seq<string>)
  {
    exists k | 0 <= k < |patterns| :: Contains(ToLower(email), patterns[k])
  }

  /** `isValidEmail` of the page scraper. */
  predicate IsValidEmail(email: string)
  {
    EmailShaped(email) && !Excluded(email, ScraperExclusions)
  }

  datatype Verdict = Accepted | Rejected(reason: string)

  /** `validateEmail` of the data manager: the format test first, then the exclusion list. */
  function ValidateEmail(email: string): (v: Verdict)
    ensures v == Rejected("Invalid format") <==> !EmailShaped(email)
    ensures v == Rejected("System email") <==> EmailShaped(email) && Excluded(email, StoreExclusions)
    ensures v == Accepted <==> EmailShaped(email) && !Excluded(email, StoreExclusions)
  {
    if !EmailShaped(email) then Rejected("Invalid format")
    else if Excluded(email, StoreExclusions) then Rejected("System email")
    else Accepted
  }

  /** The data manager is the stricter of the two: whatever it accepts the scraper
      accepts, and the two differ exactly on addresses containing `webmaster@`. */
  lemma StoreStricterThanScraper(email: string)
    ensures ValidateEmail(email) == Accepted ==> IsValidEmail(email)
    ensures IsValidEmail(email) && !Contains(ToLower(email), "webmaster@") ==> ValidateEmail(email) == Accepted
  {
    if Excluded(email, ScraperExclusions) {
      var k :| 0 <= k < |ScraperExclusions| && Contains(ToLower(email), ScraperExclusions[k]);
      assert StoreExclusions[k] == ScraperExclusions[k];
    }
    if Excluded(email, StoreExclusions) && !Contains(ToLower(email), "webmaster@") {
      var k :| 0 <= k < |StoreExclusions| && Contains(ToLower(email), StoreExclusions[k]);
      assert k < |ScraperExclusions|;
      assert StoreExclusions[k] == ScraperExclusions[k];
    }
  }

  /** A role account is refused by both checks however it is capitalised. */
  lemma AdminAccountRefused()
    ensures !IsValidEmail("Admin@uni.edu")
    ensures ValidateEmail("Admin@uni.edu") == Rejected("System email")
  {
    var e := "Admin@uni.edu";
    assert SplitsAt(e, 5, 9);
    assert ToLower(e)[..6] == "admin@";
    assert OccursAt(ToLower(e), ScraperExclusions[4], 0);
    assert StoreExclusions[4] == ScraperExclusions[4];
  }
}
