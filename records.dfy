/** The contact record every component passes around, its dedup key and the
    per-journal tally that both statistics reports build. */
module Records {
  import Seqs

  /** One harvested address with its metadata. An absent or falsy text field is "". */
  datatype Contact = Contact(
    name: string,
    email: string,
    journal: string,
    topic: string,
    verified: bool,
    duplicate: bool,
    sourceUrl: string,
    timestamp: string,
    id: string)

  /** The dedup key `${email}|${source_url}`. */
  function Key(c: Contact): string
  {
    c.email + "|" + c.sourceUrl
  }

  function EmailOf(c: Contact): string
  {
    c.email
  }

  /** `item.journal || 'Unknown'`. */
  function JournalLabel(c: Contact): string
  {
    if c.journal == "" then "Unknown" else c.journal
  }

  function CountVerified(rs: seq<Contact>): (n: nat)
    ensures n <= |rs|
  {
    if rs == [] then 0 else (if rs[0].verified then 1 else 0) + CountVerified(rs[1..])
  }

  function CountUnverified(rs: seq<Contact>): (n: nat)
    ensures n <= |rs|
  {
    if rs == [] then 0 else (if rs[0].verified then 0 else 1) + CountUnverified(rs[1..])
  }

  function CountDuplicates(rs: seq<Contact>): (n: nat)
    ensures n <= |rs|
  {
    if rs == [] then 0 else (if rs[0].duplicate then 1 else 0) + CountDuplicates(rs[1..])
  }

  /** Every record is either verified or not, so the two filters partition the data. */
  lemma {:induction false} VerifiedSplit(rs: seq<Contact>)
    ensures CountVerified(rs) + CountUnverified(rs) == |rs|
  {
    if rs != [] {
      VerifiedSplit(rs[1..]);
    }
  }

  function Emails(rs: seq<Contact>): set<string>
  {
    set i | 0 <= i < |rs| :: rs[i].email
  }

  /** There are never more distinct emails than records. */
  lemma {:induction false} EmailsBounded(rs: seq<Contact>)
    ensures |Emails(rs)| <= |rs|
  {
    if rs != [] {
      EmailsBounded(rs[1..]);
      assert Emails(rs) == Emails(rs[1..]) + {rs[0].email} by {
        forall e | e in Emails(rs) ensures e in Emails(rs[1..]) + {rs[0].email} {
          var i :| 0 <= i < |rs| && rs[i].email == e;
          if i > 0 { assert rs[1..][i - 1] == rs[i]; }
        }
        forall e | e in Emails(rs[1..]) ensures e in Emails(rs) {
          var i :| 0 <= i < |rs[1..]| && rs[1..][i].email == e;
          assert rs[i + 1] == rs[1..][i];
        }
        assert rs[0].email in Emails(rs);
      }
    }
  }

  /** One line of a journal breakdown. */
  datatype JournalCount = JournalCount(journal: string, count: nat)

  /** The count recorded for `tag`, 0 when it has no entry. */
  function Lookup(t: seq<JournalCount>, tag: string): nat
  {
    if t == [] then 0 else if t[0].journal == tag then t[0].count else Lookup(t[1..], tag)
  }

  function Total(t: seq<JournalCount>): nat
  {
    if t == [] then 0 else t[0].count + Total(t[1..])
  }

  predicate LabelsDistinct(t: seq<JournalCount>)
  {
    forall i, j :: 0 <= i < j < |t| ==> t[i].journal != t[j].journal
  }

  /** `journals[tag] = (journals[tag] || 0) + 1` on a plain object, with its keys
      listed in first-insertion order: the order JavaScript gives keys that are not
      integer-like and not inherited from `Object.prototype`. */
  function Bump(t: seq<JournalCount>, tag: string): seq<JournalCount>
  {
    if t == [] then [JournalCount(tag, 1)]
    else if t[0].journal == tag then [JournalCount(tag, t[0].count + 1)] + t[1..]
    else [t[0]] + Bump(t[1..], tag)
  }

  /** The breakdown after counting the records of `rs` one by one, in order. */
  function Tally(rs: seq<Contact>): seq<JournalCount>
  {
    if rs == [] then [] else Bump(Tally(rs[..|rs| - 1]), JournalLabel(rs[|rs| - 1]))
  }

  /** Number of records whose tag is `tag`. */
  function Occurrences(rs: seq<Contact>, tag: string): nat
  {
    if rs == [] then 0
    else Occurrences(rs[..|rs| - 1], tag) + (if JournalLabel(rs[|rs| - 1]) == tag then 1 else 0)
  }

  lemma {:induction false} BumpEffect(t: seq<JournalCount>, tag: string)
    ensures Total(Bump(t, tag)) == Total(t) + 1
    ensures forall l :: Lookup(Bump(t, tag), l) == Lookup(t, l) + (if l == tag then 1 else 0)
    ensures LabelsDistinct(t) ==> LabelsDistinct(Bump(t, tag))
  {
    if t != [] && t[0].journal != tag {
      BumpEffect(t[1..], tag);
      var b := Bump(t, tag);
      assert b == [t[0]] + Bump(t[1..], tag);
      if LabelsDistinct(t) {
        assert LabelsDistinct(t[1..]);
        forall i, j | 0 <= i < j < |b| ensures b[i].journal != b[j].journal {
          if i == 0 {
            assert b[j] == Bump(t[1..], tag)[j - 1];
            LabelInBump(t[1..], tag, j - 1);
          }
        }
      }
    } else if t != [] {
      var b := Bump(t, tag);
      if LabelsDistinct(t) {
        forall l ensures Lookup(b, l) == Lookup(t, l) + (if l == tag then 1 else 0) {
          if l != tag {
            assert Lookup(b, l) == Lookup(t[1..], l);
          }
        }
        forall i, j | 0 <= i < j < |b| ensures b[i].journal != b[j].journal {
          assert b[j] == t[j];
          if i > 0 { assert b[i] == t[i]; }
        }
      }
    }
  }

  lemma {:induction false} LabelInBump(t: seq<JournalCount>, tag: string, k: nat)
    requires k < |Bump(t, tag)|
    ensures Bump(t, tag)[k].journal == tag || (k < |t| && Bump(t, tag)[k].journal == t[k].journal)
  {
    if t != [] && t[0].journal != tag && k > 0 {
      LabelInBump(t[1..], tag, k - 1);
    }
  }

  /** The breakdown accounts for every record exactly once, per tag and in total,
      and lists each tag once. */
  lemma {:induction false} TallyCorrect(rs: seq<Contact>)
    ensures Total(Tally(rs)) == |rs|
    ensures forall l :: Lookup(Tally(rs), l) == Occurrences(rs, l)
    ensures LabelsDistinct(Tally(rs))
  {
    if rs != [] {
      var init := rs[..|rs| - 1];
      TallyCorrect(init);
      BumpEffect(Tally(init), JournalLabel(rs[|rs| - 1]));
    }
  }
}
