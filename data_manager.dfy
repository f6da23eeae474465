/** The result store of the renderer: the list of contacts and the dedup map
    keyed by `email|source_url`, with the read-only views (first record per email,
    counts, search) over it.

    The dedup map only ever holds the value `true`, so it is modelled as the set
    of its keys. Generated ids and the clock are arguments; storage is not part
    of this model. */
module DataStore {
  import opened Wrappers
  import opened Text
  import opened Seqs
  import opened Records

  /** A partial update `{ ...record, ...updates }`: None leaves a field as it is. */
  datatype Patch = Patch(
    name: Option<string>,
    email: Option<string>,
    journal: Option<string>,
    topic: Option<string>,
    verified: Option<bool>,
    duplicate: Option<bool>,
    sourceUrl: Option<string>,
    timestamp: Option<string>,
    id: Option<string>)

  function Pick<T>(o: Option<T>, d: T): T
  {
    if o.Some? then o.value else d
  }

  function Merge(c: Contact, p: Patch): Contact
  {
    Contact(Pick(p.name, c.name), Pick(p.email, c.email), Pick(p.journal, c.journal), Pick(p.topic, c.topic),
            Pick(p.verified, c.verified), Pick(p.duplicate, c.duplicate), Pick(p.sourceUrl, c.sourceUrl),
            Pick(p.timestamp, c.timestamp), Pick(p.id, c.id))
  }

  /** What `addResult` writes into a record it accepts: not a duplicate, a fresh id,
      and the clock's time unless the record already had one. */
  function Stamp(c: Contact, id: string, now: string): Contact
  {
    c.(duplicate := false, id := id, timestamp := if c.timestamp == "" then now else c.timestamp)
  }

  /** The accepted records in order, the m-th stamped with the m-th generated id. */
  function StampAll(rs: seq<Contact>, newId: nat -> string, now: string): (r: seq<Contact>)
    ensures |r| == |rs| && forall m :: 0 <= m < |rs| ==> r[m] == Stamp(rs[m], newId(m), now)
  {
    seq(|rs|, m requires 0 <= m < |rs| => Stamp(rs[m], newId(m), now))
  }

  function ContactId(c: Contact): string
  {
    c.id
  }

  /** `findIndex(result => result.id === id)`. */
  function FindById(rs: seq<Contact>, id: string): Option<nat>
  {
    FirstIndex(rs, ContactId, id)
  }

  /** The store is consistent: no two records share a key, and the map holds
      exactly the records' keys. */
  predicate Consistent(results: seq<Contact>, keys: set<string>)
  {
    KeysDistinct(results, Key) && keys == KeySet(results, Key)
  }

  /** Appending a record whose key is not stored keeps the store consistent. */
  lemma AppendConsistent(results: seq<Contact>, keys: set<string>, c: Contact)
    requires Consistent(results, keys) && Key(c) !in keys
    ensures Consistent(results + [c], keys + {Key(c)})
  {
    var r := results + [c];
    forall i, j | 0 <= i < j < |r| ensures Key(r[i]) != Key(r[j]) {
      if j == |results| {
        assert Key(r[i]) in KeySet(results, Key);
      }
    }
    forall k | k in KeySet(r, Key) ensures k in keys + {Key(c)} {
      var i :| 0 <= i < |r| && Key(r[i]) == k;
      if i < |results| { assert Key(results[i]) in KeySet(results, Key); }
    }
    forall k | k in keys + {Key(c)} ensures k in KeySet(r, Key) {
      if k == Key(c) {
        assert Key(r[|results|]) == k;
      } else {
        var i :| 0 <= i < |results| && Key(results[i]) == k;
        assert r[i] == results[i];
      }
    }
  }

  /** Removing the k-th record and its key keeps the store consistent. */
  lemma RemoveConsistent(results: seq<Contact>, keys: set<string>, k: nat)
    requires Consistent(results, keys) && k < |results|
    ensures Consistent(results[..k] + results[k + 1..], keys - {Key(results[k])})
  {
    var r := results[..k] + results[k + 1..];
    assert forall i :: 0 <= i < |r| ==> r[i] == results[if i < k then i else i + 1];
    forall i, j | 0 <= i < j < |r| ensures Key(r[i]) != Key(r[j]) {
      var i', j' := if i < k then i else i + 1, if j < k then j else j + 1;
      assert r[i] == results[i'] && r[j] == results[j'];
    }
    forall x | x in KeySet(r, Key) ensures x in keys - {Key(results[k])} {
      var i :| 0 <= i < |r| && Key(r[i]) == x;
      var i' := if i < k then i else i + 1;
      assert r[i] == results[i'] && i' != k;
      assert x in KeySet(results, Key);
    }
    forall x | x in keys - {Key(results[k])} ensures x in KeySet(r, Key) {
      var i :| 0 <= i < |results| && Key(results[i]) == x;
      assert i != k;
      if i < k {
        assert r[i] == results[i];
      } else {
        assert r[i - 1] == results[i];
      }
    }
  }

  /** Replacing a record by one with the same key keeps the store consistent. */
  lemma ReplaceConsistent(results: seq<Contact>, keys: set<string>, k: nat, c: Contact)
    requires Consistent(results, keys) && k < |results| && Key(c) == Key(results[k])
    ensures Consistent(results[k := c], keys)
  {
    var r := results[k := c];
    assert forall i :: 0 <= i < |r| ==> Key(r[i]) == Key(results[i]);
    forall x | x in KeySet(r, Key) ensures x in KeySet(results, Key) {
      var i :| 0 <= i < |r| && Key(r[i]) == x;
      assert Key(results[i]) == x;
    }
    forall x | x in KeySet(results, Key) ensures x in KeySet(r, Key) {
      var i :| 0 <= i < |results| && Key(results[i]) == x;
      assert Key(r[i]) == x;
    }
  }

  /** The records `addResults` accepts from `data` when the map holds `seen`: no two
      share a key, together they bring exactly the keys not yet stored, each is the
      first input with its key, and they come in the order their keys first occur. */
  lemma AdmittedCharacterised(data: seq<Contact>, seen: set<string>)
    ensures var r := DedupFrom(data, Key, seen);
      && KeysDistinct(r, Key)
      && KeySet(r, Key) == KeySet(data, Key) - seen
      && IsSubsequence(r, data)
      && (forall y :: y in r ==> FirstWith(data, Key, Key(y)) == Some(y))
      && InFirstOccurrenceOrder(r, data, Key)
  {
    DedupFromKeys(data, Key, seen);
    DedupFromOrder(data, Key, seen);
    DedupFromFirst(data, Key, seen);
    DedupFromFirstOrder(data, Key, seen);
  }

  /** `getUniqueEmails` and `removeDuplicatesFromArray`: the first record of each
      email, in the original order. */
  function UniqueByEmail(rs: seq<Contact>): (r: seq<Contact>)
    ensures forall i, j :: 0 <= i < j < |r| ==> r[i].email != r[j].email
    ensures KeySet(r, EmailOf) == KeySet(rs, EmailOf)
    ensures IsSubsequence(r, rs)
    ensures forall y :: y in r ==> FirstWith(rs, EmailOf, y.email) == Some(y)
    ensures InFirstOccurrenceOrder(r, rs, EmailOf)
    ensures |r| == |Emails(rs)|
  {
    DedupByCharacterised(rs, EmailOf);
    var r := DedupBy(rs, EmailOf);
    DistinctKeysCount(r, EmailOf);
    assert KeySet(rs, EmailOf) == Emails(rs);
    r
  }

  /** The report of `getStats`. */
  datatype StoreStats = StoreStats(
    total: int,
    verified: int,
    unverified: int,
    unique: int,
    duplicates: int,
    journalStats: seq<JournalCount>)

  /** `getStats`: the counts are computed as differences, as in the source, and the
      contract ties each to the records it describes. */
  function GetStats(rs: seq<Contact>): (s: StoreStats)
    ensures s.total == |rs| && s.verified == CountVerified(rs)
    ensures s.unverified == CountUnverified(rs) && s.unverified == s.total - s.verified
    ensures s.unique == |Emails(rs)| && s.duplicates == s.total - s.unique && 0 <= s.duplicates <= s.total
    ensures Total(s.journalStats) == |rs| && LabelsDistinct(s.journalStats)
    ensures forall l :: Lookup(s.journalStats, l) == Occurrences(rs, l)
  {
    VerifiedSplit(rs);
    EmailsBounded(rs);
    TallyCorrect(rs);
    var total := |rs|;
    var verified := CountVerified(rs);
    var unique := |UniqueByEmail(rs)|;
    StoreStats(total, verified, total - verified, unique, total - unique, Tally(rs))
  }

  /** The record matches the lower-cased query in its email, or in a non-empty
      name, journal or topic. */
  predicate Matches(c: Contact, lowerQuery: string)
  {
    Contains(ToLower(c.email), lowerQuery)
    || (c.name != "" && Contains(ToLower(c.name), lowerQuery))
    || (c.journal != "" && Contains(ToLower(c.journal), lowerQuery))
    || (c.topic != "" && Contains(ToLower(c.topic), lowerQuery))
  }

  function FilterMatches(rs: seq<Contact>, lowerQuery: string): (r: seq<Contact>)
    ensures forall c :: c in r <==> c in rs && Matches(c, lowerQuery)
    ensures IsSubsequence(r, rs)
    ensures forall c :: multiset(r)[c] == if Matches(c, lowerQuery) then multiset(rs)[c] else 0
  {
    Filter(rs, (c: Contact) => Matches(c, lowerQuery))
  }

  /** `searchResults(query)`: the matching records, in store order. */
  function SearchResults(rs: seq<Contact>, query: string): (r: seq<Contact>)
    ensures forall c :: c in r <==> c in rs && Matches(c, ToLower(query))
    ensures IsSubsequence(r, rs)
    ensures forall c :: multiset(r)[c] == if Matches(c, ToLower(query)) then multiset(rs)[c] else 0
  {
    FilterMatches(rs, ToLower(query))
  }

  /** `updateResult` changing an email leaves its old key in the map: afterwards the
      store refuses the old pair although no record has it. */
  lemma UpdateCanStaleTheMap()
    ensures var c := Contact("", "a@x.org", "", "", false, false, "u", "t", "1");
      var p := Patch(None, Some("b@x.org"), None, None, None, None, None, None, None);
      Consistent([c], {Key(c)}) && !Consistent([c][0 := Merge(c, p)], {Key(c)})
  {
    var c := Contact("", "a@x.org", "", "", false, false, "u", "t", "1");
    var p := Patch(None, Some("b@x.org"), None, None, None, None, None, None, None);
    var m := Merge(c, p);
    assert Key(c) != Key(m) by {
      assert Key(c)[0] == 'a' && Key(m)[0] == 'b';
    }
    assert KeySet([c], Key) == {Key(c)} by {
      assert Key([c][0]) in KeySet([c], Key);
    }
    assert [c][0 := m] == [m];
    assert KeySet([m], Key) == {Key(m)} by {
      assert Key([m][0]) in KeySet([m], Key);
    }
  }

  class DataManager {
    var results: seq<Contact>
    var duplicateMap: set<string>

    ghost predicate Valid()
      reads this
    {
      Consistent(results, duplicateMap)
    }

    constructor()
      ensures results == [] && duplicateMap == {} && Valid()
    {
      results := [];
      duplicateMap := {};
    }

    /** `addResult(emailData)` with `freshId` the generated id and `now` the clock.
        `record` is the caller's object as the call leaves it. */
    method AddResult(data: Contact, freshId: string, now: string) returns (added: bool, record: Contact)
      modifies this
      ensures Key(data) in old(duplicateMap) ==>
        !added && record == data.(duplicate := true) && results == old(results) && duplicateMap == old(duplicateMap)
      ensures Key(data) !in old(duplicateMap) ==>
        added && record == Stamp(data, freshId, now)
        && results == old(results) + [record] && duplicateMap == old(duplicateMap) + {Key(data)}
      ensures old(Valid()) ==> Valid()
    {
      var key := data.email + "|" + data.sourceUrl;
      if key in duplicateMap {
        return false, data.(duplicate := true);
      }
      duplicateMap := duplicateMap + {key};
      record := data.(duplicate := false, id := freshId);
      record := record.(timestamp := if record.timestamp == "" then now else record.timestamp);
      if old(Valid()) {
        AppendConsistent(old(results), old(duplicateMap), record);
      }
      results := results + [record];
      added := true;
    }

    /** `addResults(array)`: the accepted records in input order; the m-th id
        generated during the call is `newId(m)`. */
    method AddResults(data: seq<Contact>, newId: nat -> string, now: string) returns (added: seq<Contact>)
      modifies this
      ensures added == StampAll(DedupFrom(data, Key, old(duplicateMap)), newId, now)
      ensures results == old(results) + added
      ensures duplicateMap == old(duplicateMap) + KeySet(data, Key)
      ensures old(Valid()) ==> Valid()
    {
      added := [];
      var k := 0;
      while k < |data|
        invariant k <= |data|
        invariant added == StampAll(DedupFrom(data[..k], Key, old(duplicateMap)), newId, now)
        invariant results == old(results) + added
        invariant duplicateMap == old(duplicateMap) + KeySet(data[..k], Key)
        invariant old(Valid()) ==> Valid()
      {
        AdmitAt(data, k, old(duplicateMap), newId, now);
        ghost var next := StampAll(DedupFrom(data[..k + 1], Key, old(duplicateMap)), newId, now);
        ghost var nextKeys := old(duplicateMap) + KeySet(data[..k + 1], Key);
        var ok, record := AddResult(data[k], newId(|added|), now);
        if ok {
          Regroup(old(results), added, [record]);
          added := added + [record];
        }
        assert added == next && duplicateMap == nextKeys;
        k := k + 1;
      }
      assert data[..k] == data;
    }

    /** `updateResult(id, updates)`: the first record with that id takes the update;
        the map is left as it is. */
    method UpdateResult(id: string, patch: Patch) returns (updated: Option<Contact>)
      modifies this
      ensures duplicateMap == old(duplicateMap)
      ensures FindById(old(results), id).None? ==> updated == None && results == old(results)
      ensures FindById(old(results), id).Some? ==>
        var k := FindById(old(results), id).value;
        updated == Some(Merge(old(results)[k], patch)) && results == old(results)[k := updated.value]
      ensures old(Valid()) && (updated.Some? ==> Key(updated.value) == Key(old(results)[FindById(old(results), id).value]))
        ==> Valid()
    {
      var index := FindById(results, id);
      if index.None? {
        return None;
      }
      var k := index.value;
      var merged := Merge(results[k], patch);
      if old(Valid()) && Key(merged) == Key(results[k]) {
        ReplaceConsistent(results, duplicateMap, k, merged);
      }
      results := results[k := merged];
      updated := Some(merged);
    }

    /** `deleteResult(id)`: removes the first record with that id and its key. */
    method DeleteResult(id: string) returns (deleted: Option<Contact>)
      modifies this
      ensures FindById(old(results), id).None? ==>
        deleted == None && results == old(results) && duplicateMap == old(duplicateMap)
      ensures FindById(old(results), id).Some? ==>
        var k := FindById(old(results), id).value;
        deleted == Some(old(results)[k]) && results == old(results)[..k] + old(results)[k + 1..]
        && duplicateMap == old(duplicateMap) - {Key(old(results)[k])}
      ensures old(Valid()) ==> Valid()
    {
      var index := FindById(results, id);
      if index.None? {
        return None;
      }
      var k := index.value;
      var gone := results[k];
      if old(Valid()) {
        RemoveConsistent(results, duplicateMap, k);
      }
      results := results[..k] + results[k + 1..];
      duplicateMap := duplicateMap - {gone.email + "|" + gone.sourceUrl};
      deleted := Some(gone);
    }

    method ClearResults()
      modifies this
      ensures results == [] && duplicateMap == {} && Valid()
    {
      results := [];
      duplicateMap := {};
    }
  }

  lemma KeySetSnoc(xs: seq<Contact>, x: Contact)
    ensures KeySet(xs + [x], Key) == KeySet(xs, Key) + {Key(x)}
  {
    var r := xs + [x];
    forall k | k in KeySet(r, Key) ensures k in KeySet(xs, Key) + {Key(x)} {
      var i :| 0 <= i < |r| && Key(r[i]) == k;
      if i < |xs| { assert r[i] == xs[i]; }
    }
    forall k | k in KeySet(xs, Key) ensures k in KeySet(r, Key) {
      var i :| 0 <= i < |xs| && Key(xs[i]) == k;
      assert r[i] == xs[i];
    }
    assert Key(r[|xs|]) == Key(x);
  }

  /** Adding a batch the way `addResults` does keeps the store consistent: the
      accepted records, stamped, extend the results and every input key joins the map. */
  lemma {:induction false} AddAllConsistent(results: seq<Contact>, keys: set<string>, data: seq<Contact>,
                                            newId: nat -> string, now: string)
    requires Consistent(results, keys)
    ensures Consistent(results + StampAll(DedupFrom(data, Key, keys), newId, now), keys + KeySet(data, Key))
    decreases |data|
  {
    if data == [] {
      assert DedupFrom(data, Key, keys) == [];
      assert results + StampAll([], newId, now) == results;
      assert KeySet(data, Key) == {};
    } else {
      var init, x := data[..|data| - 1], data[|data| - 1];
      assert data == init + [x];
      AddAllConsistent(results, keys, init, newId, now);
      AddOneConsistent(results, keys, init, x, newId, now);
    }
  }

  /** The step of `AddAllConsistent`: one input more keeps the store consistent. */
  lemma AddOneConsistent(results: seq<Contact>, keys: set<string>, init: seq<Contact>, x: Contact,
                         newId: nat -> string, now: string)
    requires Consistent(results + StampAll(DedupFrom(init, Key, keys), newId, now), keys + KeySet(init, Key))
    ensures Consistent(results + StampAll(DedupFrom(init + [x], Key, keys), newId, now), keys + KeySet(init + [x], Key))
  {
    AdmitStep(init, x, keys, newId, now);
    var before := StampAll(DedupFrom(init, Key, keys), newId, now);
    var seen := keys + KeySet(init, Key);
    var r := results + before;
    var after := StampAll(DedupFrom(init + [x], Key, keys), newId, now);
    if Key(x) !in seen {
      var y := Stamp(x, newId(|before|), now);
      assert after == before + [y];
      assert Key(y) == Key(x);
      AppendConsistent(r, seen, y);
      assert r + [y] == results + after;
    } else {
      assert after == before;
      assert seen + {Key(x)} == seen;
    }
  }

  /** One input more for `addResults`: it is stamped and kept exactly when its key
      is not yet stored, and its key joins the map either way. */
  lemma AdmitStep(xs: seq<Contact>, x: Contact, seen: set<string>, newId: nat -> string, now: string)
    ensures var before := StampAll(DedupFrom(xs, Key, seen), newId, now);
      StampAll(DedupFrom(xs + [x], Key, seen), newId, now)
      == before + (if Key(x) in seen + KeySet(xs, Key) then [] else [Stamp(x, newId(|before|), now)])
    ensures seen + KeySet(xs + [x], Key) == seen + KeySet(xs, Key) + {Key(x)}
  {
    DedupFromSnoc(xs, x, Key, seen);
    KeySetSnoc(xs, x);
    var kept := DedupFrom(xs, Key, seen);
    if Key(x) !in seen + KeySet(xs, Key) {
      StampSnoc(kept, x, newId, now);
    }
  }

  /** `AdmitStep` at position `k` of the input, one case per branch of `addResult`. */
  lemma AdmitAt(data: seq<Contact>, k: nat, seen: set<string>, newId: nat -> string, now: string)
    requires k < |data|
    ensures var before := StampAll(DedupFrom(data[..k], Key, seen), newId, now);
      var stored := seen + KeySet(data[..k], Key);
      if Key(data[k]) in stored then
        StampAll(DedupFrom(data[..k + 1], Key, seen), newId, now) == before
        && seen + KeySet(data[..k + 1], Key) == stored
      else
        StampAll(DedupFrom(data[..k + 1], Key, seen), newId, now) == before + [Stamp(data[k], newId(|before|), now)]
        && seen + KeySet(data[..k + 1], Key) == stored + {Key(data[k])}
  {
    assert data[..k + 1] == data[..k] + [data[k]];
    AdmitStep(data[..k], data[k], seen, newId, now);
    var stored := seen + KeySet(data[..k], Key);
    if Key(data[k]) in stored {
      assert stored + {Key(data[k])} == stored;
    }
  }

  lemma StampSnoc(a: seq<Contact>, x: Contact, newId: nat -> string, now: string)
    ensures StampAll(a + [x], newId, now) == StampAll(a, newId, now) + [Stamp(x, newId(|a|), now)]
    ensures Key(Stamp(x, newId(|a|), now)) == Key(x)
  {
    assert (a + [x])[|a|] == x;
  }
}
