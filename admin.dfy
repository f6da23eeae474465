/** The administration panel: an in-memory registry of users and licences with
    the counters shown on its statistics tab, and the generator of licence keys.

    Licence expiry instants and "now" are milliseconds since the epoch; creation
    and update stamps are the ISO strings the caller supplies. Browser dialogs
    (`prompt`, `confirm`) become parameters, the random draws of the key
    generator an oracle of character indices. */
module Admin {
  import opened Wrappers
  import opened Text
  import opened Seqs

  datatype User = User(id: int, username: string, role: string, createdAt: string, updatedAt: string, isActive: bool)

  datatype License = License(id: int, key: string, username: string, expiresAt: int, seats: int,
                             featuresJson: string, lastCheckedAt: string, revoked: bool)

  datatype AdminStats = AdminStats(totalUsers: nat, activeUsers: nat, totalLicenses: nat, activeLicenses: nat,
                                   totalSessions: nat, totalEmails: nat)

  // ---------------------------------------------------------------- counting

  function CountActiveUsers(users: seq<User>): (n: nat)
    ensures n <= |users|
    ensures n == |users| <==> forall k :: 0 <= k < |users| ==> users[k].isActive
  {
    if users == [] then 0
    else
      assert forall k :: 1 <= k < |users| ==> users[1..][k - 1] == users[k];
      (if users[0].isActive then 1 else 0) + CountActiveUsers(users[1..])
  }

  /** A licence counts as active when it is not revoked and expires strictly after now. */
  predicate Live(l: License, now: int)
  {
    !l.revoked && l.expiresAt > now
  }

  function ActiveLicenses(ls: seq<License>, now: int): (n: nat)
    ensures n <= |ls|
    ensures n == 0 <==> forall k :: 0 <= k < |ls| ==> !Live(ls[k], now)
  {
    if ls == [] then 0
    else
      assert forall k :: 1 <= k < |ls| ==> ls[1..][k - 1] == ls[k];
      (if Live(ls[0], now) then 1 else 0) + ActiveLicenses(ls[1..], now)
  }

  /** The status badge of the licences tab. */
  function LicenseStatus(l: License, now: int): (status: string)
    ensures status in {"Revoked", "Expired", "Active"}
    ensures status == "Revoked" <==> l.revoked
    ensures status == "Expired" <==> !l.revoked && l.expiresAt < now
  {
    if l.revoked then "Revoked"
    else if l.expiresAt < now then "Expired"
    else "Active"
  }

  /** The badge and the active count disagree at one instant only: a licence
      expiring exactly now shows "Active" but is not counted. */
  lemma StatusAgainstCount(l: License, now: int)
    ensures Live(l, now) ==> LicenseStatus(l, now) == "Active"
    ensures LicenseStatus(l, now) == "Active" && !Live(l, now) <==> !l.revoked && l.expiresAt == now
  {
  }

  // ---------------------------------------------------------------- identifiers

  /** A JavaScript number as `Math.max` sees it: finite, or minus infinity. */
  datatype Extended = NegInfinity | Finite(value: int)

  function MaxOf(ids: seq<Extended>): (m: Extended)
    ensures m == NegInfinity <==> forall k :: 0 <= k < |ids| ==> ids[k] == NegInfinity
    ensures m.Finite? ==> Finite(m.value) in ids && forall k :: 0 <= k < |ids| && ids[k].Finite? ==> ids[k].value <= m.value
  {
    if ids == [] then NegInfinity
    else
      var rest := MaxOf(ids[1..]);
      assert forall k :: 1 <= k < |ids| ==> ids[1..][k - 1] == ids[k];
      match (ids[0], rest)
      case (NegInfinity, _) => rest
      case (Finite(a), NegInfinity) => ids[0]
      case (Finite(a), Finite(b)) => if a >= b then ids[0] else rest
  }

  /** `Math.max(...ids) + 1` as written: minus infinity on an empty list. */
  function NextIdAsWritten(ids: seq<Extended>): (r: Extended)
    ensures r == NegInfinity <==> forall k :: 0 <= k < |ids| ==> ids[k] == NegInfinity
    ensures r.Finite? ==> forall k :: 0 <= k < |ids| && ids[k].Finite? ==> ids[k].value < r.value
  {
    match MaxOf(ids)
    case NegInfinity => NegInfinity
    case Finite(m) => Finite(m + 1)
  }

  /** Once the list is empty, the next two additions both get minus infinity:
      the ids collide, and every later addition joins them. */
  lemma AsWrittenIdsCollide()
    ensures NextIdAsWritten([]) == NegInfinity
    ensures NextIdAsWritten([NextIdAsWritten([])]) == NextIdAsWritten([])
  {
  }

  function Finites(ids: seq<int>): (r: seq<Extended>)
    ensures |r| == |ids| && forall k :: 0 <= k < |ids| ==> r[k] == Finite(ids[k])
  {
    seq(|ids|, k requires 0 <= k < |ids| => Finite(ids[k]))
  }

  function MaxInt(ids: seq<int>): (m: int)
    requires ids != []
    ensures m in ids && forall k :: 0 <= k < |ids| ==> ids[k] <= m
  {
    if |ids| == 1 then ids[0]
    else
      var rest := MaxInt(ids[1..]);
      assert forall k :: 1 <= k < |ids| ==> ids[1..][k - 1] == ids[k];
      if ids[0] >= rest then ids[0] else rest
  }

  /** The next id as evidently intended: one more than the largest, 1 for an empty list. */
  function NextId(ids: seq<int>): (r: int)
    ensures forall k :: 0 <= k < |ids| ==> ids[k] < r
    ensures ids != [] ==> r - 1 in ids
  {
    if ids == [] then 1 else MaxInt(ids) + 1
  }

  /** On a non-empty list the corrected id is the one the source computes. */
  lemma {:induction false} NextIdAgrees(ids: seq<int>)
    requires ids != []
    ensures NextIdAsWritten(Finites(ids)) == Finite(NextId(ids))
  {
    var m := MaxOf(Finites(ids));
    assert Finites(ids)[0] == Finite(ids[0]);
    assert m.Finite?;
    var j :| 0 <= j < |ids| && Finites(ids)[j] == m;
    assert m.value == ids[j];
    assert m.value == MaxInt(ids);
  }

  function UserId(u: User): int
  {
    u.id
  }

  function LicenseId(l: License): int
  {
    l.id
  }

  function UserIds(users: seq<User>): seq<int>
  {
    KeySeq(users, UserId)
  }

  function LicenseIds(ls: seq<License>): seq<int>
  {
    KeySeq(ls, LicenseId)
  }

  // ---------------------------------------------------------------- lookups and edits

  /** `find(u => u.id === id)`. */
  function FindUser(users: seq<User>, id: int): Option<nat>
  {
    FirstIndex(users, UserId, id)
  }

  /** `find(l => l.id === id)`. */
  function FindLicense(ls: seq<License>, id: int): Option<nat>
  {
    FirstIndex(ls, LicenseId, id)
  }

  /** `users.filter(u => u.id !== id)`. */
  function WithoutId(users: seq<User>, id: int): (r: seq<User>)
    ensures |r| <= |users|
    ensures forall u :: u in r <==> u in users && u.id != id
    ensures IsSubsequence(r, users)
    ensures forall u :: multiset(r)[u] == if u.id != id then multiset(users)[u] else 0
  {
    Filter(users, (u: User) => u.id != id)
  }

  /** The registry's well-formedness: no two users share an id or a username. */
  predicate Registry(users: seq<User>)
  {
    forall i, j :: 0 <= i < j < |users| ==> users[i].id != users[j].id && users[i].username != users[j].username
  }

  /** `revokeLicense` on the list: the first licence with the id flips its flag. */
  function Toggle(ls: seq<License>, id: int): (r: seq<License>)
    ensures |r| == |ls| && LicenseIds(r) == LicenseIds(ls)
    ensures FindLicense(ls, id).None? ==> r == ls
    ensures FindLicense(ls, id).Some? ==>
      var k := FindLicense(ls, id).value; r == ls[k := ls[k].(revoked := !ls[k].revoked)]
  {
    match FindLicense(ls, id)
    case None => ls
    case Some(k) => ls[k := ls[k].(revoked := !ls[k].revoked)]
  }

  /** Revoking twice restores the licence list. */
  lemma ToggleTwice(ls: seq<License>, id: int)
    ensures Toggle(Toggle(ls, id), id) == ls
  {
    var r := Toggle(ls, id);
    if FindLicense(ls, id).Some? {
      var k := FindLicense(ls, id).value;
      assert forall j :: 0 <= j < |r| ==> r[j].id == ls[j].id;
      assert FindLicense(r, id) == Some(k) by {
        FirstIndexByKeys(r, ls, LicenseId, id);
      }
    }
  }

  // ---------------------------------------------------------------- keys

  const KeyAlphabet: string := "ABCDEFGHIJKLMNOPQRSTUVWXYZ0123456789"

  /** `chars.charAt(n)`: the n-th character, or nothing when n is out of range. */
  function CharAt(n: nat): (r: string)
    ensures n < 36 ==> r == [KeyAlphabet[n]]
    ensures n >= 36 ==> r == []
  {
    if n < |KeyAlphabet| then [KeyAlphabet[n]] else []
  }

  /** The characters the first n draws contribute. */
  function KeyBody(pick: nat -> nat, n: nat): (r: string)
    ensures |r| <= n && forall k :: 0 <= k < |r| ==> r[k] in KeyAlphabet
  {
    if n == 0 then [] else KeyBody(pick, n - 1) + CharAt(pick(n - 1))
  }

  /** The key built from the draws `pick(0)`, ..., `pick(15)`. */
  function KeyText(pick: nat -> nat): string
  {
    "SLS-" + KeyBody(pick, 16)
  }

  lemma {:induction false} KeyBodyLength(pick: nat -> nat, n: nat)
    requires forall k :: 0 <= k < n ==> pick(k) < 36
    ensures |KeyBody(pick, n)| == n
  {
    if n > 0 {
      KeyBodyLength(pick, n - 1);
    }
  }

  /** A generated key starts with `SLS-` and continues with characters of A-Z0-9;
      with every draw in range, as `Math.random` guarantees, it has 20 characters. */
  lemma KeyShape(pick: nat -> nat)
    ensures var key := KeyText(pick);
      && StartsWith(key, "SLS-") && |key| <= 20
      && forall k :: 4 <= k < |key| ==> key[k] in KeyAlphabet
    ensures (forall k :: 0 <= k < 16 ==> pick(k) < 36) ==> |KeyText(pick)| == 20
  {
    var key := KeyText(pick);
    assert key[..4] == "SLS-";
    forall k | 4 <= k < |key| ensures key[k] in KeyAlphabet {
      assert key[k] == KeyBody(pick, 16)[k - 4];
    }
    if forall k :: 0 <= k < 16 ==> pick(k) < 36 {
      KeyBodyLength(pick, 16);
    }
  }

  /** `generateLicenseKey`: the k-th draw picks the k-th character. */
  method GenerateLicenseKey(pick: nat -> nat) returns (key: string)
    ensures key == KeyText(pick)
  {
    key := "SLS-";
    for i := 0 to 16
      invariant key == "SLS-" + KeyBody(pick, i)
    {
      key := key + CharAt(pick(i));
    }
  }

  // ---------------------------------------------------------------- the panel

  function Stats(users: seq<User>, ls: seq<License>, now: int): AdminStats
  {
    AdminStats(|users|, CountActiveUsers(users), |ls|, ActiveLicenses(ls, now), 45, 1250)
  }

  class AdminPanel {
    var users: seq<User>
    var licenses: seq<License>
    var stats: AdminStats

    /** The panel after `loadData`: three users, two licences, and the counters
        computed at `now`. */
    constructor(now: int)
      ensures Registry(users) && stats == Stats(users, licenses, now)
      ensures |users| == 3 && |licenses| == 2
    {
      var us := [
        User(1, "admin", "admin", "2024-01-01T00:00:00Z", "2024-01-01T00:00:00Z", true),
        User(2, "operator", "operator", "2024-01-02T00:00:00Z", "2024-01-02T00:00:00Z", true),
        User(3, "demo", "operator", "2024-01-03T00:00:00Z", "2024-01-03T00:00:00Z", true)];
      var ls := [
        License(1, "SLS-DEMO123456789", "demo", 1735689599000, 1,
                "{\"ocr\": true, \"mx\": true, \"export\": true}", "2024-01-15T10:00:00Z", false),
        License(2, "SLS-OPERATOR987654321", "operator", 1719791999000, 1,
                "{\"ocr\": true, \"mx\": true, \"export\": true}", "2024-01-15T09:30:00Z", false)];
      users, licenses := us, ls;
      stats := Stats(us, ls, now);
    }

    /** `handleAddUser`: the alert it shows and the new registry. */
    method HandleAddUser(usernameField: string, password: string, role: string, stamp: string)
      returns (alert: string)
      modifies this
      ensures var username := Trim(usernameField);
        && (username == "" || password == "" ==>
              alert == "Please fill in all fields" && users == old(users) && stats == old(stats))
        && (username != "" && password != "" && (exists k :: 0 <= k < |old(users)| && old(users)[k].username == username) ==>
              alert == "Username already exists" && users == old(users) && stats == old(stats))
        && (username != "" && password != "" && (forall k :: 0 <= k < |old(users)| ==> old(users)[k].username != username) ==>
              alert == "User \"" + username + "\" created successfully"
              && users == old(users) + [User(NextId(UserIds(old(users))), username, role, stamp, stamp, true)]
              && stats == old(stats).(totalUsers := |users|, activeUsers := CountActiveUsers(users)))
      ensures licenses == old(licenses)
      ensures old(Registry(users)) ==> Registry(users)
    {
      var username := Trim(usernameField);
      if username == "" || password == "" {
        return "Please fill in all fields";
      }
      var k := 0;
      while k < |users|
        invariant k <= |users| && forall j :: 0 <= j < k ==> users[j].username != username
      {
        if users[k].username == username {
          return "Username already exists";
        }
        k := k + 1;
      }
      var added := User(NextId(UserIds(users)), username, role, stamp, stamp, true);
      users := users + [added];
      stats := stats.(totalUsers := |users|, activeUsers := CountActiveUsers(users));
      alert := "User \"" + username + "\" created successfully";
    }

    /** `handleGenerateLicense` with the key generator's draws and the form's
        values. `expiresAt` is the expiry date converted to an instant, or None when
        the date field is empty or unreadable: then `toISOString` throws after the
        key was drawn, and no licence is added. `created` says whether the licence
        was added and its key shown. */
    method HandleGenerateLicense(username: string, expiresAt: Option<int>, seats: int, featuresJson: string,
                                 pick: nat -> nat, now: int, stamp: string) returns (key: string, created: bool)
      modifies this
      ensures key == KeyText(pick) && created == expiresAt.Some?
      ensures expiresAt.None? ==> licenses == old(licenses) && stats == old(stats)
      ensures expiresAt.Some? ==>
        && licenses == old(licenses) + [License(NextId(LicenseIds(old(licenses))), key, username, expiresAt.value,
                                                seats, featuresJson, stamp, false)]
        && stats == old(stats).(totalLicenses := |licenses|, activeLicenses := ActiveLicenses(licenses, now))
      ensures users == old(users)
    {
      key := GenerateLicenseKey(pick);
      var id := NextId(LicenseIds(licenses));
      if expiresAt.None? {
        return key, false;
      }
      licenses := licenses + [License(id, key, username, expiresAt.value, seats, featuresJson, stamp, false)];
      stats := stats.(totalLicenses := |licenses|, activeLicenses := ActiveLicenses(licenses, now));
      created := true;
    }

    /** `editUser`: `answer` is what the prompt returned (None when cancelled). */
    method EditUser(userId: int, answer: Option<string>, stamp: string)
      modifies this
      ensures var k := FindUser(old(users), userId);
        if k.Some? && answer.Some? && answer.value in {"admin", "operator"} then
          users == old(users)[k.value := old(users)[k.value].(role := answer.value, updatedAt := stamp)]
        else users == old(users)
      ensures licenses == old(licenses) && stats == old(stats)
      ensures old(Registry(users)) ==> Registry(users)
    {
      var k := FindUser(users, userId);
      if k.Some? && answer.Some? && answer.value != "" && (answer.value == "admin" || answer.value == "operator") {
        users := users[k.value := users[k.value].(role := answer.value, updatedAt := stamp)];
      }
    }

    /** `deleteUser`: `confirmed` is the answer to the confirmation dialog. */
    method DeleteUser(userId: int, confirmed: bool)
      modifies this
      ensures FindUser(old(users), userId).Some? && confirmed ==>
        users == WithoutId(old(users), userId) && IsSubsequence(users, old(users))
        && stats == old(stats).(totalUsers := |users|, activeUsers := CountActiveUsers(users))
      ensures !(FindUser(old(users), userId).Some? && confirmed) ==> users == old(users) && stats == old(stats)
      ensures licenses == old(licenses)
      ensures old(Registry(users)) ==> Registry(users)
    {
      if FindUser(users, userId).Some? && confirmed {
        if Registry(users) {
          WithoutIdKeepsRegistry(users, userId);
        }
        users := WithoutId(users, userId);
        stats := stats.(totalUsers := |users|, activeUsers := CountActiveUsers(users));
      }
    }

    /** `revokeLicense`: flips the flag of the licence and recounts at `now`. */
    method RevokeLicense(licenseId: int, now: int)
      modifies this
      ensures FindLicense(old(licenses), licenseId).Some? ==>
        licenses == Toggle(old(licenses), licenseId)
        && stats == old(stats).(activeLicenses := ActiveLicenses(licenses, now))
      ensures FindLicense(old(licenses), licenseId).None? ==> licenses == old(licenses) && stats == old(stats)
      ensures users == old(users)
    {
      var k := FindLicense(licenses, licenseId);
      if k.Some? {
        licenses := licenses[k.value := licenses[k.value].(revoked := !licenses[k.value].revoked)];
        stats := stats.(activeLicenses := ActiveLicenses(licenses, now));
      }
    }
  }

  /** Adding a user with a fresh name and the next id keeps ids and names unique. */
  lemma AddKeepsRegistry(users: seq<User>, u: User)
    requires Registry(users) && u.id == NextId(UserIds(users))
    requires forall k :: 0 <= k < |users| ==> users[k].username != u.username
    ensures Registry(users + [u])
  {
    var r := users + [u];
    forall i, j | 0 <= i < j < |r| ensures r[i].id != r[j].id && r[i].username != r[j].username {
      if j == |users| {
        assert UserIds(users)[i] == users[i].id;
      }
    }
  }

  /** Removing users keeps the order of the rest, so the registry stays well formed. */
  lemma {:induction false} WithoutIdKeepsRegistry(users: seq<User>, id: int)
    requires Registry(users)
    ensures Registry(WithoutId(users, id))
  {
    if users != [] {
      RegistryTail(users);
      WithoutIdKeepsRegistry(users[1..], id);
      var rest := WithoutId(users[1..], id);
      if users[0].id != id {
        forall u | u in rest ensures u.id != users[0].id && u.username != users[0].username {
          var j :| 0 <= j < |users[1..]| && users[1..][j] == u;
          assert users[j + 1] == u;
        }
        RegistryCons(users[0], rest);
        assert WithoutId(users, id) == [users[0]] + rest;
      } else {
        assert WithoutId(users, id) == rest;
      }
    }
  }

  lemma RegistryTail(users: seq<User>)
    requires Registry(users) && users != []
    ensures Registry(users[1..])
  {
    forall i, j | 0 <= i < j < |users| - 1
      ensures users[1..][i].id != users[1..][j].id && users[1..][i].username != users[1..][j].username
    {
      assert users[1..][i] == users[i + 1] && users[1..][j] == users[j + 1];
    }
  }

  lemma RegistryCons(u: User, rest: seq<User>)
    requires Registry(rest)
    requires forall v | v in rest :: v.id != u.id && v.username != u.username
    ensures Registry([u] + rest)
  {
    var r := [u] + rest;
    forall i, j | 0 <= i < j < |r| ensures r[i].id != r[j].id && r[i].username != r[j].username {
      assert r[j] == rest[j - 1];
      if i > 0 {
        assert r[i] == rest[i - 1];
      }
    }
  }
}
