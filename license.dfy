/** The `SLS-` licence keys of the desktop shell's licence manager: a key is the
    prefix `SLS-` followed by the base 64 text of the serialised licence data.
    JSON serialisation with its UTF-8 encoding is a parameter pair
    (`serialize`, `parse`), and the clock is a millisecond timestamp argument. */
module License {
  import opened Wrappers
  import opened Text
  import Base64

  const Prefix: string := "SLS-"

  /** 72 hours in milliseconds. */
  const OfflineGracePeriod: int := 72 * 60 * 60 * 1000

  /** The licence object. `expiresAt` is None when `expires_at` does not read
      as a date: JavaScript's `Invalid Date` compares false with everything. */
  datatype LicenseData = LicenseData(
    username: string,
    expiresAt: Option<int>,
    seats: int,
    features: map<string, string>,
    issuedAt: string)

  datatype Validation = Valid(data: LicenseData) | Invalid(error: string)

  /** `generateLicenseKey`; `issuedAt` is the ISO text of the clock at issue time. */
  function GenerateLicenseKey(serialize: LicenseData -> seq<Base64.Byte>, username: string, expiresAt: Option<int>,
                              seats: int, features: map<string, string>, issuedAt: string): (key: string)
    ensures StartsWith(key, Prefix)
    ensures Base64.Decode(key[|Prefix|..]) == Some(serialize(LicenseData(username, expiresAt, seats, features, issuedAt)))
  {
    var d := LicenseData(username, expiresAt, seats, features, issuedAt);
    Base64.DecodeEncode(serialize(d));
    var key := Prefix + Base64.Encode(serialize(d));
    assert key[|Prefix|..] == Base64.Encode(serialize(d));
    key
  }

  /** A licence is expired when its expiry lies strictly before now. */
  predicate Expired(d: LicenseData, now: int)
  {
    d.expiresAt.Some? && d.expiresAt.value < now
  }

  /** `validateLicenseKey` at time `now`: prefix test, then decoding and parsing of
      exactly the text after the four-character prefix, then the expiry test. */
  function ValidateLicenseKey(parse: seq<Base64.Byte> -> Option<LicenseData>, key: string, now: int): (v: Validation)
    ensures v == Invalid("Invalid license format") <==> !StartsWith(key, Prefix)
    ensures v == Invalid("Invalid license key") <==>
      StartsWith(key, Prefix) && (Base64.Decode(key[4..]).None? || parse(Base64.Decode(key[4..]).value).None?)
    ensures v == Invalid("License expired") <==>
      StartsWith(key, Prefix) && Base64.Decode(key[4..]).Some? && parse(Base64.Decode(key[4..]).value).Some?
      && Expired(parse(Base64.Decode(key[4..]).value).value, now)
    ensures v.Valid? ==>
      (StartsWith(key, Prefix) && Base64.Decode(key[4..]).Some?
       && parse(Base64.Decode(key[4..]).value) == Some(v.data) && !Expired(v.data, now))
  {
    if !StartsWith(key, Prefix) then Invalid("Invalid license format")
    else match Base64.Decode(key[4..])
      case None => Invalid("Invalid license key")
      case Some(bytes) =>
        match parse(bytes)
        case None => Invalid("Invalid license key")
        case Some(d) => if Expired(d, now) then Invalid("License expired") else Valid(d)
  }

  /** A freshly generated key validates to the very data it was made from, as long
      as the serialiser round-trips that data and its expiry is not in the past. */
  lemma GenerateThenValidate(serialize: LicenseData -> seq<Base64.Byte>, parse: seq<Base64.Byte> -> Option<LicenseData>,
                             d: LicenseData, now: int)
    requires parse(serialize(d)) == Some(d)
    requires !Expired(d, now)
    ensures ValidateLicenseKey(parse, GenerateLicenseKey(serialize, d.username, d.expiresAt, d.seats, d.features, d.issuedAt), now) == Valid(d)
  {
  }

  /** The expiry test is strict: a licence expiring at this very millisecond is
      still accepted, and one millisecond later it is refused. */
  lemma ExpiryBoundary(serialize: LicenseData -> seq<Base64.Byte>, parse: seq<Base64.Byte> -> Option<LicenseData>,
                       d: LicenseData, t: int)
    requires parse(serialize(d)) == Some(d) && d.expiresAt == Some(t)
    ensures var key := GenerateLicenseKey(serialize, d.username, d.expiresAt, d.seats, d.features, d.issuedAt);
      ValidateLicenseKey(parse, key, t) == Valid(d) && ValidateLicenseKey(parse, key, t + 1) == Invalid("License expired")
  {
  }

  /** A licence whose expiry does not read as a date never expires. */
  lemma UnreadableExpiryNeverExpires(parse: seq<Base64.Byte> -> Option<LicenseData>, key: string, now: int, later: int)
    requires ValidateLicenseKey(parse, key, now).Valid? && ValidateLicenseKey(parse, key, now).data.expiresAt.None?
    ensures ValidateLicenseKey(parse, key, later) == ValidateLicenseKey(parse, key, now)
  {
  }

  /** `checkOfflineGrace`: a missing (falsy) last check never grants grace; otherwise
      grace holds while at most 72 hours have passed since the last check. */
  function CheckOfflineGrace(lastCheckedAt: Option<int>, now: int): (ok: bool)
    ensures ok ==> lastCheckedAt.Some? && lastCheckedAt.value != 0
    ensures lastCheckedAt.Some? && lastCheckedAt.value != 0 ==> (ok <==> now - lastCheckedAt.value <= OfflineGracePeriod)
  {
    match lastCheckedAt
    case None => false
    case Some(t) => t != 0 && now - t <= OfflineGracePeriod
  }

  /** Grace, once lost, is not regained by waiting, and it runs out exactly 72 hours
      after the last check. */
  lemma GraceRunsOut(t: int, now: int, later: int)
    requires t != 0 && now <= later
    ensures CheckOfflineGrace(Some(t), later) ==> CheckOfflineGrace(Some(t), now)
    ensures CheckOfflineGrace(Some(t), t + OfflineGracePeriod) && !CheckOfflineGrace(Some(t), t + OfflineGracePeriod + 1)
  {
  }
}
