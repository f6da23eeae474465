/** The login window: the field check, the built-in account table, the licence
    prefix check and what is written to local storage on success.

    The simulated network delay is not modelled; "now" is milliseconds since the
    epoch, and local storage is the two entries the window writes. */
module Login {
  import opened Wrappers
  import opened Text
  import Admin

  /** The licence data the mock validation hands back. */
  datatype LicenseData = LicenseData(username: string, expiresAt: int, seats: nat, features: seq<string>)

  datatype Account = Account(password: string, role: string)

  datatype SessionUser = SessionUser(username: string, role: string)

  datatype Session = Session(user: SessionUser, license: LicenseData)

  /** `rememberedCredentials` and `currentUser` of local storage. */
  datatype Remembered = Remembered(username: string, licenseKey: string)

  datatype CurrentUser = CurrentUser(username: string, role: string, licenseKey: string)

  datatype Storage = Storage(remembered: Option<Remembered>, currentUser: Option<CurrentUser>)

  /** Thirty days in milliseconds. */
  const ThirtyDays: int := 30 * 24 * 60 * 60 * 1000

  /** The accounts `authenticateUser` knows. */
  function AccountOf(username: string): (a: Option<Account>)
    ensures a.Some? <==> username in {"admin", "operator", "demo"}
    ensures a.Some? ==> a.value.role == (if username == "admin" then "admin" else "operator")
  {
    if username == "admin" then Some(Account("admin123", "admin"))
    else if username == "operator" then Some(Account("operator123", "operator"))
    else if username == "demo" then Some(Account("demo123", "operator"))
    else None
  }

  /** `validateLicenseKey`: any key with the `SLS-` prefix is accepted with the
      demo licence data, valid thirty days from now. */
  function ValidateLicenseKey(key: string, now: int): (r: Result<LicenseData, string>)
    ensures r.Err? <==> !StartsWith(key, "SLS-")
    ensures r.Err? ==> r.error == "Invalid license format"
    ensures r.Ok? ==> r.value.expiresAt == now + ThirtyDays && r.value.username == "demo"
  {
    if !StartsWith(key, "SLS-") then Err("Invalid license format")
    else Ok(LicenseData("demo", now + ThirtyDays, 1, ["ocr", "mx", "export"]))
  }

  /** `authenticateUser`: the credentials first, then the licence. */
  function AuthenticateUser(username: string, password: string, key: string, now: int): (r: Result<Session, string>)
    ensures AccountOf(username).None? || AccountOf(username).value.password != password ==>
      r == Err("Invalid username or password")
    ensures AccountOf(username).Some? && AccountOf(username).value.password == password && !StartsWith(key, "SLS-") ==>
      r == Err("Invalid license format")
    ensures r.Ok? <==>
      AccountOf(username).Some? && AccountOf(username).value.password == password && StartsWith(key, "SLS-")
    ensures r.Ok? ==>
      r.value.user == SessionUser(username, AccountOf(username).value.role) && r.value.license.expiresAt == now + ThirtyDays
  {
    var account := AccountOf(username);
    if account.None? || account.value.password != password then Err("Invalid username or password")
    else
      match ValidateLicenseKey(key, now)
      case Err(e) => Err(e)
      case Ok(data) => Ok(Session(SessionUser(username, account.value.role), data))
  }

  /** `handleLogin` with the form's raw fields: the error it shows (None on
      success) and local storage afterwards. */
  function HandleLogin(usernameField: string, password: string, keyField: string, rememberMe: bool,
                       store: Storage, now: int): (r: (Option<string>, Storage))
    ensures Trim(usernameField) == "" || password == "" || Trim(keyField) == "" ==>
      r == (Some("Please fill in all fields"), store)
    ensures r.0.Some? ==> r.1 == store
    ensures var (u, k) := (Trim(usernameField), Trim(keyField));
      u != "" && password != "" && k != "" ==>
        match AuthenticateUser(u, password, k, now)
        case Ok(_) => r.0 == None
        case Err(e) => r.0 == Some(if e == "" then "Login failed" else e)
    ensures r.0.None? ==>
      var (u, k) := (Trim(usernameField), Trim(keyField));
      AuthenticateUser(u, password, k, now).Ok?
      && r.1.currentUser == Some(CurrentUser(u, AccountOf(u).value.role, k))
      && r.1.remembered == (if rememberMe then Some(Remembered(u, k)) else None)
  {
    var username := Trim(usernameField);
    var key := Trim(keyField);
    if username == "" || password == "" || key == "" then (Some("Please fill in all fields"), store)
    else
      match AuthenticateUser(username, password, key, now)
      case Err(e) => (Some(if e == "" then "Login failed" else e), store)
      case Ok(session) =>
        var remembered := if rememberMe then Some(Remembered(username, key)) else None;
        (None, Storage(remembered, Some(CurrentUser(session.user.username, session.user.role, key))))
  }

  /** Bad credentials are reported as such whatever the licence key. */
  lemma CredentialsComeFirst(username: string, password: string, key1: string, key2: string, now: int)
    requires AccountOf(username).None? || AccountOf(username).value.password != password
    ensures AuthenticateUser(username, password, key1, now) == AuthenticateUser(username, password, key2, now)
  {
  }

  /** What a successful login stores does not depend on the password: the
      password is never written to local storage. */
  lemma PasswordNeverStored(usernameField: string, p1: string, p2: string, keyField: string, rememberMe: bool,
                            store: Storage, now: int)
    requires HandleLogin(usernameField, p1, keyField, rememberMe, store, now).0.None?
    requires HandleLogin(usernameField, p2, keyField, rememberMe, store, now).0.None?
    ensures HandleLogin(usernameField, p1, keyField, rememberMe, store, now).1
         == HandleLogin(usernameField, p2, keyField, rememberMe, store, now).1
  {
  }

  /** Every key the administration panel generates passes the login's licence check. */
  lemma GeneratedKeysAccepted(pick: nat -> nat, now: int)
    ensures ValidateLicenseKey(Admin.KeyText(pick), now).Ok?
  {
    Admin.KeyShape(pick);
  }
}
