// The authentication context (src/context/AuthContext.jsx): a registry of
// accounts, a single session slot holding the signed-in user's public
// profile, and the last error message. Accounts are JavaScript objects built
// by spreading, so they are modelled as maps from keys to values; spreading
// `{...a, ...b}` is the map union `a + b`, whose right operand wins.
module Auth {
  import opened Optional
  import opened Text
  import Lists

  datatype Value = Str(s: string) | Num(r: real) | Bool(b: bool) | List(items: seq<Value>)

  type Record = map<string, Value>

  const AllFieldsRequired: string := "All fields are required"
  const InvalidEmailFormat: string := "Invalid email format"
  const PasswordTooShort: string := "Password must be at least 6 characters"
  const PasswordsDoNotMatch: string := "Passwords do not match"
  const EmailAlreadyRegistered: string := "Email already registered"
  const InvalidCredentials: string := "Invalid email, password, or role"

  const MinPasswordLength: nat := 6

  /** The keys that registration itself writes into an account. */
  const AccountKeys: set<string> := {"id", "name", "email", "phone", "password", "role", "createdAt"}

  const Roles: set<string> := {"student", "employer", "officer", "admin"}

  function StudentProfile(): (p: Record)
    ensures p.Keys !! AccountKeys && "avatar" in p
  {
    map[
      "roll" := Str("MCS-2023-001"),
      "avatar" := Str("https://via.placeholder.com/150/10b981/ffffff?text=Student"),
      "department" := Str("Computer Science"),
      "gpa" := Num(3.8),
      "skills" := List([Str("React"), Str("Node.js"), Str("Python"), Str("MongoDB")]),
      "applications" := Num(0.0),
      "applied" := Bool(false)]
  }

  function EmployerProfile(): (p: Record)
    ensures p.Keys !! AccountKeys && "avatar" in p
  {
    map[
      "company" := Str("Tech Solutions"),
      "avatar" := Str("https://via.placeholder.com/150/f59e0b/ffffff?text=Company"),
      "postedJobs" := Num(0.0),
      "activeApplications" := Num(0.0),
      "hires" := Num(0.0)]
  }

  function OfficerProfile(): (p: Record)
    ensures p.Keys !! AccountKeys && "avatar" in p
  {
    map[
      "avatar" := Str("https://via.placeholder.com/150/ef4444/ffffff?text=Officer"),
      "department" := Str("Placements"),
      "totalStudents" := Num(450.0),
      "placedStudents" := Num(0.0),
      "avgPackage" := Num(0.0)]
  }

  function AdminProfile(): (p: Record)
    ensures p.Keys !! AccountKeys && "avatar" in p
  {
    map[
      "avatar" := Str("https://via.placeholder.com/150/2563eb/ffffff?text=Admin"),
      "permissions" := List([Str("manage_users"), Str("manage_jobs"),
                             Str("manage_applications"), Str("view_reports")])]
  }

  /**
   * `getUserProfile(email, role)`: the per-role default attributes; `{}` for
   * any other role. They never touch the keys registration sets, so spreading
   * them into an account cannot override its identity.
   */
  function UserProfile(email: string, role: string): (p: Record)
    ensures p.Keys !! AccountKeys
    ensures "avatar" in p <==> role in Roles
    ensures role !in Roles ==> p == map[]
  {
    if role == "student" then StudentProfile()
    else if role == "employer" then EmployerProfile()
    else if role == "officer" then OfficerProfile()
    else if role == "admin" then AdminProfile()
    else map[]
  }

  /** One part of the address: at least one character, none of them whitespace or '@'. */
  predicate EmailPart(x: string)
  {
    |x| > 0 && forall j :: 0 <= j < |x| ==> !IsSpace(x[j]) && x[j] != '@'
  }

  /**
   * The pattern `^[^\s@]+@[^\s@]+\.[^\s@]+$`, read literally: s splits at an
   * '@' (position i) and a later '.' (position k) into three parts, none empty
   * and none holding whitespace or '@'.
   */
  ghost predicate MatchesEmailPattern(s: string)
  {
    exists i, k :: 0 <= i < k < |s| && s[i] == '@' && s[k] == '.' &&
      EmailPart(s[..i]) && EmailPart(s[i + 1..k]) && EmailPart(s[k + 1..])
  }

  /** The test run on the address: no whitespace, one '@' not at the start, and a '.' inside the domain. */
  predicate EmailFormatOk(s: string)
  {
    && (forall j | 0 <= j < |s| :: !IsSpace(s[j]))
    && '@' in s
    && var i := Lists.IndexOf(s, '@');
    && 0 < i
    && '@' !in s[i + 1..]
    && exists k | i + 1 < k < |s| - 1 :: s[k] == '.'
  }

  lemma EmailFormatOkMatches(s: string)
    requires EmailFormatOk(s)
    ensures MatchesEmailPattern(s)
  {
    var i := Lists.IndexOf(s, '@');
    var k :| i + 1 < k < |s| - 1 && s[k] == '.';
    forall j | i + 1 <= j < |s|
      ensures s[j] != '@'
    {
      assert s[j] == s[i + 1..][j - i - 1];
    }
    assert EmailPart(s[..i]);
    assert EmailPart(s[i + 1..k]);
    assert EmailPart(s[k + 1..]);
  }

  lemma MatchesEmailFormatOk(s: string)
    requires MatchesEmailPattern(s)
    ensures EmailFormatOk(s)
  {
    var i, k :| 0 <= i < k < |s| && s[i] == '@' && s[k] == '.' &&
      EmailPart(s[..i]) && EmailPart(s[i + 1..k]) && EmailPart(s[k + 1..]);
    PartsHaveNoSpaceOrAt(s, i, k);
    Lists.IndexOfFirst(s, '@', i);
    var tail := s[i + 1..];
    forall j | 0 <= j < |tail|
      ensures tail[j] != '@'
    {
      assert tail[j] == s[i + 1 + j];
    }
  }

  /** Three parts around an '@' and a '.' leave no whitespace anywhere and no other '@'. */
  lemma PartsHaveNoSpaceOrAt(s: string, i: int, k: int)
    requires 0 <= i < k < |s| && s[i] == '@' && s[k] == '.'
    requires EmailPart(s[..i]) && EmailPart(s[i + 1..k]) && EmailPart(s[k + 1..])
    ensures forall j :: 0 <= j < |s| ==> !IsSpace(s[j]) && (j != i ==> s[j] != '@')
  {
    forall j | 0 <= j < |s|
      ensures !IsSpace(s[j]) && (j != i ==> s[j] != '@')
    {
      if j < i {
        assert s[..i][j] == s[j];
      } else if i < j < k {
        assert s[i + 1..k][j - i - 1] == s[j];
      } else if k < j {
        assert s[k + 1..][j - k - 1] == s[j];
      }
    }
  }

  /** The test accepts exactly the addresses the pattern matches. */
  lemma EmailFormatOkIsPattern(s: string)
    ensures EmailFormatOk(s) <==> MatchesEmailPattern(s)
  {
    if EmailFormatOk(s) {
      EmailFormatOkMatches(s);
    }
    if MatchesEmailPattern(s) {
      MatchesEmailFormatOk(s);
    }
  }

  /** The value of key k is the string v. */
  predicate HasField(r: Record, k: string, v: string)
  {
    k in r && r[k] == Str(v)
  }

  /** `registeredUsers.some(u => u.email === email)`. */
  predicate EmailTaken(registry: seq<Record>, email: string)
  {
    exists r | r in registry :: HasField(r, "email", email)
  }

  predicate AnyEmpty(email: string, password: string, confirmPassword: string,
                     role: string, fullName: string, phone: string)
  {
    email == "" || password == "" || confirmPassword == "" || role == "" || fullName == "" || phone == ""
  }

  /** The message of the first validation check that fails, or None when registration may proceed. */
  function RegisterError(registry: seq<Record>, email: string, password: string, confirmPassword: string,
                         role: string, fullName: string, phone: string): (r: Option<string>)
    ensures r.None? <==> (!AnyEmpty(email, password, confirmPassword, role, fullName, phone) &&
                          EmailFormatOk(email) && |password| >= MinPasswordLength &&
                          password == confirmPassword && !EmailTaken(registry, email))
    ensures r.Some? ==> r.value in {AllFieldsRequired, InvalidEmailFormat, PasswordTooShort,
                                    PasswordsDoNotMatch, EmailAlreadyRegistered}
  {
    if AnyEmpty(email, password, confirmPassword, role, fullName, phone) then Some(AllFieldsRequired)
    else if !EmailFormatOk(email) then Some(InvalidEmailFormat)
    else if |password| < MinPasswordLength then Some(PasswordTooShort)
    else if password != confirmPassword then Some(PasswordsDoNotMatch)
    else if EmailTaken(registry, email) then Some(EmailAlreadyRegistered)
    else None
  }

  /**
   * The checks run in a fixed order and the first failure decides the
   * message: each message is returned exactly when every earlier check passed
   * and its own failed.
   */
  lemma RegisterFirstFailureWins(registry: seq<Record>, email: string, password: string,
                                 confirmPassword: string, role: string, fullName: string, phone: string)
    ensures var e := RegisterError(registry, email, password, confirmPassword, role, fullName, phone);
      var filled := !AnyEmpty(email, password, confirmPassword, role, fullName, phone);
      && (e == Some(AllFieldsRequired) <==> !filled)
      && (e == Some(InvalidEmailFormat) <==> filled && !MatchesEmailPattern(email))
      && (e == Some(PasswordTooShort) <==>
            filled && MatchesEmailPattern(email) && |password| < MinPasswordLength)
      && (e == Some(PasswordsDoNotMatch) <==>
            filled && MatchesEmailPattern(email) && |password| >= MinPasswordLength &&
            password != confirmPassword)
      && (e == Some(EmailAlreadyRegistered) <==>
            filled && MatchesEmailPattern(email) && |password| >= MinPasswordLength &&
            password == confirmPassword && EmailTaken(registry, email))
      && (e == None <==>
            filled && MatchesEmailPattern(email) && |password| >= MinPasswordLength &&
            password == confirmPassword && !EmailTaken(registry, email))
  {
    EmailFormatOkIsPattern(email);
  }

  /** The object registration stores: the given fields, the role's defaults, then the creation time. */
  function NewAccount(id: string, fullName: string, email: string, phone: string, password: string,
                      role: string, now: string): (r: Record)
    ensures r.Keys == AccountKeys + UserProfile(email, role).Keys
    ensures HasField(r, "id", id) && HasField(r, "name", fullName) && HasField(r, "email", email)
    ensures HasField(r, "phone", phone) && HasField(r, "password", password) && HasField(r, "role", role)
    ensures HasField(r, "createdAt", now)
    ensures forall k :: k in UserProfile(email, role) ==> r[k] == UserProfile(email, role)[k]
  {
    Assemble(GivenFields(id, fullName, email, phone, password, role), UserProfile(email, role), now)
  }

  /** `{ ...given, ...profile, createdAt }` when the profile cannot touch an account key. */
  function Assemble(given: Record, profile: Record, now: string): (r: Record)
    requires given.Keys == AccountKeys - {"createdAt"} && profile.Keys !! AccountKeys
    ensures r.Keys == AccountKeys + profile.Keys
    ensures forall k :: k in given ==> r[k] == given[k]
    ensures forall k :: k in profile ==> r[k] == profile[k]
    ensures HasField(r, "createdAt", now)
  {
    assert "createdAt" in AccountKeys;
    given + profile + map["createdAt" := Str(now)]
  }

  /** The six fields registration copies from its arguments. */
  function GivenFields(id: string, fullName: string, email: string, phone: string, password: string,
                       role: string): (r: Record)
    ensures r.Keys == AccountKeys - {"createdAt"}
    ensures HasField(r, "id", id) && HasField(r, "name", fullName) && HasField(r, "email", email)
    ensures HasField(r, "phone", phone) && HasField(r, "password", password) && HasField(r, "role", role)
  {
    map["id" := Str(id), "name" := Str(fullName), "email" := Str(email), "phone" := Str(phone),
        "password" := Str(password), "role" := Str(role)]
  }

  /** No two accounts share an email address. */
  ghost predicate UniqueEmails(registry: seq<Record>)
  {
    forall i, j, e :: 0 <= i < j < |registry| && HasField(registry[i], "email", e) ==>
      !HasField(registry[j], "email", e)
  }

  /** A registration that passes validation keeps the email addresses unique. */
  lemma RegisterKeepsEmailsUnique(registry: seq<Record>, email: string, password: string,
                                  confirmPassword: string, role: string, fullName: string, phone: string,
                                  id: string, now: string)
    requires UniqueEmails(registry)
    requires RegisterError(registry, email, password, confirmPassword, role, fullName, phone) == None
    ensures UniqueEmails(registry + [NewAccount(id, fullName, email, phone, password, role, now)])
  {
    assert !EmailTaken(registry, email);
    AppendFreshEmail(registry, NewAccount(id, fullName, email, phone, password, role, now), email);
  }

  /** Appending an account whose email nobody holds keeps the emails unique. */
  lemma AppendFreshEmail(registry: seq<Record>, acc: Record, email: string)
    requires UniqueEmails(registry) && !EmailTaken(registry, email) && HasField(acc, "email", email)
    ensures UniqueEmails(registry + [acc])
  {
    var rs := registry + [acc];
    forall i, j, e | 0 <= i < j < |rs| && HasField(rs[i], "email", e)
      ensures !HasField(rs[j], "email", e)
    {
      if j == |registry| {
        assert rs[i] in registry;
      }
    }
  }

  /** The record matches the three login fields exactly. */
  predicate Matches(r: Record, email: string, password: string, role: string)
  {
    HasField(r, "email", email) && HasField(r, "password", password) && HasField(r, "role", role)
  }

  function LoginMatch(email: string, password: string, role: string): Record -> bool
  {
    a => Matches(a, email, password, role)
  }

  /** `registeredUsers.find(...)`: the first account matching email, password and role. */
  function FindAccount(registry: seq<Record>, email: string, password: string, role: string): (r: Option<Record>)
    ensures r.None? <==> forall a :: a in registry ==> !Matches(a, email, password, role)
    ensures r.Some? ==> exists i :: (0 <= i < |registry| && registry[i] == r.value &&
      Matches(r.value, email, password, role) &&
      forall j :: 0 <= j < i ==> !Matches(registry[j], email, password, role))
  {
    Lists.Find(registry, LoginMatch(email, password, role))
  }

  /** `const { password: _, ...userData } = foundUser`: the account without its password. */
  function PublicView(a: Record): (r: Record)
    ensures "password" !in r
    ensures r.Keys == a.Keys - {"password"}
    ensures forall k :: k in r ==> r[k] == a[k]
  {
    a - {"password"}
  }

  /** `{...base, ...patch}`: patch's keys override, every other key of base is kept. */
  function Merge(base: Record, patch: Record): (r: Record)
    ensures r.Keys == base.Keys + patch.Keys
    ensures forall k :: k in patch ==> r[k] == patch[k]
    ensures forall k :: k in base && k !in patch ==> r[k] == base[k]
  {
    base + patch
  }

  /** The session view of a new account: no password, the identity fields and the role's defaults. */
  lemma NewAccountPublicView(id: string, fullName: string, email: string, phone: string, password: string,
                             role: string, now: string)
    ensures var v := PublicView(NewAccount(id, fullName, email, phone, password, role, now));
      && "password" !in v
      && HasField(v, "name", fullName) && HasField(v, "email", email) && HasField(v, "role", role)
      && forall k :: k in UserProfile(email, role) ==> k in v && v[k] == UserProfile(email, role)[k]
  {
    var acc := NewAccount(id, fullName, email, phone, password, role, now);
    assert forall k :: k in UserProfile(email, role) ==> k != "password";
  }

  /**
   * Registration succeeds only for an email nobody holds yet; after it,
   * logging in with the same email, password and role finds the new account,
   * whatever was registered before.
   */
  lemma RegisterThenLogin(registry: seq<Record>, email: string, password: string, role: string,
                          fullName: string, phone: string, id: string, now: string)
    requires !EmailTaken(registry, email)
    ensures var acc := NewAccount(id, fullName, email, phone, password, role, now);
      FindAccount(registry + [acc], email, password, role) == Some(acc)
  {
    var acc := NewAccount(id, fullName, email, phone, password, role, now);
    forall x | x in registry
      ensures !LoginMatch(email, password, role)(x)
    {
      assert !HasField(x, "email", email);
    }
    assert LoginMatch(email, password, role)(acc);
    Lists.FindAppend(registry, LoginMatch(email, password, role), acc);
  }

  /** Registration, login and the session, as the context's state slots. */
  class AuthService {
    var registeredUsers: seq<Record>
    var user: Option<Record>
    var error: Option<string>

    /** The registry starts from what was saved; nobody is signed in. */
    constructor(saved: seq<Record>)
      ensures registeredUsers == saved && user == None && error == None
    {
      registeredUsers := saved;
      user := None;
      error := None;
    }

    /**
     * `register`: the first failing check sets its message and leaves the
     * registry alone; otherwise the new account is appended and returned.
     * The session is never touched.
     */
    method Register(email: string, password: string, confirmPassword: string, role: string,
                    fullName: string, phone: string, id: string, now: string)
      returns (result: Option<Record>)
      modifies this
      ensures user == old(user)
      ensures var e := RegisterError(old(registeredUsers), email, password, confirmPassword,
                                     role, fullName, phone);
        e.Some? ==> error == e && result == None && registeredUsers == old(registeredUsers)
      ensures var e := RegisterError(old(registeredUsers), email, password, confirmPassword,
                                     role, fullName, phone);
        var acc := NewAccount(id, fullName, email, phone, password, role, now);
        e.None? ==> error == None && result == Some(acc) && registeredUsers == old(registeredUsers) + [acc]
      ensures UniqueEmails(old(registeredUsers)) ==> UniqueEmails(registeredUsers)
    {
      error := None;
      if AnyEmpty(email, password, confirmPassword, role, fullName, phone) {
        error := Some(AllFieldsRequired);
        return None;
      }
      if !EmailFormatOk(email) {
        error := Some(InvalidEmailFormat);
        return None;
      }
      if |password| < MinPasswordLength {
        error := Some(PasswordTooShort);
        return None;
      }
      if password != confirmPassword {
        error := Some(PasswordsDoNotMatch);
        return None;
      }
      if EmailTaken(registeredUsers, email) {
        error := Some(EmailAlreadyRegistered);
        return None;
      }
      var acc := NewAccount(id, fullName, email, phone, password, role, now);
      if UniqueEmails(registeredUsers) {
        AppendFreshEmail(registeredUsers, acc, email);
      }
      registeredUsers := registeredUsers + [acc];
      result := Some(acc);
    }

    /**
     * `login`: on a match the account's public view becomes the session and
     * is returned; otherwise the generic message is set and the session is
     * left as it was.
     */
    method Login(email: string, password: string, role: string) returns (result: Option<Record>)
      modifies this
      ensures registeredUsers == old(registeredUsers)
      ensures match FindAccount(old(registeredUsers), email, password, role)
        case Some(a) => result == Some(PublicView(a)) && user == result && error == None
        case None => result == None && user == old(user) && error == Some(InvalidCredentials)
    {
      error := None;
      var found := FindAccount(registeredUsers, email, password, role);
      if found.Some? {
        var userData := PublicView(found.value);
        user := Some(userData);
        result := Some(userData);
      } else {
        error := Some(InvalidCredentials);
        result := None;
      }
    }

    /** `logout`: the session is cleared. */
    method Logout()
      modifies this
      ensures user == None
      ensures registeredUsers == old(registeredUsers) && error == old(error)
    {
      user := None;
    }

    /**
     * `updateProfile`: the session becomes the current user with the given
     * keys overridden; with nobody signed in, spreading `null` gives `{}`, so
     * the session becomes the given keys alone.
     */
    method UpdateProfile(updatedData: Record)
      modifies this
      ensures user == Some(Merge(if old(user).Some? then old(user).value else map[], updatedData))
      ensures registeredUsers == old(registeredUsers) && error == old(error)
    {
      var current := if user.Some? then user.value else map[];
      user := Some(Merge(current, updatedData));
    }
  }
}
