/**
 * The mock authentication routes: an in-memory store of users keyed by
 * id, sign-up with the server's own password rules and a uniqueness check
 * on email and username, and sign-in by email and password. Both hand out
 * the access and refresh tokens of `AuthTokens`.
 *
 * Request fields are optional strings: a missing field and an empty one
 * are both falsy. Timestamps are the millisecond clock reading `now`,
 * passed in; their ISO rendering is not modelled.
 */
module AuthRoutes {
  import opened Common
  import opened AuthTokens
  import RegisterPage

  /** Seven days, in seconds. */
  const ExpiresIn: nat := 604800

  datatype RegisterRequest = RegisterRequest(
    email: Option<string>, password: Option<string>, username: Option<string>, displayName: Option<string>)

  datatype LoginRequest = LoginRequest(email: Option<string>, password: Option<string>)

  /** A stored record: the public user fields and the password, kept in clear text. */
  datatype StoredUser = StoredUser(
    id: string, email: string, username: string, displayName: string,
    status: string, isVerified: bool, createdAt: nat, updatedAt: nat, password: string)

  /** The user as sent to the client: everything but the password. */
  datatype PublicUser = PublicUser(
    id: string, email: string, username: string, displayName: string,
    status: string, isVerified: bool, createdAt: nat, updatedAt: nat)

  datatype Body =
    | ErrorBody(error: string, message: string)
    | AuthBody(user: PublicUser, accessToken: string, refreshToken: string, expiresIn: nat)

  datatype Response = Response(status: nat, body: Body)

  function Public(u: StoredUser): (p: PublicUser)
    ensures p.id == u.id && p.email == u.email && p.username == u.username && p.displayName == u.displayName
    ensures p.status == u.status && p.isVerified == u.isVerified
  {
    PublicUser(u.id, u.email, u.username, u.displayName, u.status, u.isVerified, u.createdAt, u.updatedAt)
  }

  /** The success body: the user, a fresh pair of tokens naming them, and the lifetime. */
  function Authenticated(status: nat, u: StoredUser): (r: Response)
    ensures r.status == status && r.body.AuthBody? && r.body.user == Public(u) && r.body.expiresIn == ExpiresIn
    ensures ReadToken(r.body.accessToken) == Some(Claims(u.id, AccessKind))
    ensures ReadToken(r.body.refreshToken) == Some(Claims(u.id, RefreshKind))
  {
    var tokens := GenerateTokens(u.id);
    Response(status, AuthBody(Public(u), tokens.accessToken, tokens.refreshToken, ExpiresIn))
  }

  /* ---------------- the store ---------------- */

  function Ids(users: seq<StoredUser>): (r: seq<string>)
    ensures |r| == |users|
    ensures forall i :: 0 <= i < |users| ==> r[i] == users[i].id
  {
    seq(|users|, i requires 0 <= i < |users| => users[i].id)
  }

  /** What the `Map` keyed by id guarantees, and what sign-up keeps: no id, email or username twice. */
  predicate WellFormed(users: seq<StoredUser>) {
    forall i, j :: 0 <= i < j < |users| ==>
      users[i].id != users[j].id && users[i].email != users[j].email && users[i].username != users[j].username
  }

  /**
   * `users.set(u.id, u)`: a record with the same id is replaced where it
   * stands; otherwise the record is added after the others, as a `Map`
   * keeps its keys in insertion order.
   */
  function Set(users: seq<StoredUser>, u: StoredUser): (r: seq<StoredUser>)
    ensures u in r
    ensures u.id !in Ids(users) ==> r == users + [u]
    ensures u.id in Ids(users) ==> |r| == |users|
    ensures forall i :: 0 <= i < |users| ==> r[i] == (if users[i].id == u.id then u else users[i])
  {
    if u.id in Ids(users) then
      var r := seq(|users|, i requires 0 <= i < |users| => if users[i].id == u.id then u else users[i]);
      var k :| 0 <= k < |users| && Ids(users)[k] == u.id;
      assert r[k] == u;
      r
    else users + [u]
  }

  /** `Array.from(users.values()).find(...)`: the first record matching the predicate. */
  function FindByEmail(users: seq<StoredUser>, email: string): (r: Option<StoredUser>)
    ensures r.Some? ==> r.value in users && r.value.email == email
    ensures r.None? <==> forall i :: 0 <= i < |users| ==> users[i].email != email
    ensures r.Some? ==>
      exists i :: 0 <= i < |users| && users[i] == r.value && forall j :: 0 <= j < i ==> users[j].email != email
  {
    if users == [] then None
    else if users[0].email == email then Some(users[0])
    else
      var r := FindByEmail(users[1..], email);
      assert forall i :: 1 <= i < |users| ==> users[i] == users[1..][i - 1];
      if r.Some? then
        var i :| 0 <= i < |users[1..]| && users[1..][i] == r.value && forall j :: 0 <= j < i ==> users[1..][j].email != email;
        assert users[i + 1] == r.value && forall j :: 0 <= j < i + 1 ==> users[j].email != email;
        r
      else r
  }

  /** Some stored user already has this email or this username. */
  predicate Taken(users: seq<StoredUser>, email: string, username: string) {
    exists i :: 0 <= i < |users| && (users[i].email == email || users[i].username == username)
  }

  /* ---------------- sign-up ---------------- */

  const MinPasswordLength: nat := 8

  /** Every field is present and non-empty. */
  predicate AllPresent(req: RegisterRequest) {
    Truthy(req.email) && Truthy(req.password) && Truthy(req.username) && Truthy(req.displayName)
  }

  /** The server's checks, in order: the message of the first one that fails. */
  function RegistrationError(req: RegisterRequest): (err: Option<string>)
    ensures err.None? ==> AllPresent(req)
    ensures err.None? ==> Utf16Length(req.password.value) >= MinPasswordLength
    ensures err.None? ==> HasUpper(req.password.value) && HasDigit(req.password.value) && HasSpecial(req.password.value)
    ensures (AllPresent(req) && Utf16Length(req.password.value) >= MinPasswordLength &&
             HasUpper(req.password.value) && HasDigit(req.password.value) && HasSpecial(req.password.value)) ==> err.None?
  {
    if !AllPresent(req) then
      Some("All fields are required")
    else if Utf16Length(req.password.value) < MinPasswordLength then
      Some("Password must be at least 8 characters")
    else if !HasUpper(req.password.value) then
      Some("Password must contain at least one uppercase letter")
    else if !HasDigit(req.password.value) then
      Some("Password must contain at least one number")
    else if !HasSpecial(req.password.value) then
      Some("Password must contain at least one special character")
    else
      None
  }

  /**
   * Each check's message is the one reported when that check is the
   * first to fail; a missing field is reported before anything about
   * the password.
   */
  lemma RegistrationMessagesInOrder(req: RegisterRequest)
    ensures !AllPresent(req) ==> RegistrationError(req) == Some("All fields are required")
    ensures AllPresent(req) && Utf16Length(req.password.value) < MinPasswordLength ==>
      RegistrationError(req) == Some("Password must be at least 8 characters")
    ensures AllPresent(req) && Utf16Length(req.password.value) >= MinPasswordLength && !HasUpper(req.password.value) ==>
      RegistrationError(req) == Some("Password must contain at least one uppercase letter")
    ensures (AllPresent(req) && Utf16Length(req.password.value) >= MinPasswordLength && HasUpper(req.password.value) &&
             !HasDigit(req.password.value)) ==>
      RegistrationError(req) == Some("Password must contain at least one number")
    ensures (AllPresent(req) && Utf16Length(req.password.value) >= MinPasswordLength && HasUpper(req.password.value) &&
             HasDigit(req.password.value) && !HasSpecial(req.password.value)) ==>
      RegistrationError(req) == Some("Password must contain at least one special character")
  {
  }

  /** The prefix of the id `user_${Date.now()}` sign-up gives a new user. */
  const UserIdPrefix := "user_"

  function NewId(now: nat): string {
    Stamped(UserIdPrefix, now)
  }

  /** The record sign-up stores: online, not verified, created and updated now. */
  function NewUser(req: RegisterRequest, now: nat): (u: StoredUser)
    requires RegistrationError(req).None?
    ensures u.id == NewId(now) && u.status == "online" && !u.isVerified
    ensures u.email == req.email.value && u.username == req.username.value
    ensures u.displayName == req.displayName.value && u.password == req.password.value
  {
    StoredUser(NewId(now), req.email.value, req.username.value, req.displayName.value,
               "online", false, now, now, req.password.value)
  }

  datatype Registered = Registered(response: Response, users: seq<StoredUser>)

  /** `handleRegister` on a store, as a value: the response and the store afterwards. */
  function Registration(users: seq<StoredUser>, req: RegisterRequest, now: nat): (r: Registered)
    ensures RegistrationError(req).Some? ==>
      r == Registered(Response(400, ErrorBody("Validation Error", RegistrationError(req).value)), users)
    ensures RegistrationError(req).None? && Taken(users, req.email.value, req.username.value) ==>
      r == Registered(Response(409, ErrorBody("Conflict", "Email or username already registered")), users)
    ensures r.response.status == 201 <==> RegistrationError(req).None? && !Taken(users, req.email.value, req.username.value)
    ensures r.response.status == 201 ==> r.users == Set(users, NewUser(req, now))
    ensures r.response.status == 201 ==> r.response == Authenticated(201, NewUser(req, now))
  {
    match RegistrationError(req)
    case Some(message) => Registered(Response(400, ErrorBody("Validation Error", message)), users)
    case None =>
      if Taken(users, req.email.value, req.username.value) then
        Registered(Response(409, ErrorBody("Conflict", "Email or username already registered")), users)
      else
        var u := NewUser(req, now);
        Registered(Authenticated(201, u), Set(users, u))
  }

  /* ---------------- sign-in ---------------- */

  /** `handleLogin`: the first user with the email, if the password matches. */
  function Login(users: seq<StoredUser>, req: LoginRequest): (r: Response)
    ensures !Truthy(req.email) || !Truthy(req.password) ==>
      r == Response(400, ErrorBody("Validation Error", "Email and password are required"))
    ensures r.status == 200 ==>
      && r.body.AuthBody?
      && (exists u :: u in users && u.email == req.email.value && u.password == req.password.value && r == Authenticated(200, u))
    ensures r.status == 200 ==>
      && Truthy(req.email) && Truthy(req.password)
      && FindByEmail(users, req.email.value).Some?
      && FindByEmail(users, req.email.value).value.password == req.password.value
      && r == Authenticated(200, FindByEmail(users, req.email.value).value)
    ensures r.status in {200, 400, 401}
  {
    if !Truthy(req.email) || !Truthy(req.password) then
      Response(400, ErrorBody("Validation Error", "Email and password are required"))
    else
      match FindByEmail(users, req.email.value)
      case None => Response(401, ErrorBody("Unauthorized", "Invalid email or password"))
      case Some(u) =>
        if u.password != req.password.value then Response(401, ErrorBody("Unauthorized", "Invalid email or password"))
        else Authenticated(200, u)
  }

  /* ---------------- the store as the server keeps it ---------------- */

  class UserStore {
    var users: seq<StoredUser>

    ghost predicate Valid()
      reads this
    {
      WellFormed(users)
    }

    constructor ()
      ensures Valid() && users == []
    {
      users := [];
    }

    /** `handleRegister`: answers the request and, on success, stores the new user. */
    method Register(req: RegisterRequest, now: nat) returns (res: Response)
      requires Valid()
      modifies this
      ensures Valid()
      ensures Registered(res, users) == Registration(old(users), req, now)
    {
      var err := RegistrationError(req);
      if err.Some? {
        return Response(400, ErrorBody("Validation Error", err.value));
      }
      var i := 0;
      while i < |users|
        invariant 0 <= i <= |users|
        invariant forall k :: 0 <= k < i ==> users[k].email != req.email.value && users[k].username != req.username.value
      {
        if users[i].email == req.email.value || users[i].username == req.username.value {
          return Response(409, ErrorBody("Conflict", "Email or username already registered"));
        }
        i := i + 1;
      }
      var u := NewUser(req, now);
      RegistrationKeepsStoreWellFormed(users, req, now);
      users := Set(users, u);
      res := Authenticated(201, u);
    }
  }

  /* ---------------- properties ---------------- */

  /** Sign-up keeps ids, emails and usernames unique. */
  lemma RegistrationKeepsStoreWellFormed(users: seq<StoredUser>, req: RegisterRequest, now: nat)
    requires WellFormed(users)
    ensures WellFormed(Registration(users, req, now).users)
  {
    var r := Registration(users, req, now);
    if r.response.status == 201 {
      var u := NewUser(req, now);
      var s := Set(users, u);
      forall i, j | 0 <= i < j < |s|
        ensures s[i].id != s[j].id && s[i].email != s[j].email && s[i].username != s[j].username
      {
        if j == |users| {
          assert s[i] == users[i] && s[j] == u;
          assert !(users[i].email == u.email || users[i].username == u.username);
        } else if s[i] == u {
          assert users[j].id != u.id;
          assert !(users[j].email == u.email || users[j].username == u.username);
        } else if s[j] == u {
          assert users[i].id != u.id;
          assert !(users[i].email == u.email || users[i].username == u.username);
        }
      }
    }
  }

  /** A successful sign-up adds exactly one user and keeps the others in order, unless its id is already in use. */
  lemma RegistrationAddsOneUser(users: seq<StoredUser>, req: RegisterRequest, now: nat)
    requires Registration(users, req, now).response.status == 201
    requires NewId(now) !in Ids(users)
    ensures Registration(users, req, now).users == users + [NewUser(req, now)]
  {
  }

  /** With unique emails, looking up a stored user's email finds that user. */
  lemma FindsStoredUser(users: seq<StoredUser>, k: nat)
    requires WellFormed(users) && k < |users|
    ensures FindByEmail(users, users[k].email) == Some(users[k])
  {
    var f := FindByEmail(users, users[k].email).value;
    var m :| 0 <= m < |users| && users[m] == f;
    assert m == k;
  }

  /** After signing up, the same email and password sign in, as the same user. */
  lemma SignInAfterSignUp(users: seq<StoredUser>, req: RegisterRequest, now: nat)
    requires WellFormed(users)
    requires Registration(users, req, now).response.status == 201
    ensures Login(Registration(users, req, now).users, LoginRequest(req.email, req.password)) == Authenticated(200, NewUser(req, now))
  {
    var u := NewUser(req, now);
    var s := Registration(users, req, now).users;
    assert s == Set(users, u);
    RegistrationKeepsStoreWellFormed(users, req, now);
    var k :| 0 <= k < |s| && s[k] == u;
    FindsStoredUser(s, k);
  }

  /** Signing up twice with the same details is refused the second time, and the store stays as it was. */
  lemma SecondSignUpConflicts(users: seq<StoredUser>, req: RegisterRequest, now: nat, later: nat)
    requires Registration(users, req, now).response.status == 201
    ensures var s := Registration(users, req, now).users;
      Registration(s, req, later) == Registered(Response(409, ErrorBody("Conflict", "Email or username already registered")), s)
  {
    var s := Registration(users, req, now).users;
    var u := NewUser(req, now);
    var k :| 0 <= k < |s| && s[k] == u;
    assert Taken(s, req.email.value, req.username.value);
  }

  /** An unknown email and a wrong password get the very same answer. */
  lemma FailedSignInsLookAlike(users: seq<StoredUser>, unknown: LoginRequest, wrong: LoginRequest)
    requires Truthy(unknown.email) && Truthy(unknown.password) && Truthy(wrong.email) && Truthy(wrong.password)
    requires forall u :: u in users ==> u.email != unknown.email.value
    requires forall u :: u in users && u.email == wrong.email.value ==> u.password != wrong.password.value
    ensures Login(users, unknown) == Login(users, wrong) == Response(401, ErrorBody("Unauthorized", "Invalid email or password"))
  {
    assert FindByEmail(users, unknown.email.value).None?;
  }

  /** With unique emails, sign-in succeeds exactly when a stored user has that email and that password. */
  lemma SignInExactlyWithMatchingPassword(users: seq<StoredUser>, req: LoginRequest)
    requires WellFormed(users)
    requires Truthy(req.email) && Truthy(req.password)
    ensures Login(users, req).status == 200 <==>
      exists i :: 0 <= i < |users| && users[i].email == req.email.value && users[i].password == req.password.value
  {
    var f := FindByEmail(users, req.email.value);
    if f.Some? {
      var m :| 0 <= m < |users| && users[m] == f.value;
      forall i | 0 <= i < |users| && users[i].email == req.email.value
        ensures i == m
      {
      }
    }
  }

  /**
   * Two sign-ups in the same millisecond get the same id, and the second
   * record takes the place of the first in the store.
   */
  lemma SameMillisecondReplacesEarlierUser(users: seq<StoredUser>, first: RegisterRequest, second: RegisterRequest, now: nat)
    requires Registration(users, first, now).response.status == 201
    requires Registration(Registration(users, first, now).users, second, now).response.status == 201
    ensures var s := Registration(Registration(users, first, now).users, second, now).users;
      NewUser(second, now) in s && NewUser(first, now) !in s
  {
    var s1 := Registration(users, first, now).users;
    var s := Registration(s1, second, now).users;
    var u1, u2 := NewUser(first, now), NewUser(second, now);
    var k :| 0 <= k < |s1| && s1[k] == u1;
    assert u2.id in Ids(s1) by { assert Ids(s1)[k] == u2.id; }
    assert u1 != u2 by { assert !Taken(s1, u2.email, u2.username); }
    forall i | 0 <= i < |s|
      ensures s[i] != u1
    {
      if s1[i].id != u2.id {
        assert s[i] == s1[i];
      }
    }
  }

  /** A form the sign-up page accepts passes every check of the server. */
  lemma AcceptedFormPassesServerChecks(f: RegisterPage.RegisterForm)
    requires RegisterPage.ValidateForm(f).None?
    ensures RegistrationError(RegisterRequest(Some(f.email), Some(f.password), Some(f.username), Some(f.displayName))).None?
  {
  }
}
