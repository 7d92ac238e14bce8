/**
 * `POST /api/login` (`frontend/app/api/login/route.ts`): input checks, a
 * lookup by trimmed username, one uniform 401 for an unknown name and a
 * wrong password, and on success a `LOGIN` audit row and the `userId`
 * session cookie.
 *
 * bcrypt's comparison is the parameter `matches(password, hash)`;
 * `production` stands for `NODE_ENV === 'production'`.
 */
module LoginRoute {
  import opened Wrappers
  import opened Strings
  import opened JsValues
  import opened Store

  const INVALID_USERNAME := "Invalid username format"
  const INVALID_PASSWORD := "Invalid password format"
  const INVALID_CREDENTIALS := "Invalid username or password"
  const LOGIN_ERROR := "Internal server error during login"
  /** One week, in seconds. */
  const SESSION_MAX_AGE := 60 * 60 * 24 * 7

  /** The cookie the handler sets. */
  datatype Cookie = Cookie(name: string, value: string, httpOnly: bool, secure: bool, sameSite: string, path: string, maxAge: int)

  /** The reply, the database afterwards, and the cookie set, if any. */
  datatype LoginResult = LoginResult(response: Response, db: Db, cookie: Option<Cookie>)

  function SessionCookie(id: int, production: bool): Cookie {
    Cookie("userId", IntToString(id), true, production, "strict", "/", SESSION_MAX_AGE)
  }

  function LoginSucceeded(id: int): Response {
    Response(200, map["success" := Bool(true), "userId" := Num(id), "message" := Str("Login successful")])
  }

  /** Line 13: the username check. */
  predicate UsernameAccepted(username: JsValue) {
    Truthy(username) && username.Str? && Utf16Length(Trim(username.s)) >= 3
  }

  /** Line 20: the password check. */
  predicate PasswordAccepted(password: JsValue) {
    Truthy(password) && password.Str? && Utf16Length(password.s) >= 8
  }

  /**
   * Lines 27-75, once both fields passed their format checks: the lookup by
   * `name`, the password check and the success path. The audit write is the
   * first write of `faults`.
   */
  function Authenticate(db: Db, name: string, password: string, matches: (string, string) -> bool, production: bool, faults: DbFaults): LoginResult {
    if faults.lookupThrows then LoginResult(Failure(500, LOGIN_ERROR), db, None)
    else match FindByUsername(db.accounts, name)
      case None => LoginResult(Failure(401, INVALID_CREDENTIALS), db, None)
      case Some(user) =>
        if !matches(password, user.passwordHash) then LoginResult(Failure(401, INVALID_CREDENTIALS), db, None)
        else if faults.firstWriteThrows then LoginResult(Failure(500, LOGIN_ERROR), db, None)
        else LoginResult(LoginSucceeded(user.id),
                         AppendLog(db, EventLog(user.id, "LOGIN", Text("User logged in successfully"))),
                         Some(SessionCookie(user.id, production)))
  }

  /** The handler, lines 8-85. */
  function Login(db: Db, body: Payload, matches: (string, string) -> bool, production: bool, faults: DbFaults): LoginResult {
    match body
    case Unparseable => LoginResult(Failure(500, LOGIN_ERROR), db, None)
    case Parsed(data) =>
      if data.Null? || data.Undefined? then LoginResult(Failure(500, LOGIN_ERROR), db, None)
      else
        var username, password := Prop(data, "username"), Prop(data, "password");
        if !UsernameAccepted(username) then LoginResult(Failure(400, INVALID_USERNAME), db, None)
        else if !PasswordAccepted(password) then LoginResult(Failure(400, INVALID_PASSWORD), db, None)
        else Authenticate(db, Trim(username.s), password.s, matches, production, faults)
  }

  /** The input the credentials check sees: the body passed both format checks. */
  predicate WellFormedCredentials(data: JsValue) {
    !data.Null? && !data.Undefined? && UsernameAccepted(Prop(data, "username")) && PasswordAccepted(Prop(data, "password"))
  }

  /** The first failing format check decides the 400, username before password. */
  lemma FormatChecks(db: Db, data: JsValue, matches: (string, string) -> bool, production: bool, faults: DbFaults)
    requires !data.Null? && !data.Undefined?
    ensures !UsernameAccepted(Prop(data, "username")) ==>
      Login(db, Parsed(data), matches, production, faults) == LoginResult(Failure(400, INVALID_USERNAME), db, None)
    ensures UsernameAccepted(Prop(data, "username")) && !PasswordAccepted(Prop(data, "password")) ==>
      Login(db, Parsed(data), matches, production, faults) == LoginResult(Failure(400, INVALID_PASSWORD), db, None)
  {
  }

  /**
   * An unknown username and a wrong password are indistinguishable to the
   * caller: both give the same 401 and leave no trace; and, given
   * well-formed credentials, those are the only ways to get a 401.
   */
  lemma UniformRejection(db: Db, data: JsValue, matches: (string, string) -> bool, production: bool, faults: DbFaults)
    requires WellFormedCredentials(data) && !faults.lookupThrows
    ensures var user := FindByUsername(db.accounts, Trim(Prop(data, "username").s));
      (user.None? || !matches(Prop(data, "password").s, user.value.passwordHash))
      <==> Login(db, Parsed(data), matches, production, faults) == LoginResult(Failure(401, INVALID_CREDENTIALS), db, None)
  {
    var name, password := Trim(Prop(data, "username").s), Prop(data, "password").s;
    var r := Authenticate(db, name, password, matches, production, faults);
    assert Login(db, Parsed(data), matches, production, faults) == r;
    match FindByUsername(db.accounts, name)
    case None =>
    case Some(user) =>
      if matches(password, user.passwordHash) {
        assert r.response.status != 401;
      }
  }

  /**
   * Surrounding whitespace in the username changes nothing: two bodies that
   * differ only in that respect get the same result, because the length
   * check and the lookup both use the trimmed name.
   */
  lemma UsernameIsTrimmed(db: Db, d1: JsValue, d2: JsValue, u: string, matches: (string, string) -> bool, production: bool, faults: DbFaults)
    requires d1.Obj? && d2.Obj?
    requires Prop(d1, "username") == Str(u) && Prop(d2, "username") == Str(Trim(u))
    requires Prop(d1, "password") == Prop(d2, "password")
    ensures Login(db, Parsed(d1), matches, production, faults) == Login(db, Parsed(d2), matches, production, faults)
  {
    TrimmedUsernameAccepted(u);
    LoginUnfolds(db, d1, matches, production, faults);
    LoginUnfolds(db, d2, matches, production, faults);
  }

  lemma TrimmedUsernameAccepted(u: string)
    ensures UsernameAccepted(Str(u)) <==> UsernameAccepted(Str(Trim(u)))
    ensures Trim(Trim(u)) == Trim(u)
  {
    TrimIdempotent(u);
    UsernameAcceptedIffLong(u);
    UsernameAcceptedIffLong(Trim(u));
  }

  /** A string username passes exactly when its trimmed form has at least three UTF-16 units. */
  lemma UsernameAcceptedIffLong(u: string)
    ensures UsernameAccepted(Str(u)) <==> Utf16Length(Trim(u)) >= 3
  {
    var t := Trim(u);
    Utf16LengthOfEmpty(t);
    assert |t| <= |u|;
  }

  /** A string password passes exactly when it is non-empty and has at least eight UTF-16 units. */
  lemma PasswordAcceptedIffLong(p: string)
    ensures PasswordAccepted(Str(p)) <==> p != "" && Utf16Length(p) >= 8
  {
  }

  /** Login on an object body: the two format checks, then the credentials. */
  lemma LoginUnfolds(db: Db, d: JsValue, matches: (string, string) -> bool, production: bool, faults: DbFaults)
    requires d.Obj?
    ensures Login(db, Parsed(d), matches, production, faults) ==
      if !UsernameAccepted(Prop(d, "username")) then LoginResult(Failure(400, INVALID_USERNAME), db, None)
      else if !PasswordAccepted(Prop(d, "password")) then LoginResult(Failure(400, INVALID_PASSWORD), db, None)
      else Authenticate(db, Trim(Prop(d, "username").s), Prop(d, "password").s, matches, production, faults)
  {
  }

  /**
   * Exactly the successful requests write one `LOGIN` row and set the
   * cookie; every failure writes nothing and sets no cookie. The cookie
   * holds the id in decimal, is HTTP-only, strict, site-wide and lasts a week.
   */
  lemma OnlySuccessLeavesATrace(db: Db, body: Payload, matches: (string, string) -> bool, production: bool, faults: DbFaults)
    ensures var r := Login(db, body, matches, production, faults);
      && (r.response.status == 200 <==> r.cookie.Some?)
      && (r.response.status != 200 ==> r.db == db && "success" in r.response.body && r.response.body["success"] == Bool(false))
      && (r.response.status == 200 ==>
            exists user :: user in db.accounts
              && r.db == db.(eventLogs := db.eventLogs + [EventLog(user.id, "LOGIN", Text("User logged in successfully"))])
              && r.cookie == Some(Cookie("userId", IntToString(user.id), true, production, "strict", "/", 604800))
              && "userId" in r.response.body && r.response.body["userId"] == Num(user.id))
  {
    if body.Parsed? && WellFormedCredentials(body.value) {
      var data := body.value;
      var name, password := Trim(Prop(data, "username").s), Prop(data, "password").s;
      assert Login(db, body, matches, production, faults) == Authenticate(db, name, password, matches, production, faults);
      AuthenticateTrace(db, name, password, matches, production, faults);
    } else {
      var r := Login(db, body, matches, production, faults);
      assert r.db == db && r.cookie.None? && r.response.status in {400, 500};
    }
  }

  lemma AuthenticateTrace(db: Db, name: string, password: string, matches: (string, string) -> bool, production: bool, faults: DbFaults)
    ensures var r := Authenticate(db, name, password, matches, production, faults);
      && (r.response.status == 200 <==> r.cookie.Some?)
      && (r.response.status != 200 ==> r.db == db && "success" in r.response.body && r.response.body["success"] == Bool(false))
      && (r.response.status == 200 ==>
            exists user :: user in db.accounts
              && r.db == db.(eventLogs := db.eventLogs + [EventLog(user.id, "LOGIN", Text("User logged in successfully"))])
              && r.cookie == Some(Cookie("userId", IntToString(user.id), true, production, "strict", "/", 604800))
              && "userId" in r.response.body && r.response.body["userId"] == Num(user.id))
  {
    var found := FindByUsername(db.accounts, name);
    if !faults.lookupThrows && found.Some? && matches(password, found.value.passwordHash) && !faults.firstWriteThrows {
      var user := found.value;
      assert user in db.accounts;
    }
  }

  /** A success names the account whose trimmed username was given and whose hash matches the password. */
  lemma SuccessIdentifiesAccount(db: Db, data: JsValue, matches: (string, string) -> bool, production: bool, faults: DbFaults)
    requires Login(db, Parsed(data), matches, production, faults).response.status == 200
    ensures WellFormedCredentials(data)
    ensures var user := FindByUsername(db.accounts, Trim(Prop(data, "username").s));
      var r := Login(db, Parsed(data), matches, production, faults);
      user.Some? && matches(Prop(data, "password").s, user.value.passwordHash)
      && r.response == LoginSucceeded(user.value.id)
      && r.cookie == Some(SessionCookie(user.value.id, production)) && r.db.accounts == db.accounts
  {
  }
}
