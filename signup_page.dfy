/**
 * The sign-up form `frontend/app/signup/page.tsx`: three client checks
 * run in order, the first failure is shown and nothing is sent; otherwise
 * the trimmed username and the password as typed go to the sign-up
 * endpoint and, when it succeeds, to the login endpoint, and the page
 * moves to the stream or back to the login form.
 *
 * The two network exchanges are parameters: what each `fetch` and
 * `response.json()` gave back, or the message of the error they threw.
 */
module SignupPage {
  import opened Wrappers
  import opened Strings
  import opened JsValues
  import opened Store
  import SignupRoute
  import LoginRoute

  const USERNAME_MESSAGE := "Username must be at least 3 characters long"
  const PASSWORD_MESSAGE := "Password must be at least 8 characters long"
  const MISMATCH_MESSAGE := "Passwords do not match"
  const SIGNUP_FAILED := "Signup failed"
  const AUTO_LOGIN_FAILED := "Login after signup failed. Please try logging in manually."
  const SIGNUP_URL := "/api/signup"
  const LOGIN_URL := "/api/login"
  const STREAM_PATH := "/stream"
  const LOGIN_PATH := "/login"

  /** What a `fetch` followed by `response.json()` gave back, or the message of the error either threw. */
  datatype Reply = NetworkError(message: string) | Replied(response: Response)

  /** The requests sent, in order, the error shown ("" for none) and the page navigated to, if any. */
  datatype Outcome = Outcome(requests: seq<(string, JsValue)>, error: string, destination: Option<string>)

  /** Lines 19-33: username, then password, then confirmation; the first failing check's message. */
  function FormError(username: string, password: string, confirm: string): Option<string> {
    if username == "" || Utf16Length(Trim(username)) < 3 then Some(USERNAME_MESSAGE)
    else if password == "" || Utf16Length(password) < 8 then Some(PASSWORD_MESSAGE)
    else if password != confirm then Some(MISMATCH_MESSAGE)
    else None
  }

  /** Lines 43-46 and 62: the same body for both requests. */
  function CredentialsBody(username: string, password: string): JsValue {
    Obj(map["username" := Str(Trim(username)), "password" := Str(password)])
  }

  /** `response.ok`. */
  predicate Ok(response: Response) {
    200 <= response.status <= 299
  }

  /** `handleSubmit`, lines 15-80. */
  function Submit(username: string, password: string, confirm: string, signupReply: Reply, loginReply: Reply): Outcome {
    match FormError(username, password, confirm)
    case Some(e) => Outcome([], e, None)
    case None => Send(CredentialsBody(username, password), signupReply, loginReply)
  }

  /** Lines 40-76, once the form passed its checks: the sign-up request, then the login request. */
  function Send(body: JsValue, signupReply: Reply, loginReply: Reply): Outcome {
    var signup := [(SIGNUP_URL, body)];
    match signupReply
    case NetworkError(m) => Outcome(signup, m, None)
    case Replied(response) =>
      var data := Obj(response.body);
      if !Ok(response) then Outcome(signup, ToJsString(Or(Prop(data, "message"), Str(SIGNUP_FAILED))), None)
      else if !Truthy(Prop(data, "success")) then Outcome(signup, "", None)
      else
        var both := signup + [(LOGIN_URL, body)];
        match loginReply
        case NetworkError(m) => Outcome(both, m, None)
        case Replied(loginResponse) =>
          if Truthy(Prop(Obj(loginResponse.body), "success")) then Outcome(both, "", Some(STREAM_PATH))
          else Outcome(both, AUTO_LOGIN_FAILED, Some(LOGIN_PATH))
  }

  /**
   * The checks run in source order and the first failure wins: each
   * message is given exactly when its check fails and every earlier one
   * passed, and no message means all three passed.
   */
  lemma ChecksInOrder(username: string, password: string, confirm: string)
    ensures var shortName := username == "" || Utf16Length(Trim(username)) < 3;
      var shortPassword := password == "" || Utf16Length(password) < 8;
      var e := FormError(username, password, confirm);
      && (e == Some(USERNAME_MESSAGE) <==> shortName)
      && (e == Some(PASSWORD_MESSAGE) <==> !shortName && shortPassword)
      && (e == Some(MISMATCH_MESSAGE) <==> !shortName && !shortPassword && password != confirm)
      && (e.None? <==> !shortName && !shortPassword && password == confirm)
  {
  }

  /** A refused form sends no request, shows its message and stays on the page. */
  lemma RefusedFormSendsNothing(username: string, password: string, confirm: string, signupReply: Reply, loginReply: Reply)
    requires FormError(username, password, confirm).Some?
    ensures Submit(username, password, confirm, signupReply, loginReply) == Outcome([], FormError(username, password, confirm).value, None)
  {
  }

  /**
   * An accepted form sends the sign-up request first; the login request
   * with the same body follows exactly when the sign-up reply is ok and
   * successful; the page reaches the stream exactly when the login reply
   * is successful too, and otherwise lands on the login form with a
   * message once the login was attempted.
   */
  lemma SignupThenLogin(username: string, password: string, confirm: string, signupReply: Reply, loginReply: Reply)
    requires FormError(username, password, confirm).None?
    ensures var o, body := Submit(username, password, confirm, signupReply, loginReply), CredentialsBody(username, password);
      var signedUp := signupReply.Replied? && Ok(signupReply.response) && Truthy(Prop(Obj(signupReply.response.body), "success"));
      var loggedIn := loginReply.Replied? && Truthy(Prop(Obj(loginReply.response.body), "success"));
      && o.requests[..1] == [(SIGNUP_URL, body)]
      && (|o.requests| == 2 <==> signedUp)
      && (signedUp ==> o.requests == [(SIGNUP_URL, body), (LOGIN_URL, body)])
      && (o.destination == Some(STREAM_PATH) <==> signedUp && loggedIn)
      && (o.destination == Some(STREAM_PATH) ==> o.error == "")
      && (signedUp && loginReply.Replied? && !loggedIn ==> o.destination == Some(LOGIN_PATH) && o.error == AUTO_LOGIN_FAILED)
      && (!signedUp ==> o.destination.None? && |o.requests| == 1)
  {
    SendThenLogin(CredentialsBody(username, password), signupReply, loginReply);
  }

  /** The two requests in order; the stream is reached only when both succeed. */
  lemma SendThenLogin(body: JsValue, signupReply: Reply, loginReply: Reply)
    ensures var o := Send(body, signupReply, loginReply);
      var signedUp := signupReply.Replied? && Ok(signupReply.response) && Truthy(Prop(Obj(signupReply.response.body), "success"));
      var loggedIn := loginReply.Replied? && Truthy(Prop(Obj(loginReply.response.body), "success"));
      && o.requests[..1] == [(SIGNUP_URL, body)]
      && (|o.requests| == 2 <==> signedUp)
      && (signedUp ==> o.requests == [(SIGNUP_URL, body), (LOGIN_URL, body)])
      && (o.destination == Some(STREAM_PATH) <==> signedUp && loggedIn)
      && (o.destination == Some(STREAM_PATH) ==> o.error == "")
      && (signedUp && loginReply.Replied? && !loggedIn ==> o.destination == Some(LOGIN_PATH) && o.error == AUTO_LOGIN_FAILED)
      && (!signedUp ==> o.destination.None? && |o.requests| == 1)
  {
    var signup, both := [(SIGNUP_URL, body)], [(SIGNUP_URL, body), (LOGIN_URL, body)];
    var o := Send(body, signupReply, loginReply);
    assert both[..1] == signup;
    match signupReply
    case NetworkError(m) =>
      assert o == Outcome(signup, m, None);
    case Replied(response) =>
      var data := Obj(response.body);
      if !Ok(response) {
        assert o == Outcome(signup, ToJsString(Or(Prop(data, "message"), Str(SIGNUP_FAILED))), None);
      } else if !Truthy(Prop(data, "success")) {
        assert o == Outcome(signup, "", None);
      } else {
        assert signup + [(LOGIN_URL, body)] == both;
        match loginReply
        case NetworkError(m) =>
          assert o == Outcome(both, m, None);
        case Replied(loginResponse) =>
          if Truthy(Prop(Obj(loginResponse.body), "success")) {
            assert o == Outcome(both, "", Some(STREAM_PATH));
          } else {
            assert o == Outcome(both, AUTO_LOGIN_FAILED, Some(LOGIN_PATH));
          }
      }
  }

  /** A sign-up reply that is not ok shows the server's message, or `SIGNUP_FAILED` when it has none. */
  lemma FailedSignupShowsMessage(username: string, password: string, response: Response, loginReply: Reply)
    requires FormError(username, password, password).None? && !Ok(response)
    ensures var o := Submit(username, password, password, Replied(response), loginReply);
      && o.destination.None? && |o.requests| == 1
      && (Prop(Obj(response.body), "message") == Str("") || Prop(Obj(response.body), "message") == Undefined ==> o.error == SIGNUP_FAILED)
      && (forall m :: Prop(Obj(response.body), "message") == Str(m) && m != "" ==> o.error == m)
  {
    AcceptedFormSends(username, password, password, Replied(response), loginReply);
    var message := Prop(Obj(response.body), "message");
    var o := Send(CredentialsBody(username, password), Replied(response), loginReply);
    assert o.error == ToJsString(Or(message, Str(SIGNUP_FAILED))) && o.destination.None? && |o.requests| == 1;
  }

  /** A form that passes its checks sends its body. */
  lemma AcceptedFormSends(username: string, password: string, confirm: string, signupReply: Reply, loginReply: Reply)
    requires FormError(username, password, confirm).None?
    ensures Submit(username, password, confirm, signupReply, loginReply) == Send(CredentialsBody(username, password), signupReply, loginReply)
  {
  }

  /**
   * The form's checks are a first pass of the server's. A username the
   * form refuses is refused by the sign-up endpoint too, and with the same
   * wording unless it is blank after trimming.
   */
  lemma ShortNameRefusedByServer(username: string, password: string, confirm: string)
    requires FormError(username, password, confirm) == Some(USERNAME_MESSAGE)
    ensures SignupRoute.ValidationError(CredentialsBody(username, password)).Some?
    ensures Trim(username) != "" ==> SignupRoute.ValidationError(CredentialsBody(username, password)) == Some(SignupRoute.USERNAME_TOO_SHORT)
  {
    ChecksInOrder(username, password, confirm);
    assert username == "" || Utf16Length(Trim(username)) < 3;
    BodyWithShortNameRefused(username, password);
  }

  lemma BodyWithShortNameRefused(username: string, password: string)
    requires username == "" || Utf16Length(Trim(username)) < 3
    ensures SignupRoute.ValidationError(CredentialsBody(username, password)).Some?
    ensures Trim(username) != "" ==> SignupRoute.ValidationError(CredentialsBody(username, password)) == Some(SignupRoute.USERNAME_TOO_SHORT)
  {
    ValidationErrorOfBody(username, password);
    ShortUsernameRefused(username);
  }

  /**
   * A password the form refuses is refused by the endpoint too: for its
   * length, or earlier for the username's characters, which the form does
   * not check.
   */
  lemma ShortPasswordRefusedByServer(username: string, password: string, confirm: string)
    requires FormError(username, password, confirm) == Some(PASSWORD_MESSAGE)
    ensures var e := SignupRoute.ValidationError(CredentialsBody(username, password));
      e == Some(SignupRoute.PASSWORD_TOO_SHORT) || e == Some(SignupRoute.PASSWORD_REQUIRED) || e == Some(SignupRoute.USERNAME_CHARACTERS)
  {
    ChecksInOrder(username, password, confirm);
    assert username != "" && Utf16Length(Trim(username)) >= 3;
    assert password == "" || Utf16Length(password) < 8;
    BodyWithShortPasswordRefused(username, password);
  }

  lemma BodyWithShortPasswordRefused(username: string, password: string)
    requires username != "" && Utf16Length(Trim(username)) >= 3
    requires password == "" || Utf16Length(password) < 8
    ensures var e := SignupRoute.ValidationError(CredentialsBody(username, password));
      e == Some(SignupRoute.PASSWORD_TOO_SHORT) || e == Some(SignupRoute.PASSWORD_REQUIRED) || e == Some(SignupRoute.USERNAME_CHARACTERS)
  {
    ValidationErrorOfBody(username, password);
    UsernamePassesLength(username);
    ShortPasswordRefused(password);
  }

  /** The server's checks on the form's body: the trimmed username's, then the password's. */
  lemma ValidationErrorOfBody(username: string, password: string)
    ensures SignupRoute.ValidationError(CredentialsBody(username, password)) ==
      match SignupRoute.UsernameError(Str(Trim(username)))
      case Some(e) => Some(e)
      case None => SignupRoute.PasswordError(Str(password))
  {
    BodyFields(username, password);
  }

  lemma BodyFields(username: string, password: string)
    ensures var body := CredentialsBody(username, password);
      body.Obj? && Prop(body, "username") == Str(Trim(username)) && Prop(body, "password") == Str(password)
  {
  }

  lemma ShortUsernameRefused(username: string)
    requires username == "" || Utf16Length(Trim(username)) < 3
    ensures SignupRoute.UsernameError(Str(Trim(username))).Some?
    ensures Trim(username) != "" ==> SignupRoute.UsernameError(Str(Trim(username))) == Some(SignupRoute.USERNAME_TOO_SHORT)
  {
    UsernameErrorOfTrimmed(username);
    assert username == "" ==> Trim(username) == "" by { assert |Trim(username)| <= |username|; }
  }

  lemma UsernamePassesLength(username: string)
    requires username != "" && Utf16Length(Trim(username)) >= 3
    ensures SignupRoute.UsernameError(Str(Trim(username))).None? ||
            SignupRoute.UsernameError(Str(Trim(username))) == Some(SignupRoute.USERNAME_CHARACTERS)
    ensures SignupRoute.MatchesUsernamePattern(Trim(username)) ==> SignupRoute.UsernameError(Str(Trim(username))).None?
  {
    UsernameErrorOfTrimmed(username);
    Utf16LengthOfEmpty(Trim(username));
  }

  /** The server's username checks on a trimmed name, with the trimming inside them undone. */
  lemma UsernameErrorOfTrimmed(username: string)
    ensures var t := Trim(username);
      SignupRoute.UsernameError(Str(t)) ==
        if t == "" then Some(SignupRoute.USERNAME_REQUIRED)
        else if Utf16Length(t) < 3 then Some(SignupRoute.USERNAME_TOO_SHORT)
        else if !SignupRoute.MatchesUsernamePattern(t) then Some(SignupRoute.USERNAME_CHARACTERS)
        else None
  {
    TrimIdempotent(username);
    UsernameErrorOfUntrimmable(Trim(username));
  }

  lemma UsernameErrorOfUntrimmable(t: string)
    requires Trim(t) == t
    ensures SignupRoute.UsernameError(Str(t)) ==
        if t == "" then Some(SignupRoute.USERNAME_REQUIRED)
        else if Utf16Length(t) < 3 then Some(SignupRoute.USERNAME_TOO_SHORT)
        else if !SignupRoute.MatchesUsernamePattern(t) then Some(SignupRoute.USERNAME_CHARACTERS)
        else None
  {
    var e := SignupRoute.UsernameError(Str(t));
    if t == "" {
      assert !Truthy(Str(t));
      assert e == Some(SignupRoute.USERNAME_REQUIRED);
    } else if Utf16Length(t) < 3 {
      assert Truthy(Str(t)) && Utf16Length(Trim(t)) < 3;
      assert e == Some(SignupRoute.USERNAME_TOO_SHORT);
    } else if !SignupRoute.MatchesUsernamePattern(t) {
      assert Truthy(Str(t)) && Utf16Length(Trim(t)) >= 3 && !SignupRoute.MatchesUsernamePattern(Trim(t));
      assert e == Some(SignupRoute.USERNAME_CHARACTERS);
    } else {
      assert Truthy(Str(t)) && Utf16Length(Trim(t)) >= 3 && SignupRoute.MatchesUsernamePattern(Trim(t));
      assert e.None?;
    }
  }

  lemma ShortPasswordRefused(password: string)
    requires password == "" || Utf16Length(password) < 8
    ensures SignupRoute.PasswordError(Str(password)) == Some(SignupRoute.PASSWORD_REQUIRED) ||
            SignupRoute.PasswordError(Str(password)) == Some(SignupRoute.PASSWORD_TOO_SHORT)
  {
  }

  /**
   * The server is stricter: a form the page accepts, with a well-formed
   * username, is still refused when the password lacks an uppercase letter.
   */
  lemma ServerIsStricter(username: string, password: string)
    requires FormError(username, password, password).None?
    requires SignupRoute.MatchesUsernamePattern(Trim(username)) && !SignupRoute.HasUpper(password)
    ensures SignupRoute.ValidationError(CredentialsBody(username, password)) == Some(SignupRoute.PASSWORD_WEAK)
  {
    BodyFields(username, password);
    UsernamePassesLength(username);
    WeakPasswordRefused(password);
  }

  lemma WeakPasswordRefused(password: string)
    requires password != "" && Utf16Length(password) >= 8 && !SignupRoute.HasUpper(password)
    ensures SignupRoute.PasswordError(Str(password)) == Some(SignupRoute.PASSWORD_WEAK)
  {
  }

  /**
   * End to end with both endpoints: when the server accepts the form's
   * body and the name is free, the account is created, the login that
   * follows with the same body finds it, and the page reaches the stream.
   * `matches` is the password check; it accepts any password against its
   * own hash.
   */
  lemma SignupThenLoginReachesStream(db: Db, ip: string, username: string, password: string,
                                     hash: string -> string, matches: (string, string) -> bool, production: bool)
    requires FormError(username, password, password).None?
    requires SignupRoute.ValidationError(CredentialsBody(username, password)).None?
    requires forall a :: a in db.accounts ==> a.username != Trim(username)
    requires forall x :: matches(x, hash(x))
    ensures var body := CredentialsBody(username, password);
      var reg := SignupRoute.Register(db, ip, Parsed(body), hash, NoFaults);
      var login := LoginRoute.Login(reg.db, Parsed(body), matches, production, NoFaults);
      && reg.created && login.cookie.Some?
      && Submit(username, password, password, Replied(reg.response), Replied(login.response)).destination == Some(STREAM_PATH)
  {
    var body := CredentialsBody(username, password);
    var user := Account(SignupRoute.NextId(db.accounts), Trim(username), hash(password));
    SignupStoresAccount(db, ip, username, password, hash);
    var reg := SignupRoute.Register(db, ip, Parsed(body), hash, NoFaults);
    LoginFindsAccount(reg.db, username, password, user, matches, production);
    PageReachesStream(username, password, user);
  }

  /** Signing up with the form's body stores an account the trimmed name then finds. */
  lemma SignupStoresAccount(db: Db, ip: string, username: string, password: string, hash: string -> string)
    requires SignupRoute.ValidationError(CredentialsBody(username, password)).None?
    requires forall a :: a in db.accounts ==> a.username != Trim(username)
    ensures var reg := SignupRoute.Register(db, ip, Parsed(CredentialsBody(username, password)), hash, NoFaults);
      var user := Account(SignupRoute.NextId(db.accounts), Trim(username), hash(password));
      reg.created && reg.response == SignupRoute.SignupSucceeded(user) && FindByUsername(reg.db.accounts, Trim(username)) == Some(user)
  {
    var body := CredentialsBody(username, password);
    var user := Account(SignupRoute.NextId(db.accounts), Trim(username), hash(password));
    var reg := SignupRoute.Register(db, ip, Parsed(body), hash, NoFaults);
    assert reg.created && reg.response == SignupRoute.SignupSucceeded(user) && reg.db.accounts == db.accounts + [user] by {
      assert Trim(Prop(body, "username").s) == Trim(username) && Prop(body, "password").s == password && !body.Null? by {
        BodyFields(username, password);
        TrimIdempotent(username);
      }
      RegisterFreshName(db, ip, body, hash);
    }
    FindByUsernameOfNew(db.accounts, user);
  }

  /** The server's success path on a valid body whose trimmed name is free. */
  lemma RegisterFreshName(db: Db, ip: string, data: JsValue, hash: string -> string)
    requires !data.Null? && SignupRoute.ValidationError(data).None?
    requires forall a :: a in db.accounts ==> a.username != Trim(Prop(data, "username").s)
    ensures var reg := SignupRoute.Register(db, ip, Parsed(data), hash, NoFaults);
      var user := Account(SignupRoute.NextId(db.accounts), Trim(Prop(data, "username").s), hash(Prop(data, "password").s));
      reg.created && reg.response == SignupRoute.SignupSucceeded(user) && reg.db.accounts == db.accounts + [user]
  {
    SignupRoute.UsernameErrorIff(Prop(data, "username"));
    assert !data.Undefined?;
    var name, password := Trim(Prop(data, "username").s), Prop(data, "password").s;
    SignupRoute.ValidBodyIsCreated(db, ip, data, hash, NoFaults);
    SignupRoute.CreateFreshName(db, ip, name, password, hash);
  }

  lemma LoginFindsAccount(db: Db, username: string, password: string, user: Account, matches: (string, string) -> bool, production: bool)
    requires FormError(username, password, password).None?
    requires FindByUsername(db.accounts, Trim(username)) == Some(user) && matches(password, user.passwordHash)
    ensures var login := LoginRoute.Login(db, Parsed(CredentialsBody(username, password)), matches, production, NoFaults);
      login.response == LoginRoute.LoginSucceeded(user.id) && login.cookie.Some?
  {
    LoginOfAcceptedForm(db, username, password, matches, production);
    var a := LoginRoute.Authenticate(db, Trim(username), password, matches, production, NoFaults);
    assert a.response == LoginRoute.LoginSucceeded(user.id) && a.cookie.Some?;
  }

  /** An accepted form's body passes the endpoint's format checks and reaches the credentials check with the trimmed name. */
  lemma LoginOfAcceptedForm(db: Db, username: string, password: string, matches: (string, string) -> bool, production: bool)
    requires FormError(username, password, password).None?
    ensures LoginRoute.Login(db, Parsed(CredentialsBody(username, password)), matches, production, NoFaults) ==
            LoginRoute.Authenticate(db, Trim(username), password, matches, production, NoFaults)
  {
    var body := CredentialsBody(username, password);
    BodyFields(username, password);
    LoginAccepts(username, password);
    TrimIdempotent(username);
    LoginRoute.LoginUnfolds(db, body, matches, production, NoFaults);
  }

  lemma PageReachesStream(username: string, password: string, user: Account)
    requires FormError(username, password, password).None?
    ensures forall id :: Submit(username, password, password, Replied(SignupRoute.SignupSucceeded(user)), Replied(LoginRoute.LoginSucceeded(id))).destination == Some(STREAM_PATH)
  {
    var signup := SignupRoute.SignupSucceeded(user);
    assert "success"[0] != "userId"[0] && "success"[0] != "username"[0] && "success"[0] != "message"[0];
    assert Ok(signup) && Prop(Obj(signup.body), "success") == Bool(true);
    forall id
      ensures Submit(username, password, password, Replied(signup), Replied(LoginRoute.LoginSucceeded(id))).destination == Some(STREAM_PATH)
    {
      assert Prop(Obj(LoginRoute.LoginSucceeded(id).body), "success") == Bool(true);
    }
  }

  /** The form's two length checks are the login endpoint's format checks. */
  lemma LoginAccepts(username: string, password: string)
    requires FormError(username, password, password).None?
    ensures LoginRoute.UsernameAccepted(Str(Trim(username))) && LoginRoute.PasswordAccepted(Str(password))
  {
    ChecksInOrder(username, password, password);
    var t := Trim(username);
    assert Utf16Length(t) >= 3 && password != "" && Utf16Length(password) >= 8;
    TrimIdempotent(username);
    LoginRoute.UsernameAcceptedIffLong(t);
  }
}
