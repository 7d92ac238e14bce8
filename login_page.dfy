/**
 * The login form `frontend/app/login/page.tsx`: two client checks, then
 * one request with the trimmed username and the password as typed, and
 * the checks on the reply: a JSON content type, a text that parses, an ok
 * status and a successful body, after which the page moves to the stream.
 *
 * The exchange is a parameter: the error `fetch` threw, or the status,
 * the content-type header, the raw text and what `JSON.parse` made of it.
 */
module LoginPage {
  import opened Wrappers
  import opened Strings
  import opened JsValues
  import opened Store
  import LoginRoute

  const USERNAME_MESSAGE := "Please enter a valid username (at least 3 characters)"
  const PASSWORD_MESSAGE := "Please enter a valid password (at least 8 characters)"
  const LOGIN_FAILED := "Login failed"
  const UNEXPECTED := "Unexpected response: "
  const JSON_TYPE := "application/json"
  const LOGIN_URL := "/api/login"
  const STREAM_PATH := "/stream"

  /** What `JSON.parse(rawText)` gave: a value, or the message of the syntax error it threw. */
  datatype Parse = Malformed(syntaxError: string) | WellFormed(value: JsValue)

  /** The error `fetch` threw, or the reply as the handler reads it. */
  datatype Reply =
    | NetworkError(message: string)
    | Replied(status: int, contentType: Option<string>, rawText: string, parsed: Parse)

  /** The requests sent, the error shown ("" for none) and the page navigated to, if any. */
  datatype Outcome = Outcome(requests: seq<(string, JsValue)>, error: string, destination: Option<string>)

  /** Lines 18-27: username, then password; the first failing check's message. */
  function FormError(username: string, password: string): Option<string> {
    if username == "" || Utf16Length(Trim(username)) < 3 then Some(USERNAME_MESSAGE)
    else if password == "" || Utf16Length(password) < 8 then Some(PASSWORD_MESSAGE)
    else None
  }

  /** Lines 37-40. */
  function CredentialsBody(username: string, password: string): JsValue {
    Obj(map["username" := Str(Trim(username)), "password" := Str(password)])
  }

  /** Lines 48-51: a header that is present and mentions `application/json`. */
  predicate JsonContentType(contentType: Option<string>) {
    contentType.Some? && Contains(contentType.value, JSON_TYPE)
  }

  /** `handleSubmit`, lines 14-68. */
  function Submit(username: string, password: string, reply: Reply): Outcome {
    match FormError(username, password)
    case Some(e) => Outcome([], e, None)
    case None =>
      var sent := [(LOGIN_URL, CredentialsBody(username, password))];
      match reply
      case NetworkError(m) => Outcome(sent, m, None)
      case Replied(status, contentType, rawText, parsed) =>
        if !JsonContentType(contentType) then Outcome(sent, UNEXPECTED + rawText, None)
        else match parsed
          case Malformed(m) => Outcome(sent, m, None)
          case WellFormed(data) =>
            if !(200 <= status <= 299) then Outcome(sent, ToJsString(Or(Prop(data, "message"), Str(LOGIN_FAILED))), None)
            else if Truthy(Prop(data, "success")) then Outcome(sent, "", Some(STREAM_PATH))
            else Outcome(sent, "", None)
  }

  /** The reply the handler gets from the login endpoint: its JSON body with a JSON content type. */
  function RouteReply(response: Response, rawText: string): Reply {
    Replied(response.status, Some(JSON_TYPE), rawText, WellFormed(Obj(response.body)))
  }

  /**
   * The checks run in order and the first failure wins; a refused form
   * sends nothing and shows its message.
   */
  lemma ChecksInOrder(username: string, password: string, reply: Reply)
    ensures var shortName := username == "" || Utf16Length(Trim(username)) < 3;
      var shortPassword := password == "" || Utf16Length(password) < 8;
      var e := FormError(username, password);
      && (e == Some(USERNAME_MESSAGE) <==> shortName)
      && (e == Some(PASSWORD_MESSAGE) <==> !shortName && shortPassword)
      && (e.None? <==> !shortName && !shortPassword)
      && (e.Some? ==> Submit(username, password, reply) == Outcome([], e.value, None))
  {
  }

  /**
   * The form accepts exactly what the endpoint's own format checks
   * accept: the body it sends passes them if and only if the form passed.
   */
  lemma FormMatchesServerChecks(username: string, password: string)
    ensures FormError(username, password).None? <==> LoginRoute.WellFormedCredentials(CredentialsBody(username, password))
  {
    var nameOk, trimmedOk := LoginRoute.UsernameAccepted(Str(username)), LoginRoute.UsernameAccepted(Str(Trim(username)));
    var passwordOk := LoginRoute.PasswordAccepted(Str(password));
    BodyChecks(username, password);
    assert LoginRoute.WellFormedCredentials(CredentialsBody(username, password)) == (trimmedOk && passwordOk);
    FormErrorIsFormatCheck(username, password);
    assert FormError(username, password).None? == (nameOk && passwordOk);
    LoginRoute.TrimmedUsernameAccepted(username);
    assert nameOk == trimmedOk;
  }

  /** The endpoint checks the sent body's trimmed username and its password. */
  lemma BodyChecks(username: string, password: string)
    ensures LoginRoute.WellFormedCredentials(CredentialsBody(username, password)) <==>
      LoginRoute.UsernameAccepted(Str(Trim(username))) && LoginRoute.PasswordAccepted(Str(password))
  {
    BodyFields(username, password);
  }

  lemma FormErrorIsFormatCheck(username: string, password: string)
    ensures FormError(username, password).None? <==>
      LoginRoute.UsernameAccepted(Str(username)) && LoginRoute.PasswordAccepted(Str(password))
  {
    LoginRoute.UsernameAcceptedIffLong(username);
    LoginRoute.PasswordAcceptedIffLong(password);
    if username == "" { assert Trim(username) == ""; }
  }

  lemma BodyFields(username: string, password: string)
    ensures var body := CredentialsBody(username, password);
      body.Obj? && Prop(body, "username") == Str(Trim(username)) && Prop(body, "password") == Str(password)
  {
  }

  /**
   * An accepted form sends one request. A reply without a JSON content
   * type shows the raw text; a non-ok one shows the server's message or
   * `LOGIN_FAILED`; only an ok reply whose body is successful reaches the
   * stream, and it shows no error.
   */
  lemma ReplyChecks(username: string, password: string, reply: Reply)
    requires FormError(username, password).None?
    ensures var o := Submit(username, password, reply);
      && o.requests == [(LOGIN_URL, CredentialsBody(username, password))]
      && (reply.Replied? && !JsonContentType(reply.contentType) ==> o.error == UNEXPECTED + reply.rawText && o.destination.None?)
      && (reply.Replied? && JsonContentType(reply.contentType) && reply.parsed.WellFormed? && !(200 <= reply.status <= 299) ==>
            o.destination.None? && o.error == ToJsString(Or(Prop(reply.parsed.value, "message"), Str(LOGIN_FAILED))))
      && (o.destination == Some(STREAM_PATH) <==>
            reply.Replied? && JsonContentType(reply.contentType) && reply.parsed.WellFormed? &&
            200 <= reply.status <= 299 && Truthy(Prop(reply.parsed.value, "success")))
      && (o.destination.Some? ==> o.error == "")
  {
    var sent := [(LOGIN_URL, CredentialsBody(username, password))];
    var o := Submit(username, password, reply);
    match reply
    case NetworkError(m) =>
      assert o == Outcome(sent, m, None);
    case Replied(status, contentType, rawText, parsed) =>
      if !JsonContentType(contentType) {
        assert o == Outcome(sent, UNEXPECTED + rawText, None);
      } else {
        match parsed
        case Malformed(m) =>
          assert o == Outcome(sent, m, None);
        case WellFormed(data) =>
          if !(200 <= status <= 299) {
            assert o == Outcome(sent, ToJsString(Or(Prop(data, "message"), Str(LOGIN_FAILED))), None);
          } else if Truthy(Prop(data, "success")) {
            assert o == Outcome(sent, "", Some(STREAM_PATH));
          } else {
            assert o == Outcome(sent, "", None);
          }
      }
  }

  /**
   * End to end with the login endpoint: the page reaches the stream
   * exactly when the endpoint sets the session cookie, and every refusal
   * shows the endpoint's own message.
   */
  lemma PageFollowsEndpoint(db: Db, username: string, password: string, rawText: string,
                            matches: (string, string) -> bool, production: bool, faults: DbFaults)
    requires FormError(username, password).None?
    ensures var r := LoginRoute.Login(db, Parsed(CredentialsBody(username, password)), matches, production, faults);
      var o := Submit(username, password, RouteReply(r.response, rawText));
      && (o.destination == Some(STREAM_PATH) <==> r.cookie.Some?)
      && (r.cookie.None? ==> "message" in r.response.body && r.response.body["message"].Str? && o.error == r.response.body["message"].s)
  {
    var body := CredentialsBody(username, password);
    BodyFields(username, password);
    FormMatchesServerChecks(username, password);
    LoginRoute.LoginUnfolds(db, body, matches, production, faults);
    var a := LoginRoute.Authenticate(db, Trim(username), password, matches, production, faults);
    assert LoginRoute.Login(db, Parsed(body), matches, production, faults) == a;
    AuthenticateReplies(db, Trim(username), password, matches, production, faults);
    PageOnReply(username, password, a.response, rawText, a.cookie.Some?);
  }

  /** Every reply of the credentials check is a success with status 200 that sets the cookie, or a failure with a non-empty message and a status outside 200-299 that does not. */
  lemma AuthenticateReplies(db: Db, name: string, password: string, matches: (string, string) -> bool, production: bool, faults: DbFaults)
    ensures var r := LoginRoute.Authenticate(db, name, password, matches, production, faults);
      && (r.cookie.Some? ==> r.response.status == 200 && "success" in r.response.body && r.response.body["success"] == Bool(true))
      && (r.cookie.None? ==>
            (!(200 <= r.response.status <= 299) && "message" in r.response.body && r.response.body["message"].Str? && r.response.body["message"].s != ""))
  {
  }

  /** The page on a JSON reply that is either an ok success or a non-ok failure with a message. */
  lemma PageOnReply(username: string, password: string, response: Response, rawText: string, success: bool)
    requires FormError(username, password).None?
    requires success ==> response.status == 200 && "success" in response.body && response.body["success"] == Bool(true)
    requires !success ==>
      (!(200 <= response.status <= 299) && "message" in response.body && response.body["message"].Str? && response.body["message"].s != "")
    ensures var o := Submit(username, password, RouteReply(response, rawText));
      && (o.destination == Some(STREAM_PATH) <==> success)
      && (!success ==> o.error == response.body["message"].s)
  {
    assert JsonContentType(Some(JSON_TYPE)) by { assert JSON_TYPE <= JSON_TYPE; }
    var data := Obj(response.body);
    var sent := [(LOGIN_URL, CredentialsBody(username, password))];
    if success {
      assert Truthy(Prop(data, "success"));
      assert Submit(username, password, RouteReply(response, rawText)) == Outcome(sent, "", Some(STREAM_PATH));
    } else {
      var m := response.body["message"];
      assert Prop(data, "message") == m && Truthy(m);
      assert Submit(username, password, RouteReply(response, rawText)) == Outcome(sent, m.s, None);
    }
  }
}
