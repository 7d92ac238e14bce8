/**
 * `POST /api/signup` (`frontend/app/api/signup/route.ts`): an in-memory,
 * per-IP rate limiter updated in place, then the body's username and
 * password rules, then account creation and a `SIGNUP` audit row.
 *
 * The clock is the parameter `now` (milliseconds); bcrypt is the parameter
 * `hash`; the database assigns the next free id.
 */
module SignupRoute {
  import opened Wrappers
  import opened Strings
  import opened JsValues
  import opened Store

  const MAX_SIGNUP_ATTEMPTS := 3
  /** Thirty minutes in milliseconds. */
  const SIGNUP_LOCKOUT_TIME := 30 * 60 * 1000
  const UNKNOWN_IP := "unknown-ip"

  /** One entry of `signupAttempts`. */
  datatype Attempt = Attempt(count: int, lastAttempt: int)

  /** `request.headers.get('x-forwarded-for') || 'unknown-ip'`: an absent or empty header is `unknown-ip`. */
  function IpKey(forwardedFor: Option<string>): (ip: string)
    ensures forwardedFor.Some? && forwardedFor.value != "" ==> ip == forwardedFor.value
    ensures forwardedFor.None? || forwardedFor == Some("") ==> ip == UNKNOWN_IP
  {
    match forwardedFor
    case Some(h) => if h != "" then h else UNKNOWN_IP
    case None => UNKNOWN_IP
  }

  /** `Math.ceil(remaining / 60000)` for a positive number of milliseconds. */
  function CeilMinutes(remaining: int): (m: int)
    requires remaining > 0
    ensures (m - 1) * 60000 < remaining <= m * 60000
  {
    (remaining + 59999) / 60000
  }

  /** The limiter's verdict: refuse with the minutes left, or let the request through with the new table. */
  datatype Admission = Blocked(minutesLeft: int) | Admitted(attempts: map<string, Attempt>)

  /** Lines 20-48: the rate limiter's step for address `ip` at time `now`. */
  function Admit(attempts: map<string, Attempt>, ip: string, now: int): Admission {
    if ip in attempts then
      var attempt := attempts[ip];
      var elapsed := now - attempt.lastAttempt;
      if elapsed > SIGNUP_LOCKOUT_TIME then Admitted(attempts[ip := Attempt(1, now)])
      else if attempt.count >= MAX_SIGNUP_ATTEMPTS && elapsed < SIGNUP_LOCKOUT_TIME then
        Blocked(CeilMinutes(SIGNUP_LOCKOUT_TIME - elapsed))
      else Admitted(attempts[ip := Attempt(attempt.count + 1, now)])
    else Admitted(attempts[ip := Attempt(1, now)])
  }

  function LimitMessage(minutesLeft: int): string {
    "Account creation limit reached. Try again in " + IntToString(minutesLeft) + " minutes."
  }

  // ---------------------------------------------------------------------
  // Username and password rules (lines 65-116)
  // ---------------------------------------------------------------------

  /** The character class `[a-zA-Z0-9_]`. */
  predicate IsUsernameChar(c: char) {
    ('a' <= c <= 'z') || ('A' <= c <= 'Z') || ('0' <= c <= '9') || c == '_'
  }

  /** `/^[a-zA-Z0-9_]+$/.test(s)`. */
  predicate MatchesUsernamePattern(s: string) {
    s != [] && forall i :: 0 <= i < |s| ==> IsUsernameChar(s[i])
  }

  predicate HasUpper(p: string) { exists i :: 0 <= i < |p| && 'A' <= p[i] <= 'Z' }
  predicate HasLower(p: string) { exists i :: 0 <= i < |p| && 'a' <= p[i] <= 'z' }
  predicate HasDigit(p: string) { exists i :: 0 <= i < |p| && IsDigit(p[i]) }

  /** The rules a trimmed username must meet. */
  predicate ValidUsername(trimmed: string) {
    Utf16Length(trimmed) >= 3 && MatchesUsernamePattern(trimmed)
  }

  /** The rules a password must meet: at least 8 UTF-16 units, an uppercase and a lowercase letter and a digit. */
  predicate StrongPassword(p: string) {
    Utf16Length(p) >= 8 && HasUpper(p) && HasLower(p) && HasDigit(p)
  }

  const USERNAME_REQUIRED := "Username is required"
  const USERNAME_TOO_SHORT := "Username must be at least 3 characters long"
  const USERNAME_CHARACTERS := "Username can only contain letters, numbers, and underscores"
  const PASSWORD_REQUIRED := "Password is required"
  const PASSWORD_TOO_SHORT := "Password must be at least 8 characters long"
  const PASSWORD_WEAK := "Password must include at least one uppercase letter, one lowercase letter, and one number"

  /** The checks on the username field, in source order: the first failure's message, or None. */
  function UsernameError(username: JsValue): Option<string> {
    if !Truthy(username) || !username.Str? then Some(USERNAME_REQUIRED)
    else if Utf16Length(Trim(username.s)) < 3 then Some(USERNAME_TOO_SHORT)
    else if !MatchesUsernamePattern(Trim(username.s)) then Some(USERNAME_CHARACTERS)
    else None
  }

  /** The checks on the password field, in source order. */
  function PasswordError(password: JsValue): Option<string> {
    if !Truthy(password) || !password.Str? then Some(PASSWORD_REQUIRED)
    else if Utf16Length(password.s) < 8 then Some(PASSWORD_TOO_SHORT)
    else if !(HasUpper(password.s) && HasLower(password.s) && HasDigit(password.s)) then Some(PASSWORD_WEAK)
    else None
  }

  /** Every username check runs before any password check; the first failure wins. */
  function ValidationError(data: JsValue): Option<string> {
    match UsernameError(Prop(data, "username"))
    case Some(e) => Some(e)
    case None => PasswordError(Prop(data, "password"))
  }

  /** The id the database gives the next account: larger than every id in use. */
  function NextId(accounts: seq<Account>): (id: int)
    ensures id >= 1
    ensures forall a :: a in accounts ==> a.id < id
  {
    if accounts == [] then 1
    else
      var rest := NextId(accounts[1..]);
      if accounts[0].id >= rest then accounts[0].id + 1 else rest
  }

  /** No two accounts share a username. */
  predicate UniqueUsernames(accounts: seq<Account>) {
    forall i, j :: 0 <= i < j < |accounts| ==> accounts[i].username != accounts[j].username
  }

  /** The reply, the database afterwards, and whether the account row was created (which clears the limiter entry). */
  datatype Registration = Registration(response: Response, db: Db, created: bool)

  function SignupSucceeded(user: Account): Response {
    Response(201, map["success" := Bool(true), "userId" := Num(user.id), "username" := Str(user.username),
                      "message" := Str("User created successfully")])
  }

  /**
   * Lines 50-180, after the limiter: parse, validate, look the name up,
   * create the account (first write) and its `SIGNUP` row (second write).
   */
  function Register(db: Db, ip: string, body: Payload, hash: string -> string, faults: DbFaults): Registration {
    match body
    case Unparseable => Registration(Failure(400, "Invalid JSON in request body"), db, false)
    case Parsed(data) =>
      if data.Null? || data.Undefined? then
        // destructuring `null` throws outside the database try
        Registration(Failure(500, "Internal server error during signup"), db, false)
      else match ValidationError(data)
        case Some(e) => Registration(Failure(400, e), db, false)
        case None => Create(db, ip, Trim(Prop(data, "username").s), Prop(data, "password").s, hash, faults)
  }

  /** Lines 118-180, on a valid body: the lookup of the trimmed `name`, the account row and its audit row. */
  function Create(db: Db, ip: string, name: string, password: string, hash: string -> string, faults: DbFaults): Registration {
    if faults.lookupThrows then Registration(Failure(500, "Database error during signup"), db, false)
    else if FindByUsername(db.accounts, name).Some? then
      Registration(Failure(400, "Username already exists"), db, false)
    else if faults.firstWriteThrows then Registration(Failure(500, "Database error during signup"), db, false)
    else
      var user := Account(NextId(db.accounts), name, hash(password));
      var db1 := db.(accounts := db.accounts + [user]);
      if faults.secondWriteThrows then
        Registration(Failure(500, "Database error during signup"), db1, true)
      else
        Registration(SignupSucceeded(user),
                     AppendLog(db1, EventLog(user.id, "SIGNUP", Text("User account created from IP: " + ip))), true)
  }

  class SignupService {
    /** `signupAttempts`, keyed by client address. */
    var attempts: map<string, Attempt>
    var db: Db

    constructor (initial: Db)
      ensures attempts == map[] && db == initial
    {
      attempts := map[];
      db := initial;
    }

    /** The handler, lines 9-182, with the limiter table updated in place. */
    method Post(forwardedFor: Option<string>, now: int, body: Payload, hash: string -> string, faults: DbFaults)
      returns (r: Response)
      modifies this
      ensures var ip := IpKey(forwardedFor);
        match Admit(old(attempts), ip, now)
        case Blocked(m) =>
          r == Failure(429, LimitMessage(m)) && attempts == old(attempts) && db == old(db)
        case Admitted(table) =>
          var reg := Register(old(db), ip, body, hash, faults);
          && r == reg.response && db == reg.db
          && attempts == (if reg.created then table - {ip} else table)
    {
      var ip := IpKey(forwardedFor);
      ghost var admission := Admit(attempts, ip, now);
      if ip in attempts {
        var attempt := attempts[ip];
        var elapsed := now - attempt.lastAttempt;
        if elapsed > SIGNUP_LOCKOUT_TIME {
          attempts := attempts[ip := Attempt(1, now)];
        } else if attempt.count >= MAX_SIGNUP_ATTEMPTS && elapsed < SIGNUP_LOCKOUT_TIME {
          r := Failure(429, LimitMessage(CeilMinutes(SIGNUP_LOCKOUT_TIME - elapsed)));
          assert admission == Blocked(CeilMinutes(SIGNUP_LOCKOUT_TIME - elapsed));
          return;
        } else {
          attempts := attempts[ip := Attempt(attempt.count + 1, now)];
        }
      } else {
        attempts := attempts[ip := Attempt(1, now)];
      }
      assert admission == Admitted(attempts);
      var reg := Register(db, ip, body, hash, faults);
      db := reg.db;
      if reg.created {
        attempts := attempts - {ip};
      }
      r := reg.response;
    }
  }

  // ---------------------------------------------------------------------
  // The rate limiter
  // ---------------------------------------------------------------------

  /** A first request from an address stores one attempt at `now`. */
  lemma FirstAttemptIsRecorded(attempts: map<string, Attempt>, ip: string, now: int)
    requires ip !in attempts
    ensures Admit(attempts, ip, now) == Admitted(attempts[ip := Attempt(1, now)])
  {
  }

  /** More than thirty minutes after the last attempt, the entry starts over at one. */
  lemma StaleEntryResets(attempts: map<string, Attempt>, ip: string, now: int)
    requires ip in attempts && now - attempts[ip].lastAttempt > SIGNUP_LOCKOUT_TIME
    ensures Admit(attempts, ip, now) == Admitted(attempts[ip := Attempt(1, now)])
  {
  }

  /**
   * Three or more attempts within the window are refused and leave the
   * entry as it was, so refused requests do not extend the lockout; the
   * minutes reported lie between 1 and 30.
   */
  lemma LockedOutIsRefused(attempts: map<string, Attempt>, ip: string, now: int)
    requires ip in attempts && attempts[ip].count >= MAX_SIGNUP_ATTEMPTS
    requires 0 <= now - attempts[ip].lastAttempt < SIGNUP_LOCKOUT_TIME
    ensures Admit(attempts, ip, now).Blocked?
    ensures 1 <= Admit(attempts, ip, now).minutesLeft <= 30
  {
  }

  /**
   * Otherwise the count goes up by exactly one and the time becomes `now`;
   * this includes an elapsed time of exactly thirty minutes with the count
   * already at the limit.
   */
  lemma OtherAttemptsCount(attempts: map<string, Attempt>, ip: string, now: int)
    requires ip in attempts
    requires now - attempts[ip].lastAttempt <= SIGNUP_LOCKOUT_TIME
    requires attempts[ip].count < MAX_SIGNUP_ATTEMPTS || now - attempts[ip].lastAttempt == SIGNUP_LOCKOUT_TIME
    ensures Admit(attempts, ip, now) == Admitted(attempts[ip := Attempt(attempts[ip].count + 1, now)])
  {
  }

  /** Every stored entry counts at least one attempt. */
  predicate CountsPositive(attempts: map<string, Attempt>) {
    forall k :: k in attempts ==> attempts[k].count >= 1
  }

  /**
   * The limiter touches only the requesting address's entry, that entry
   * exists afterwards with the time `now`, and counts stay positive.
   */
  lemma AdmitChangesOneEntry(attempts: map<string, Attempt>, ip: string, now: int)
    requires CountsPositive(attempts)
    ensures match Admit(attempts, ip, now)
      case Blocked(_) => ip in attempts
      case Admitted(table) =>
        && table.Keys == attempts.Keys + {ip}
        && table[ip].lastAttempt == now && CountsPositive(table)
        && forall k :: k in attempts && k != ip ==> table[k] == attempts[k]
  {
  }

  /** The limiter runs before the body is parsed: an unparseable request still counts. */
  lemma MalformedRequestsCount(db: Db, ip: string, hash: string -> string, faults: DbFaults)
    ensures Register(db, ip, Unparseable, hash, faults) == Registration(Failure(400, "Invalid JSON in request body"), db, false)
  {
  }

  // ---------------------------------------------------------------------
  // Validation and creation
  // ---------------------------------------------------------------------

  /** The body passes every check exactly when both fields are strings meeting their rules. */
  lemma ValidationIff(data: JsValue)
    ensures ValidationError(data).None? <==>
      Prop(data, "username").Str? && ValidUsername(Trim(Prop(data, "username").s)) &&
      Prop(data, "password").Str? && StrongPassword(Prop(data, "password").s)
  {
    UsernameErrorIff(Prop(data, "username"));
    PasswordErrorIff(Prop(data, "password"));
  }

  /** The username checks pass exactly when the field is a string whose trimmed form meets the rules. */
  lemma UsernameErrorIff(username: JsValue)
    ensures UsernameError(username).None? <==> username.Str? && ValidUsername(Trim(username.s))
  {
    var e := UsernameError(username);
    if !username.Str? {
      assert e == Some(USERNAME_REQUIRED);
    } else if username.s == "" {
      assert e == Some(USERNAME_REQUIRED);
      assert Trim(username.s) == "" by { assert |Trim(username.s)| <= 0; }
      assert !ValidUsername(Trim(username.s)) by { Utf16LengthOfEmpty(Trim(username.s)); }
    } else {
      var t := Trim(username.s);
      assert Truthy(username);
      if Utf16Length(t) < 3 {
        assert e == Some(USERNAME_TOO_SHORT);
      } else if !MatchesUsernamePattern(t) {
        assert e == Some(USERNAME_CHARACTERS);
      } else {
        assert e == None;
      }
    }
  }

  /** The password checks pass exactly when the field is a strong string. */
  lemma PasswordErrorIff(password: JsValue)
    ensures PasswordError(password).None? <==> password.Str? && StrongPassword(password.s)
  {
  }

  /** A bad username is reported whatever the password is. */
  lemma UsernameCheckedFirst(data: JsValue)
    requires UsernameError(Prop(data, "username")).Some?
    ensures ValidationError(data) == UsernameError(Prop(data, "username"))
    ensures ValidationError(data).value in {USERNAME_REQUIRED, USERNAME_TOO_SHORT, USERNAME_CHARACTERS}
  {
    var u := Prop(data, "username");
    var e := UsernameError(u);
    assert ValidationError(data) == e;
    if !Truthy(u) || !u.Str? {
      assert e.value == USERNAME_REQUIRED;
    } else if Utf16Length(Trim(u.s)) < 3 {
      assert e.value == USERNAME_TOO_SHORT;
    } else {
      assert e.value == USERNAME_CHARACTERS;
    }
  }

  /** A body failing validation is answered with 400 and writes nothing. */
  lemma InvalidBodyIs400(db: Db, ip: string, data: JsValue, hash: string -> string, faults: DbFaults)
    requires !data.Null? && !data.Undefined? && ValidationError(data).Some?
    ensures Register(db, ip, Parsed(data), hash, faults) == Registration(Failure(400, ValidationError(data).value), db, false)
  {
  }

  /** An existing (trimmed) username is answered with 400 and creates nothing. */
  lemma TakenUsernameIs400(db: Db, ip: string, data: JsValue, hash: string -> string, faults: DbFaults)
    requires !data.Null? && ValidationError(data).None? && !faults.lookupThrows
    requires exists a :: a in db.accounts && a.username == Trim(Prop(data, "username").s)
    ensures Register(db, ip, Parsed(data), hash, faults) == Registration(Failure(400, "Username already exists"), db, false)
  {
  }

  /**
   * A successful signup stores the trimmed username with the hashed
   * password under a fresh id, appends one `SIGNUP` row naming the address,
   * and replies 201 with the id and the stored name.
   */
  lemma SignupCreatesAccount(db: Db, ip: string, data: JsValue, hash: string -> string)
    requires !data.Null? && ValidationError(data).None?
    requires forall a :: a in db.accounts ==> a.username != Trim(Prop(data, "username").s)
    ensures var reg := Register(db, ip, Parsed(data), hash, NoFaults);
      var name := Trim(Prop(data, "username").s);
      && reg.created && reg.response.status == 201
      && "userId" in reg.response.body && "username" in reg.response.body
      && exists id ::
        && (forall a :: a in db.accounts ==> a.id != id)
        && reg.response.body["userId"] == Num(id) && reg.response.body["username"] == Str(name)
        && reg.db == db.(accounts := db.accounts + [Account(id, name, hash(Prop(data, "password").s))],
                         eventLogs := db.eventLogs + [EventLog(id, "SIGNUP", Text("User account created from IP: " + ip))])
  {
    var name, password := Trim(Prop(data, "username").s), Prop(data, "password").s;
    var user := Account(NextId(db.accounts), name, hash(password));
    var reg := Register(db, ip, Parsed(data), hash, NoFaults);
    ValidBodyIsCreated(db, ip, data, hash, NoFaults);
    CreateFreshName(db, ip, name, password, hash);
    assert reg.response == SignupSucceeded(user) && reg.created;
    SucceededFields(user);
    assert forall a :: a in db.accounts ==> a.id != user.id;
  }

  /** A body that passes validation goes on to the lookup and the writes with its trimmed name. */
  lemma ValidBodyIsCreated(db: Db, ip: string, data: JsValue, hash: string -> string, faults: DbFaults)
    requires !data.Null? && !data.Undefined? && ValidationError(data).None?
    ensures Register(db, ip, Parsed(data), hash, faults) ==
            Create(db, ip, Trim(Prop(data, "username").s), Prop(data, "password").s, hash, faults)
  {
    var u, p := Prop(data, "username"), Prop(data, "password");
    assert UsernameError(u).None? && PasswordError(p).None?;
    UsernameErrorIff(u);
    PasswordErrorIff(p);
    assert Register(db, ip, Parsed(data), hash, faults) == Create(db, ip, Trim(u.s), p.s, hash, faults);
  }

  /** The success body carries the new account's id and name. */
  lemma SucceededFields(user: Account)
    ensures var body := SignupSucceeded(user).body;
      && "userId" in body && body["userId"] == Num(user.id)
      && "username" in body && body["username"] == Str(user.username)
  {
    assert "userId"[4] != "username"[4] && "userId"[0] != "message"[0] && "username"[0] != "message"[0];
  }

  /** A free name gets the next id, its account row and its `SIGNUP` row. */
  lemma CreateFreshName(db: Db, ip: string, name: string, password: string, hash: string -> string)
    requires forall a :: a in db.accounts ==> a.username != name
    ensures var user := Account(NextId(db.accounts), name, hash(password));
      Create(db, ip, name, password, hash, NoFaults) ==
      Registration(SignupSucceeded(user),
                   db.(accounts := db.accounts + [user],
                       eventLogs := db.eventLogs + [EventLog(user.id, "SIGNUP", Text("User account created from IP: " + ip))]),
                   true)
  {
    assert FindByUsername(db.accounts, name).None?;
  }

  /** Every registration keeps ids and usernames unique, and leaves the other tables' old rows alone. */
  lemma RegisterPreservesUniqueness(db: Db, ip: string, body: Payload, hash: string -> string, faults: DbFaults)
    requires UniqueIds(db.accounts) && UniqueUsernames(db.accounts)
    ensures var reg := Register(db, ip, body, hash, faults);
      UniqueIds(reg.db.accounts) && UniqueUsernames(reg.db.accounts) && AppendOnly(db, reg.db)
      && |reg.db.accounts| <= |db.accounts| + 1
  {
    if body.Parsed? && !body.value.Null? && !body.value.Undefined? && ValidationError(body.value).None? {
      var data := body.value;
      CreatePreservesUniqueness(db, ip, Trim(Prop(data, "username").s), Prop(data, "password").s, hash, faults);
    }
  }

  lemma {:induction false} CreatePreservesUniqueness(db: Db, ip: string, name: string, password: string, hash: string -> string, faults: DbFaults)
    requires UniqueIds(db.accounts) && UniqueUsernames(db.accounts)
    ensures var reg := Create(db, ip, name, password, hash, faults);
      UniqueIds(reg.db.accounts) && UniqueUsernames(reg.db.accounts) && AppendOnly(db, reg.db)
      && |reg.db.accounts| <= |db.accounts| + 1
  {
    var reg := Create(db, ip, name, password, hash, faults);
    if reg.db.accounts != db.accounts {
      assert FindByUsername(db.accounts, name).None?;
      var user := Account(NextId(db.accounts), name, hash(password));
      assert reg.db.accounts == db.accounts + [user];
      forall i, j | 0 <= i < j < |reg.db.accounts|
        ensures reg.db.accounts[i].id != reg.db.accounts[j].id
        ensures reg.db.accounts[i].username != reg.db.accounts[j].username
      {
        if j == |db.accounts| {
          assert db.accounts[i] in db.accounts;
        }
      }
    }
  }
}
