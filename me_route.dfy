/**
 * `GET /api/me` (`frontend/app/api/me/route.ts`): a status-code ladder over
 * the `userId` cookie and the account lookup. Nothing is written.
 */
module MeRoute {
  import opened Wrappers
  import opened Strings
  import opened JsValues
  import opened Store
  import LoginRoute

  const NOT_AUTHENTICATED := "Not authenticated"
  const INVALID_ID := "Invalid user ID format"
  const USER_NOT_FOUND := "User not found"
  const LOOKUP_ERROR := "Database error fetching user"

  function Profile(user: Account): Response {
    Response(200, map["success" := Bool(true), "id" := Num(user.id), "username" := Str(user.username)])
  }

  /** The handler, lines 5-80; `cookie` is the value of the `userId` cookie, if one was sent. */
  function Me(db: Db, cookie: Option<string>, faults: DbFaults): Response {
    if cookie.None? || cookie.value == "" then Failure(401, NOT_AUTHENTICATED)
    else match ParseInt(cookie.value)
      case None => Failure(400, INVALID_ID)
      case Some(id) =>
        if faults.lookupThrows then Failure(500, LOOKUP_ERROR)
        else match FindById(db.accounts, id)
          case None => Failure(404, USER_NOT_FOUND)
          case Some(user) => Profile(user)
  }

  /** A missing or empty cookie is answered with 401. */
  lemma NoCookieIs401(db: Db, cookie: Option<string>, faults: DbFaults)
    requires cookie.None? || cookie == Some("")
    ensures Me(db, cookie, faults) == Failure(401, NOT_AUTHENTICATED)
  {
  }

  /** A cookie in which `parseInt` finds no number is answered with 400. */
  lemma UnparseableIdIs400(db: Db, value: string, faults: DbFaults)
    requires value != "" && ParseInt(value).None?
    ensures Me(db, Some(value), faults) == Failure(400, INVALID_ID)
  {
  }

  /** `"12abc"` is read as 12, as if the cookie were `"12"`: `parseInt` keeps the leading number. */
  lemma TrailingCharactersIgnored(db: Db, n: nat, rest: string, faults: DbFaults)
    requires n >= 1 && (rest == [] || !IsDigit(rest[0]))
    ensures Me(db, Some(NatToDecimal(n) + rest), faults) == Me(db, Some(NatToDecimal(n)), faults)
  {
    var d := NatToDecimal(n);
    ParseIntLeadingDigits(n, rest);
    ParseIntLeadingDigits(n, []);
    assert d + [] == d;
    assert d != "" by { assert ParseInt(d).Some?; }
    SameIdSameReply(db, d + rest, d, faults);
  }

  /** The reply depends on a non-empty cookie only through the id `parseInt` reads from it. */
  lemma SameIdSameReply(db: Db, v: string, w: string, faults: DbFaults)
    requires v != "" && w != "" && ParseInt(v) == ParseInt(w)
    ensures Me(db, Some(v), faults) == Me(db, Some(w), faults)
  {
  }

  /**
   * A parsed id with no account gives 404; a lookup that throws gives 500;
   * a found account gives 200 with exactly `success`, `id` and `username`.
   */
  lemma LookupOutcomes(db: Db, value: string, faults: DbFaults)
    requires value != "" && ParseInt(value).Some?
    ensures var r, id := Me(db, Some(value), faults), ParseInt(value).value;
      && (faults.lookupThrows ==> r == Failure(500, LOOKUP_ERROR))
      && (!faults.lookupThrows && (forall a :: a in db.accounts ==> a.id != id) ==> r == Failure(404, USER_NOT_FOUND))
      && (!faults.lookupThrows && (exists a :: a in db.accounts && a.id == id) ==>
            r.status == 200 && r.body.Keys == {"success", "id", "username"} && r.body["id"] == Num(id)
            && exists a :: a in db.accounts && a.id == id && r.body["username"] == Str(a.username))
  {
    var id := ParseInt(value).value;
    assert Me(db, Some(value), faults) ==
      if faults.lookupThrows then Failure(500, LOOKUP_ERROR)
      else match FindById(db.accounts, id)
        case None => Failure(404, USER_NOT_FOUND)
        case Some(user) => Profile(user);
    if !faults.lookupThrows && FindById(db.accounts, id).Some? {
      ProfileFields(FindById(db.accounts, id).value);
    }
  }

  /** The profile reply carries exactly `success`, `id` and `username`. */
  lemma ProfileFields(user: Account)
    ensures var r := Profile(user);
      && r.status == 200 && r.body.Keys == {"success", "id", "username"}
      && r.body["success"] == Bool(true) && r.body["id"] == Num(user.id) && r.body["username"] == Str(user.username)
  {
  }

  /** The reply is one of 200, 400, 401, 404 and 500, and only 200 reports success. */
  lemma StatusCodes(db: Db, cookie: Option<string>, faults: DbFaults)
    ensures var r := Me(db, cookie, faults);
      r.status in {200, 400, 401, 404, 500} && "success" in r.body && (r.body["success"] == Bool(true) <==> r.status == 200)
  {
    var r := Me(db, cookie, faults);
    if cookie.None? || cookie.value == "" {
      assert r == Failure(401, NOT_AUTHENTICATED);
    } else {
      match ParseInt(cookie.value)
      case None =>
        assert r == Failure(400, INVALID_ID);
      case Some(id) =>
        if faults.lookupThrows {
          assert r == Failure(500, LOOKUP_ERROR);
        } else {
          match FindById(db.accounts, id)
          case None =>
            assert r == Failure(404, USER_NOT_FOUND);
          case Some(user) =>
            assert r == Profile(user);
            ProfileFields(user);
        }
    }
  }

  /**
   * The session works end to end: after a successful login, sending back
   * the cookie it set makes `/api/me` answer 200 with the logged-in
   * account's id and name, provided account ids are unique.
   */
  lemma LoginThenMe(db: Db, body: Payload, matches: (string, string) -> bool, production: bool, faults: DbFaults)
    requires UniqueIds(db.accounts)
    requires LoginRoute.Login(db, body, matches, production, faults).response.status == 200
    ensures var r := LoginRoute.Login(db, body, matches, production, faults);
      r.cookie.Some? && "userId" in r.response.body &&
      exists user :: user in db.accounts && r.response.body["userId"] == Num(user.id)
        && Me(r.db, Some(r.cookie.value.value), NoFaults) == Profile(user)
  {
    var r := LoginRoute.Login(db, body, matches, production, faults);
    LoginRoute.SuccessIdentifiesAccount(db, body.value, matches, production, faults);
    var user := FindByUsername(db.accounts, Trim(Prop(body.value, "username").s)).value;
    assert r.cookie.value.value == IntToString(user.id) && r.response.body["userId"] == Num(user.id);
    MeOfSession(r.db, user);
  }

  /** The cookie a login sets for an account of the table brings back that account's profile. */
  lemma MeOfSession(db: Db, user: Account)
    requires UniqueIds(db.accounts) && user in db.accounts
    ensures Me(db, Some(IntToString(user.id)), NoFaults) == Profile(user)
  {
    ParseIntOfIntToString(user.id);
    FindByIdOfMember(db.accounts, user);
    assert IntToString(user.id) != "" by { ParseIntOfIntToString(user.id); }
  }
}
