/**
 * The database the handlers write through Prisma, as plain values: the
 * append-only telemetry tables, the audit trail (`EventLog`), the user
 * accounts and the exam submissions keyed by user id. Also the shape of an
 * HTTP reply (status code plus JSON body fields) and the points at which a
 * database call may throw.
 */
module Store {
  import opened Wrappers
  import opened JsValues

  datatype Keystroke = Keystroke(userId: int, keyPressed: string)
  datatype MouseMovement = MouseMovement(userId: int, xPos: int, yPos: int)
  datatype TabSwitch = TabSwitch(userId: int, tabUrl: string)

  /** An audit-log detail: plain text, or the fields of an object that is stored as `JSON.stringify` of it. */
  datatype Details = Text(text: string) | Json(entries: seq<(string, JsValue)>)

  datatype EventLog = EventLog(userId: int, eventType: string, details: Details)

  datatype Account = Account(id: int, username: string, passwordHash: string)

  /** Submitted answers: a `JSON.stringify`-ed value, or an object of question id to answer. */
  datatype SubmittedAnswers = Serialized(value: JsValue) | Entries(entries: map<string, JsValue>)

  datatype ExamSubmission = ExamSubmission(userId: int, score: int, timeSpent: JsValue, answers: SubmittedAnswers)

  datatype Db = Db(
    accounts: seq<Account>,
    keystrokes: seq<Keystroke>,
    mouseMovements: seq<MouseMovement>,
    tabSwitches: seq<TabSwitch>,
    eventLogs: seq<EventLog>,
    submissions: map<int, ExamSubmission>)

  /**
   * Which database calls of one request throw: the user lookup, the first
   * write and the second write the handler issues (the handler says which
   * call is which).
   */
  datatype DbFaults = DbFaults(lookupThrows: bool, firstWriteThrows: bool, secondWriteThrows: bool)

  const NoFaults := DbFaults(false, false, false)

  /** `findUnique({ where: { id } })`. */
  function FindById(accounts: seq<Account>, id: int): (r: Option<Account>)
    ensures r.Some? ==> r.value in accounts && r.value.id == id
    ensures r.None? <==> forall a :: a in accounts ==> a.id != id
  {
    if accounts == [] then None
    else if accounts[0].id == id then Some(accounts[0])
    else FindById(accounts[1..], id)
  }

  /** `findUnique({ where: { username } })`. */
  function FindByUsername(accounts: seq<Account>, username: string): (r: Option<Account>)
    ensures r.Some? ==> r.value in accounts && r.value.username == username
    ensures r.None? <==> forall a :: a in accounts ==> a.username != username
  {
    if accounts == [] then None
    else if accounts[0].username == username then Some(accounts[0])
    else FindByUsername(accounts[1..], username)
  }

  /** The primary-key invariant of the accounts table. */
  predicate UniqueIds(accounts: seq<Account>) {
    forall i, j :: 0 <= i < j < |accounts| ==> accounts[i].id != accounts[j].id
  }

  /** Under unique ids, looking up the id of any account finds that account. */
  lemma {:induction false} FindByIdOfMember(accounts: seq<Account>, a: Account)
    requires UniqueIds(accounts) && a in accounts
    ensures FindById(accounts, a.id) == Some(a)
    decreases |accounts|
  {
    if accounts[0] != a {
      assert a in accounts[1..];
      FindByIdOfMember(accounts[1..], a);
    }
  }

  /** A name no earlier account has finds the account appended under it. */
  lemma FindByUsernameOfNew(accounts: seq<Account>, a: Account)
    requires forall b :: b in accounts ==> b.username != a.username
    ensures FindByUsername(accounts + [a], a.username) == Some(a)
  {
    assert a in accounts + [a];
  }

  /** Every table of `a` is a prefix of the same table of `b`: nothing written was changed. */
  predicate AppendOnly(a: Db, b: Db) {
    && a.accounts <= b.accounts
    && a.keystrokes <= b.keystrokes
    && a.mouseMovements <= b.mouseMovements
    && a.tabSwitches <= b.tabSwitches
    && a.eventLogs <= b.eventLogs
  }

  /** The number of telemetry rows (keystrokes, mouse movements, tab switches) in `db`. */
  function TelemetryCount(db: Db): nat {
    |db.keystrokes| + |db.mouseMovements| + |db.tabSwitches|
  }

  function AppendKeystroke(db: Db, k: Keystroke): Db
  {
    db.(keystrokes := db.keystrokes + [k])
  }

  function AppendMouseMovement(db: Db, m: MouseMovement): Db
  {
    db.(mouseMovements := db.mouseMovements + [m])
  }

  function AppendTabSwitch(db: Db, t: TabSwitch): Db
  {
    db.(tabSwitches := db.tabSwitches + [t])
  }

  function AppendLog(db: Db, e: EventLog): Db
  {
    db.(eventLogs := db.eventLogs + [e])
  }

  /** An HTTP reply: the status code and the fields of its JSON body. */
  datatype Response = Response(status: int, body: map<string, JsValue>)

  /** The `{ success: false, message }` reply every handler uses for its errors. */
  function Failure(status: int, message: string): (r: Response)
    ensures r.status == status && r.body.Keys == {"success", "message"}
    ensures r.body["success"] == Bool(false) && r.body["message"] == Str(message)
  {
    Response(status, map["success" := Bool(false), "message" := Str(message)])
  }
}
