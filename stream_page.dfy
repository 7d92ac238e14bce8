/**
 * The proctored exam page `frontend/app/stream/page.tsx`: the MM:SS clock,
 * the question navigation and answer box, the countdown, the submission
 * event, and the telemetry client, which reports keystrokes, throttled
 * mouse movements, tab visibility and heartbeats to the socket server.
 *
 * Timers are explicit steps: the 50 ms throttle timer firing, the 30 s
 * heartbeat interval ticking, the 1 s countdown ticking. The browser's
 * events arrive as parameters (the key, the rounded pointer position, the
 * page URL, the visibility).
 */
module StreamPage {
  import opened Wrappers
  import opened Strings
  import opened JsValues
  import opened Store
  import WebSocketServer
  import EventsRoute

  /** The four sample questions of lines 35-124. */
  const QUESTION_COUNT := 4
  /** Line 26: sixty minutes. */
  const INITIAL_TIME_LEFT := 60 * 60
  /** Line 218: the movement, in pixels, that counts as significant. */
  const MOVE_THRESHOLD := 5
  /** Line 234: the throttle delay, in milliseconds. */
  const THROTTLE_MS := 50
  /** Line 264: the heartbeat period, in milliseconds. */
  const HEARTBEAT_MS := 30000

  // ---------------------------------------------------------------------
  // The clock, lines 290-295
  // ---------------------------------------------------------------------

  /** `formatTime`: zero-padded minutes, a colon, zero-padded seconds. */
  function FormatMmSs(seconds: nat): string {
    Pad2(NatToDecimal(seconds / 60)) + ":" + Pad2(NatToDecimal(seconds % 60))
  }

  /**
   * `r` reads as a timer showing `seconds`: the last two digits are the
   * seconds, below 60; what precedes the colon is the minutes (at least two
   * digits); minutes * 60 + seconds is `seconds`.
   */
  predicate ReadsAsTimer(r: string, seconds: nat) {
    var k := |r| - 3;
    && k >= 2 && r[k] == ':'
    && AllDigits(r[..k]) && AllDigits(r[k + 1..])
    && DecimalValue(r[k + 1..]) < 60
    && DecimalValue(r[..k]) * 60 + DecimalValue(r[k + 1..]) == seconds
  }

  /** The timer reads back as the time it shows; minutes take more than two digits past 99 minutes. */
  lemma FormatMmSsDecomposes(seconds: nat)
    ensures ReadsAsTimer(FormatMmSs(seconds), seconds)
  {
    var m, sec := seconds / 60, seconds % 60;
    var mm, ss := Pad2(NatToDecimal(m)), Pad2(NatToDecimal(sec));
    SmallDecimal(sec);
    Pad2Value(m);
    Pad2Value(sec);
    assert FormatMmSs(seconds) == mm + ":" + ss;
    TimerFields(seconds, mm, ss, m, sec);
  }

  /** Two padded fields that read back as the minutes and seconds of `seconds` lay out as the timer. */
  lemma TimerFields(seconds: nat, mm: string, ss: string, m: nat, sec: nat)
    requires |mm| >= 2 && |ss| == 2 && AllDigits(mm) && AllDigits(ss)
    requires DecimalValue(mm) == m && DecimalValue(ss) == sec && sec < 60 && m * 60 + sec == seconds
    ensures ReadsAsTimer(mm + ":" + ss, seconds)
  {
    var r := mm + ":" + ss;
    assert r[..|mm|] == mm && r[|mm| + 1..] == ss;
  }

  // ---------------------------------------------------------------------
  // Navigation, answers, countdown and submission, lines 280-338
  // ---------------------------------------------------------------------

  /** `handleNextQuestion`, lines 304-308. */
  function NextQuestion(current: int, count: int): int {
    if current < count - 1 then current + 1 else current
  }

  /** `handlePrevQuestion`, lines 310-314. */
  function PrevQuestion(current: int): int {
    if current > 0 then current - 1 else current
  }

  /**
   * Next moves one forward exactly when there is a next question and Prev
   * one back exactly when there is a previous one, so a valid index stays
   * valid.
   */
  lemma NavigationStaysInRange(current: int, count: int)
    requires 0 <= current < count
    ensures 0 <= NextQuestion(current, count) < count && 0 <= PrevQuestion(current) < count
    ensures NextQuestion(current, count) == current + 1 <==> current < count - 1
    ensures NextQuestion(current, count) == current <==> current == count - 1
    ensures PrevQuestion(current) == current - 1 <==> current > 0
    ensures PrevQuestion(current) == current <==> current == 0
  {
  }

  /** `handleAnswerChange`, lines 297-302: the answer box of the current question. */
  function AnswerChanged(answers: map<int, string>, current: int, value: string): (r: map<int, string>)
    ensures r.Keys == answers.Keys + {current} && r[current] == value
    ensures forall q :: q in answers && q != current ==> r[q] == answers[q]
  {
    answers[current := value]
  }

  /** One tick of the countdown effect, lines 280-288: it runs only while time is left and the exam is not submitted. */
  function CountdownTick(timeLeft: int, submitted: bool): int {
    if timeLeft <= 0 || submitted then timeLeft else timeLeft - 1
  }

  /** Ticks applied `n` times. */
  function CountdownAfter(timeLeft: int, submitted: bool, n: nat): int {
    if n == 0 then timeLeft else CountdownTick(CountdownAfter(timeLeft, submitted, n - 1), submitted)
  }

  /**
   * From a non-negative start the countdown reaches `max(0, start - n)`
   * after `n` ticks, so it never goes negative; once submitted it stops.
   */
  lemma {:induction false} CountdownReachesZero(timeLeft: int, submitted: bool, n: nat)
    requires timeLeft >= 0
    ensures !submitted ==> CountdownAfter(timeLeft, submitted, n) == if timeLeft - n > 0 then timeLeft - n else 0
    ensures submitted ==> CountdownAfter(timeLeft, submitted, n) == timeLeft
  {
    if n > 0 {
      CountdownReachesZero(timeLeft, submitted, n - 1);
    }
  }

  /** The detail text of the submission event, lines 331-333: the number of keys in `answers`. */
  function SubmitDetails(answers: map<int, string>): string {
    "Exam completed with " + IntToString(|answers.Keys|) + " questions answered"
  }

  /** The body posted on submission, lines 330-333: no user id, and a type the events handler does not know. */
  function SubmitEventBody(answers: map<int, string>): JsValue {
    Obj(map["type" := Str("EXAM_SUBMIT"), "details" := Str(SubmitDetails(answers))])
  }

  /** An answer typed and then erased still counts as answered: the key stays. */
  lemma ErasedAnswerStillCounted(answers: map<int, string>, q: int, text: string)
    requires q !in answers
    ensures SubmitDetails(AnswerChanged(AnswerChanged(answers, q, text), q, "")) == SubmitDetails(answers[q := text])
    ensures |AnswerChanged(AnswerChanged(answers, q, text), q, "").Keys| == |answers.Keys| + 1
  {
    assert AnswerChanged(AnswerChanged(answers, q, text), q, "").Keys == answers[q := text].Keys == answers.Keys + {q};
  }

  /**
   * The events handler of `frontend/app/api/events/route.ts`, given this
   * body, answers 400 (no `userId`) and writes nothing: the submission is
   * never recorded there.
   */
  lemma SubmitEventRefused(db: Db, answers: map<int, string>, faults: DbFaults)
    ensures EventsRoute.PostEvent(db, Parsed(SubmitEventBody(answers)), faults) == EventsRoute.RouteResult(Failure(400, EventsRoute.MISSING_FIELDS), db)
  {
    assert Prop(SubmitEventBody(answers), "userId") == Undefined;
  }

  // ---------------------------------------------------------------------
  // The telemetry client, lines 150-277
  // ---------------------------------------------------------------------

  /** The frames the page sends. */
  datatype ClientFrame =
    | InitialTab(userId: int, tabUrl: string)
    | KeyFrame(userId: int, key: string)
    | MouseFrame(userId: int, x: int, y: int)
    | VisibilityFrame(userId: int, tabUrl: string, visible: bool)
    | HeartbeatFrame(userId: int)

  /** The object `JSON.stringify` serialises, as the server's `JSON.parse` gives it back. */
  function Encode(f: ClientFrame): JsValue {
    match f
    case InitialTab(u, url) => Obj(map["type" := Str("tabSwitch"), "userId" := Num(u), "tabUrl" := Str(url), "action" := Str("initial")])
    case KeyFrame(u, key) => Obj(map["type" := Str("keystroke"), "userId" := Num(u), "keyPressed" := Str(key)])
    case MouseFrame(u, x, y) => Obj(map["type" := Str("mouseMovement"), "userId" := Num(u), "xPos" := Num(x), "yPos" := Num(y)])
    case VisibilityFrame(u, url, v) => Obj(map["type" := Str("tabSwitch"), "userId" := Num(u), "tabUrl" := Str(url), "isVisible" := Bool(v)])
    case HeartbeatFrame(u) => Obj(map["type" := Str("heartbeat"), "userId" := Num(u)])
  }

  /** `WebSocket.readyState`. */
  datatype ReadyState = Connecting | Open | Closing | Closed

  /**
   * The client: the socket's state, the `lastMousePos` ref, the pending
   * throttle timer with the position it captured (the `throttleTimeout`
   * ref), and every frame sent so far.
   */
  datatype Client = Client(userId: int, readyState: ReadyState, lastX: int, lastY: int, pending: Option<(int, int)>, outbox: seq<ClientFrame>)

  /** Line 152 onwards: the socket is created once the user id is known. */
  function NewClient(userId: int): Client {
    Client(userId, Connecting, 0, 0, None, [])
  }

  function Abs(n: int): nat {
    if n < 0 then -n else n
  }

  /** `ws.send` guarded by `ws.readyState === WebSocket.OPEN`. */
  function SendIfOpen(c: Client, f: ClientFrame): Client {
    if c.readyState == Open then c.(outbox := c.outbox + [f]) else c
  }

  /** `ws.onopen`, lines 159-170: one `tabSwitch` frame with `action: 'initial'` and the page URL. */
  function Opened(c: Client, href: string): Client {
    c.(readyState := Open, outbox := c.outbox + [InitialTab(c.userId, href)])
  }

  /** `ws.onclose`. */
  function SocketClosed(c: Client): Client {
    c.(readyState := Closed)
  }

  /** `handleKeyDown`, lines 198-206. */
  function KeyDown(c: Client, key: string): Client {
    SendIfOpen(c, KeyFrame(c.userId, key))
  }

  /** `handleVisibilityChange`, lines 240-249. */
  function VisibilityChanged(c: Client, href: string, visible: bool): Client {
    SendIfOpen(c, VisibilityFrame(c.userId, href, visible))
  }

  /** One period of the heartbeat interval, lines 257-264. */
  function HeartbeatTick(c: Client): Client {
    SendIfOpen(c, HeartbeatFrame(c.userId))
  }

  /** A move counts when it leaves the last sent position by more than five pixels on either axis. */
  predicate Significant(c: Client, x: int, y: int) {
    Abs(x - c.lastX) > MOVE_THRESHOLD || Abs(y - c.lastY) > MOVE_THRESHOLD
  }

  /** `handleMouseMove`, lines 209-237: a significant move arms the timer unless one is pending. */
  function MouseMoved(c: Client, x: int, y: int): Client {
    if Significant(c, x, y) && c.pending.None? then c.(pending := Some((x, y))) else c
  }

  /** The throttle timer fires, lines 221-234: send if open, then remember the position and disarm. */
  function ThrottleFired(c: Client): Client {
    match c.pending
    case None => c
    case Some(p) => SendIfOpen(c, MouseFrame(c.userId, p.0, p.1)).(lastX := p.0, lastY := p.1, pending := None)
  }

  /** Keystroke, visibility, heartbeat and mouse frames go out only on an open socket. */
  lemma NothingSentUnlessOpen(c: Client, key: string, href: string, visible: bool)
    requires c.readyState != Open
    ensures KeyDown(c, key) == c && VisibilityChanged(c, href, visible) == c && HeartbeatTick(c) == c
    ensures ThrottleFired(c).outbox == c.outbox
  {
  }

  /**
   * A move is only recorded in the timer; it never changes the last sent
   * position and never replaces a pending timer. A small move does nothing.
   */
  lemma MouseMoveOnlyArms(c: Client, x: int, y: int)
    ensures var d := MouseMoved(c, x, y);
      && d.(pending := c.pending) == c
      && (c.pending.Some? || !Significant(c, x, y) ==> d == c)
      && (c.pending.None? && Significant(c, x, y) ==> d.pending == Some((x, y)))
  {
  }

  /** A run of pointer events. */
  function MovesApplied(c: Client, moves: seq<(int, int)>): Client
    decreases |moves|
  {
    if moves == [] then c else MovesApplied(MouseMoved(c, moves[0].0, moves[0].1), moves[1..])
  }

  /** The first move of a run that is significant against the position `(lx, ly)`. */
  function FirstSignificant(lx: int, ly: int, moves: seq<(int, int)>): Option<(int, int)>
    decreases |moves|
  {
    if moves == [] then None
    else if Abs(moves[0].0 - lx) > MOVE_THRESHOLD || Abs(moves[0].1 - ly) > MOVE_THRESHOLD then Some(moves[0])
    else FirstSignificant(lx, ly, moves[1..])
  }

  /**
   * However many pointer events arrive before the timer fires, only the
   * first significant one is kept, and only the pending timer changes.
   */
  lemma {:induction false} MovesArmOnce(c: Client, moves: seq<(int, int)>)
    ensures var d := MovesApplied(c, moves);
      && d.(pending := c.pending) == c
      && d.pending == (if c.pending.Some? then c.pending else FirstSignificant(c.lastX, c.lastY, moves))
    decreases |moves|
  {
    if moves != [] {
      MovesArmOnce(MouseMoved(c, moves[0].0, moves[0].1), moves[1..]);
    }
  }

  /**
   * The throttle: from an idle timer on an open socket, a burst of moves
   * followed by the timer firing sends at most one mouse frame, carrying the
   * first significant position, which becomes the last sent position.
   */
  lemma BurstSendsOneFrame(c: Client, moves: seq<(int, int)>)
    requires c.readyState == Open && c.pending.None?
    ensures var d := ThrottleFired(MovesApplied(c, moves));
      match FirstSignificant(c.lastX, c.lastY, moves)
      case None => d == c
      case Some(p) => d == c.(outbox := c.outbox + [MouseFrame(c.userId, p.0, p.1)], lastX := p.0, lastY := p.1)
  {
    MovesArmOnce(c, moves);
  }

  /** Every frame the client sends carries the user id its socket was opened with. */
  predicate FramesFromUser(c: Client) {
    forall i :: 0 <= i < |c.outbox| ==> c.outbox[i].userId == c.userId
  }

  lemma StepsKeepUser(c: Client, key: string, href: string, visible: bool, x: int, y: int)
    requires FramesFromUser(c)
    ensures FramesFromUser(Opened(c, href)) && FramesFromUser(KeyDown(c, key)) && FramesFromUser(VisibilityChanged(c, href, visible))
    ensures FramesFromUser(HeartbeatTick(c)) && FramesFromUser(MouseMoved(c, x, y)) && FramesFromUser(ThrottleFired(c)) && FramesFromUser(SocketClosed(c))
  {
  }

  /** The client as a stateful object: the socket, the two refs, and the frames sent. */
  class StreamClient {
    var userId: int
    var readyState: ReadyState
    var lastX: int
    var lastY: int
    var pending: Option<(int, int)>
    var outbox: seq<ClientFrame>

    function Snapshot(): Client
      reads this
    {
      Client(userId, readyState, lastX, lastY, pending, outbox)
    }

    constructor(userId: int)
      ensures Snapshot() == NewClient(userId)
    {
      this.userId := userId;
      readyState := Connecting;
      lastX, lastY := 0, 0;
      pending := None;
      outbox := [];
    }

    method Send(f: ClientFrame)
      modifies this
      ensures Snapshot() == SendIfOpen(old(Snapshot()), f)
    {
      if readyState == Open {
        outbox := outbox + [f];
      }
    }

    method OnOpen(href: string)
      modifies this
      ensures Snapshot() == Opened(old(Snapshot()), href)
    {
      readyState := Open;
      outbox := outbox + [InitialTab(userId, href)];
    }

    method OnClose()
      modifies this
      ensures Snapshot() == SocketClosed(old(Snapshot()))
    {
      readyState := Closed;
    }

    method OnKeyDown(key: string)
      modifies this
      ensures Snapshot() == KeyDown(old(Snapshot()), key)
    {
      Send(KeyFrame(userId, key));
    }

    method OnVisibilityChange(href: string, visible: bool)
      modifies this
      ensures Snapshot() == VisibilityChanged(old(Snapshot()), href, visible)
    {
      Send(VisibilityFrame(userId, href, visible));
    }

    method OnHeartbeat()
      modifies this
      ensures Snapshot() == HeartbeatTick(old(Snapshot()))
    {
      Send(HeartbeatFrame(userId));
    }

    method OnMouseMove(x: int, y: int)
      modifies this
      ensures Snapshot() == MouseMoved(old(Snapshot()), x, y)
    {
      var dx, dy := Abs(x - lastX), Abs(y - lastY);
      if dx > MOVE_THRESHOLD || dy > MOVE_THRESHOLD {
        if pending.None? {
          pending := Some((x, y));
        }
      }
    }

    method OnThrottleTimer()
      modifies this
      ensures Snapshot() == ThrottleFired(old(Snapshot()))
    {
      if pending.Some? {
        var p := pending.value;
        Send(MouseFrame(userId, p.0, p.1));
        lastX, lastY := p.0, p.1;
        pending := None;
      }
    }
  }

  // ---------------------------------------------------------------------
  // What the socket server does with these frames
  // ---------------------------------------------------------------------

  /** The id the page uses passed `if (data.id && data.username)`, so it is not 0. */
  lemma FrameNamesUser(db: Db, f: ClientFrame)
    requires f.userId != 0 && FindById(db.accounts, f.userId).Some?
    ensures WebSocketServer.ClaimedUserId(Encode(f)) == Some(f.userId)
    ensures WebSocketServer.VerifiedUser(db, Encode(f), NoFaults)
  {
    assert Get(Encode(f), "userId") == Some(Num(f.userId)) by {
      match f
      case InitialTab(_, _) => assert "userId"[0] != "tabUrl"[0] && "userId"[0] != "action"[0];
      case KeyFrame(_, _) => assert "userId"[0] != "keyPressed"[0];
      case MouseFrame(_, _, _) => assert "userId"[0] != "xPos"[0] && "userId"[0] != "yPos"[0];
      case VisibilityFrame(_, _, _) => assert "userId"[0] != "tabUrl"[0] && "userId"[0] != "isVisible"[0];
      case HeartbeatFrame(_) =>
    }
    assert Truthy(Num(f.userId));
  }

  /** A keystroke frame of a known user is stored as that user's key, with its audit row. */
  lemma KeystrokeIsStored(db: Db, uid: int, key: string)
    requires uid != 0 && FindById(db.accounts, uid).Some?
    ensures WebSocketServer.HandleFrame(db, Parsed(Encode(KeyFrame(uid, key))), NoFaults) ==
      WebSocketServer.FrameEffect(db.(keystrokes := db.keystrokes + [Keystroke(uid, key)],
                                      eventLogs := db.eventLogs + [EventLog(uid, "keyispressed", Text("Key pressed: " + key))]), [])
  {
    FrameNamesUser(db, KeyFrame(uid, key));
    WebSocketServer.KeystrokeFrameAppends(db, Encode(KeyFrame(uid, key)));
  }

  /** The initial tab frame is stored as a tab switch to the page URL; its `action` field plays no part. */
  lemma InitialTabIsStored(db: Db, uid: int, href: string)
    requires uid != 0 && FindById(db.accounts, uid).Some?
    ensures WebSocketServer.HandleFrame(db, Parsed(Encode(InitialTab(uid, href))), NoFaults).db ==
      db.(tabSwitches := db.tabSwitches + [TabSwitch(uid, href)],
          eventLogs := db.eventLogs + [EventLog(uid, "tabswitched", Text("Tab switched to: " + href))])
  {
    FrameNamesUser(db, InitialTab(uid, href));
    InitialTabFields(uid, href);
    TabFrameStored(db, Encode(InitialTab(uid, href)), uid, href);
  }

  lemma InitialTabFields(uid: int, href: string)
    ensures var e := Encode(InitialTab(uid, href));
      Prop(e, "type") == Str("tabSwitch") && Prop(e, "tabUrl") == Str(href)
  {
    assert "type"[1] != "tabUrl"[1] && "type"[0] != "action"[0] && "tabUrl"[0] != "action"[0] && "tabUrl"[0] != "userId"[0];
  }

  /** A verified tab frame naming a string URL stores that URL. */
  lemma TabFrameStored(db: Db, e: JsValue, uid: int, href: string)
    requires WebSocketServer.VerifiedUser(db, e, NoFaults) && WebSocketServer.ClaimedUserId(e) == Some(uid)
    requires Prop(e, "type") == Str("tabSwitch") && Prop(e, "tabUrl") == Str(href)
    ensures WebSocketServer.HandleFrame(db, Parsed(e), NoFaults).db ==
      db.(tabSwitches := db.tabSwitches + [TabSwitch(uid, href)],
          eventLogs := db.eventLogs + [EventLog(uid, "tabswitched", Text("Tab switched to: " + href))])
  {
    WebSocketServer.TabFrameAppends(db, e);
    assert StringOrEmpty(Str(href)) == href && ToJsString(Str(href)) == href;
  }

  /** A mouse frame is stored with the coordinates the client sent. */
  lemma MouseIsStored(db: Db, uid: int, x: int, y: int)
    requires uid != 0 && FindById(db.accounts, uid).Some?
    ensures WebSocketServer.HandleFrame(db, Parsed(Encode(MouseFrame(uid, x, y))), NoFaults).db ==
      db.(mouseMovements := db.mouseMovements + [MouseMovement(uid, x, y)],
          eventLogs := db.eventLogs + [WebSocketServer.MouseLog(uid, Num(x), Num(y))])
  {
    var e := Encode(MouseFrame(uid, x, y));
    FrameNamesUser(db, MouseFrame(uid, x, y));
    assert Prop(e, "type") == Str("mouseMovement") && Prop(e, "xPos") == Num(x) && Prop(e, "yPos") == Num(y) by {
      assert "type"[0] != "userId"[0] && "type"[0] != "xPos"[0] && "type"[0] != "yPos"[0] && "xPos"[0] != "yPos"[0];
    }
    assert NumberOrZero(Num(x)) == Some(x) && NumberOrZero(Num(y)) == Some(y);
    WebSocketServer.MouseFrameAppends(db, e);
  }

  /** A heartbeat is answered with one acknowledgement and stores nothing. */
  lemma HeartbeatIsAnswered(db: Db, uid: int)
    requires uid != 0 && FindById(db.accounts, uid).Some?
    ensures WebSocketServer.HandleFrame(db, Parsed(Encode(HeartbeatFrame(uid))), NoFaults) ==
      WebSocketServer.FrameEffect(db, [WebSocketServer.HeartbeatAck])
  {
    FrameNamesUser(db, HeartbeatFrame(uid));
    WebSocketServer.HeartbeatIsAcknowledged(db, Encode(HeartbeatFrame(uid)), NoFaults);
  }
}
