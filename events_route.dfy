/**
 * `POST /api/events` (`frontend/app/api/events/route.ts`): the HTTP twin of
 * the socket handler. A validation ladder with distinct status codes, then
 * the same two sequential appends, a telemetry row and its audit row.
 * Every exception (an unparseable or `null` body, a lookup or write that
 * throws) is caught and answered with 500.
 */
module EventsRoute {
  import opened Wrappers
  import opened Strings
  import opened JsValues
  import opened Store
  import WebSocketServer

  /** The reply and the database after the request. */
  datatype RouteResult = RouteResult(response: Response, db: Db)

  const MISSING_FIELDS := "Missing required fields: type and userId"
  const MISSING_KEY := "keyPressed is required for keystroke events"
  const MISSING_COORDINATES := "xPos and yPos are required for mouseMovement events"
  const MISSING_URL := "tabUrl is required for tabSwitch events"
  const SERVER_ERROR := "Server error"

  /** `{ success: true }` with the default status. */
  const Accepted := Response(200, map["success" := Bool(true)])

  /**
   * The two writes of a successful event: `db1` is the database after the
   * telemetry row, `log` the audit row. A write that throws ends in 500 and
   * keeps what was already written.
   */
  function TwoWrites(db: Db, db1: Db, log: EventLog, faults: DbFaults): RouteResult {
    if faults.firstWriteThrows then RouteResult(Failure(500, SERVER_ERROR), db)
    else if faults.secondWriteThrows then RouteResult(Failure(500, SERVER_ERROR), db1)
    else RouteResult(Accepted, AppendLog(db1, log))
  }

  /** Lines 38-136: the switch on `type` for the existing user `uid`. */
  function Record(db: Db, data: JsValue, uid: int, faults: DbFaults): RouteResult {
    var kind := Prop(data, "type");
    if kind == Str("keystroke") then
      var key := Prop(data, "keyPressed");
      if !Truthy(key) then RouteResult(Failure(400, MISSING_KEY), db)
      else TwoWrites(db, AppendKeystroke(db, Keystroke(uid, ToJsString(key))),
                     EventLog(uid, "keyispressed", Text("Key pressed: " + ToJsString(key))), faults)
    else if kind == Str("mouseMovement") then
      var x, y := Prop(data, "xPos"), Prop(data, "yPos");
      if x.Undefined? || y.Undefined? then RouteResult(Failure(400, MISSING_COORDINATES), db)
      else if ToNumber(x).None? || ToNumber(y).None? then
        // the integer columns reject NaN: the first write throws
        RouteResult(Failure(500, SERVER_ERROR), db)
      else
        var xn, yn := ToNumber(x).value, ToNumber(y).value;
        TwoWrites(db, AppendMouseMovement(db, MouseMovement(uid, xn, yn)),
                  EventLog(uid, "mousemoved", Text("Mouse moved to: (" + IntToString(xn) + ", " + IntToString(yn) + ")")), faults)
    else if kind == Str("tabSwitch") then
      var url := Prop(data, "tabUrl");
      if !Truthy(url) then RouteResult(Failure(400, MISSING_URL), db)
      else TwoWrites(db, AppendTabSwitch(db, TabSwitch(uid, ToJsString(url))),
                     EventLog(uid, "tabswitched", Text("Tab switched to: " + ToJsString(url))), faults)
    else
      RouteResult(Failure(400, "Invalid event type: " + ToJsString(kind)), db)
  }

  /** The whole handler, lines 6-147. */
  function PostEvent(db: Db, body: Payload, faults: DbFaults): RouteResult {
    match body
    case Unparseable => RouteResult(Failure(500, SERVER_ERROR), db)
    case Parsed(data) =>
      if data.Null? || data.Undefined? then RouteResult(Failure(500, SERVER_ERROR), db)
      else
        var kind, userId := Prop(data, "type"), Prop(data, "userId");
        if !Truthy(kind) || !Truthy(userId) then RouteResult(Failure(400, MISSING_FIELDS), db)
        else match ToNumber(userId)
          // Prisma rejects a NaN or fractional id: the lookup throws
          case None => RouteResult(Failure(500, SERVER_ERROR), db)
          case Some(uid) =>
            if faults.lookupThrows then RouteResult(Failure(500, SERVER_ERROR), db)
            else if FindById(db.accounts, uid).None? then
              RouteResult(Failure(404, "User not found with ID: " + IntToString(uid)), db)
            else Record(db, data, uid, faults)
  }

  /** The request passed the checks of lines 15-35 and names an existing user. */
  predicate KnownSender(db: Db, data: JsValue, faults: DbFaults) {
    && !data.Null? && !data.Undefined?
    && Truthy(Prop(data, "type")) && Truthy(Prop(data, "userId"))
    && ToNumber(Prop(data, "userId")).Some?
    && !faults.lookupThrows
    && FindById(db.accounts, ToNumber(Prop(data, "userId")).value).Some?
  }

  /** A known sender's request goes on to the switch on its type. */
  lemma KnownSenderIsRecorded(db: Db, data: JsValue, faults: DbFaults)
    requires KnownSender(db, data, faults)
    ensures PostEvent(db, Parsed(data), faults) == Record(db, data, ToNumber(Prop(data, "userId")).value, faults)
  {
  }

  /** The event types the switch tells apart, and the socket's heartbeat, are distinct strings. */
  lemma EventTypesDiffer()
    ensures "keystroke" != "mouseMovement" && "keystroke" != "tabSwitch" && "mouseMovement" != "tabSwitch"
    ensures "heartbeat" != "keystroke" && "heartbeat" != "mouseMovement" && "heartbeat" != "tabSwitch"
  {
    assert "keystroke"[0] == 'k' && "mouseMovement"[0] == 'm' && "tabSwitch"[0] == 't' && "heartbeat"[0] == 'h';
  }

  // ---------------------------------------------------------------------
  // The validation ladder
  // ---------------------------------------------------------------------

  /** A falsy `type` or `userId` is answered with 400 and writes nothing. */
  lemma MissingFieldsIs400(db: Db, data: JsValue, faults: DbFaults)
    requires !data.Null? && !data.Undefined?
    requires !Truthy(Prop(data, "type")) || !Truthy(Prop(data, "userId"))
    ensures PostEvent(db, Parsed(data), faults) == RouteResult(Failure(400, MISSING_FIELDS), db)
  {
  }

  /**
   * An id with no account is answered with 404 before any per-type field is
   * looked at: the result does not depend on the other fields of the body.
   */
  lemma UnknownUserIs404(db: Db, data: JsValue, faults: DbFaults, uid: int)
    requires !data.Null? && !data.Undefined?
    requires Truthy(Prop(data, "type")) && Truthy(Prop(data, "userId"))
    requires ToNumber(Prop(data, "userId")) == Some(uid)
    requires !faults.lookupThrows && forall a :: a in db.accounts ==> a.id != uid
    ensures PostEvent(db, Parsed(data), faults) ==
      RouteResult(Failure(404, "User not found with ID: " + IntToString(uid)), db)
  {
  }

  /** A keystroke with a falsy `keyPressed` is answered with 400 and writes nothing. */
  lemma KeystrokeWithoutKeyIs400(db: Db, data: JsValue, faults: DbFaults)
    requires KnownSender(db, data, faults) && Prop(data, "type") == Str("keystroke")
    requires !Truthy(Prop(data, "keyPressed"))
    ensures PostEvent(db, Parsed(data), faults) == RouteResult(Failure(400, MISSING_KEY), db)
  {
  }

  /** A mouse movement with `xPos` or `yPos` undefined is answered with 400; `null` is not undefined. */
  lemma MouseWithoutCoordinateIs400(db: Db, data: JsValue, faults: DbFaults)
    requires KnownSender(db, data, faults) && Prop(data, "type") == Str("mouseMovement")
    ensures PostEvent(db, Parsed(data), faults).response == Failure(400, MISSING_COORDINATES)
      <==> Prop(data, "xPos").Undefined? || Prop(data, "yPos").Undefined?
  {
  }

  /** A tab switch with a falsy `tabUrl` is answered with 400 and writes nothing. */
  lemma TabWithoutUrlIs400(db: Db, data: JsValue, faults: DbFaults)
    requires KnownSender(db, data, faults) && Prop(data, "type") == Str("tabSwitch")
    requires !Truthy(Prop(data, "tabUrl"))
    ensures PostEvent(db, Parsed(data), faults) == RouteResult(Failure(400, MISSING_URL), db)
  {
  }

  /** Any other type, `heartbeat` included, is answered with 400 `Invalid event type` and writes nothing. */
  lemma UnknownTypeIs400(db: Db, data: JsValue, faults: DbFaults)
    requires KnownSender(db, data, faults)
    requires Prop(data, "type") !in {Str("keystroke"), Str("mouseMovement"), Str("tabSwitch")}
    ensures PostEvent(db, Parsed(data), faults) ==
      RouteResult(Failure(400, "Invalid event type: " + ToJsString(Prop(data, "type"))), db)
  {
  }

  /** The socket server acknowledges a heartbeat; this route refuses it. */
  lemma HeartbeatIsRefused(db: Db, data: JsValue, faults: DbFaults)
    requires KnownSender(db, data, faults) && Prop(data, "type") == Str("heartbeat")
    ensures PostEvent(db, Parsed(data), faults) == RouteResult(Failure(400, "Invalid event type: heartbeat"), db)
  {
    EventTypesDiffer();
    UnknownTypeIs400(db, data, faults);
    HeartbeatMessage();
  }

  lemma HeartbeatMessage()
    ensures "Invalid event type: " + ToJsString(Str("heartbeat")) == "Invalid event type: heartbeat"
  {
  }

  // ---------------------------------------------------------------------
  // Successful events
  // ---------------------------------------------------------------------

  /** A keystroke appends a Keystroke row and then a `keyispressed` audit row, and replies `{ success: true }`. */
  lemma KeystrokeIsRecorded(db: Db, data: JsValue)
    requires KnownSender(db, data, NoFaults) && Prop(data, "type") == Str("keystroke")
    requires Truthy(Prop(data, "keyPressed"))
    ensures var uid, key := ToNumber(Prop(data, "userId")).value, ToJsString(Prop(data, "keyPressed"));
      PostEvent(db, Parsed(data), NoFaults) ==
      RouteResult(Accepted, db.(keystrokes := db.keystrokes + [Keystroke(uid, key)],
                                eventLogs := db.eventLogs + [EventLog(uid, "keyispressed", Text("Key pressed: " + key))]))
  {
    KnownSenderIsRecorded(db, data, NoFaults);
  }

  /** A mouse movement stores the `Number`-converted coordinates, and its audit row reports those same numbers. */
  lemma MouseMovementIsRecorded(db: Db, data: JsValue, x: int, y: int)
    requires KnownSender(db, data, NoFaults) && Prop(data, "type") == Str("mouseMovement")
    requires !Prop(data, "xPos").Undefined? && !Prop(data, "yPos").Undefined?
    requires ToNumber(Prop(data, "xPos")) == Some(x) && ToNumber(Prop(data, "yPos")) == Some(y)
    ensures var uid := ToNumber(Prop(data, "userId")).value;
      PostEvent(db, Parsed(data), NoFaults) ==
      RouteResult(Accepted, db.(mouseMovements := db.mouseMovements + [MouseMovement(uid, x, y)],
                                eventLogs := db.eventLogs + [EventLog(uid, "mousemoved",
                                  Text("Mouse moved to: (" + IntToString(x) + ", " + IntToString(y) + ")"))]))
  {
    KnownSenderIsRecorded(db, data, NoFaults);
    EventTypesDiffer();
  }

  /** A tab switch appends a TabSwitch row and then a `tabswitched` audit row. */
  lemma TabSwitchIsRecorded(db: Db, data: JsValue)
    requires KnownSender(db, data, NoFaults) && Prop(data, "type") == Str("tabSwitch")
    requires Truthy(Prop(data, "tabUrl"))
    ensures var uid, url := ToNumber(Prop(data, "userId")).value, ToJsString(Prop(data, "tabUrl"));
      PostEvent(db, Parsed(data), NoFaults) ==
      RouteResult(Accepted, db.(tabSwitches := db.tabSwitches + [TabSwitch(uid, url)],
                                eventLogs := db.eventLogs + [EventLog(uid, "tabswitched", Text("Tab switched to: " + url))]))
  {
    KnownSenderIsRecorded(db, data, NoFaults);
    EventTypesDiffer();
  }

  /** What each outcome of a request may have written. */
  predicate WellShaped(db: Db, r: RouteResult) {
    && r.response.status in {200, 400, 404, 500}
    && AppendOnly(db, r.db) && r.db.accounts == db.accounts && r.db.submissions == db.submissions
    && (r.response.status in {400, 404} ==> r.db == db)
    && (r.response.status == 200 ==>
          r.response == Accepted && TelemetryCount(r.db) == TelemetryCount(db) + 1 && |r.db.eventLogs| == |db.eventLogs| + 1)
    && (r.response.status == 500 ==>
          r.response == Failure(500, SERVER_ERROR) && TelemetryCount(r.db) <= TelemetryCount(db) + 1 && r.db.eventLogs == db.eventLogs)
  }

  lemma TwoWritesShape(db: Db, db1: Db, log: EventLog, faults: DbFaults)
    requires AppendOnly(db, db1) && db1.accounts == db.accounts && db1.submissions == db.submissions
    requires TelemetryCount(db1) == TelemetryCount(db) + 1 && db1.eventLogs == db.eventLogs
    ensures WellShaped(db, TwoWrites(db, db1, log, faults))
  {
  }

  lemma RecordShape(db: Db, data: JsValue, uid: int, faults: DbFaults)
    ensures WellShaped(db, Record(db, data, uid, faults))
  {
    var kind := Prop(data, "type");
    if kind == Str("keystroke") {
      var key := Prop(data, "keyPressed");
      if Truthy(key) {
        TwoWritesShape(db, AppendKeystroke(db, Keystroke(uid, ToJsString(key))),
                       EventLog(uid, "keyispressed", Text("Key pressed: " + ToJsString(key))), faults);
      }
    } else if kind == Str("mouseMovement") {
      var x, y := Prop(data, "xPos"), Prop(data, "yPos");
      if !x.Undefined? && !y.Undefined? && ToNumber(x).Some? && ToNumber(y).Some? {
        var xn, yn := ToNumber(x).value, ToNumber(y).value;
        TwoWritesShape(db, AppendMouseMovement(db, MouseMovement(uid, xn, yn)),
                       EventLog(uid, "mousemoved", Text("Mouse moved to: (" + IntToString(xn) + ", " + IntToString(yn) + ")")), faults);
      }
    } else if kind == Str("tabSwitch") {
      var url := Prop(data, "tabUrl");
      if Truthy(url) {
        TwoWritesShape(db, AppendTabSwitch(db, TabSwitch(uid, ToJsString(url))),
                       EventLog(uid, "tabswitched", Text("Tab switched to: " + ToJsString(url))), faults);
      }
    }
  }

  /**
   * Over every request: the status is one of 200, 400, 404 and 500; the
   * database only grows; a 400 or 404 writes nothing; a 200 writes exactly
   * one telemetry row and one audit row; a 500 writes at most one telemetry
   * row and no audit row (the writes are not atomic).
   */
  lemma OutcomeShapes(db: Db, body: Payload, faults: DbFaults)
    ensures WellShaped(db, PostEvent(db, body, faults))
  {
    if body.Parsed? && KnownSender(db, body.value, faults) {
      RecordShape(db, body.value, ToNumber(Prop(body.value, "userId")).value, faults);
    }
  }

  /** When the audit write throws, the telemetry row stays and the request is still answered with 500. */
  lemma FailedLogKeepsRecord(db: Db, data: JsValue)
    requires KnownSender(db, data, DbFaults(false, false, true))
    requires Prop(data, "type") == Str("keystroke") && Truthy(Prop(data, "keyPressed"))
    ensures var r := PostEvent(db, Parsed(data), DbFaults(false, false, true));
      r.response.status == 500 && |r.db.keystrokes| == |db.keystrokes| + 1 && r.db.eventLogs == db.eventLogs
  {
  }

  /**
   * The two ingest paths agree on keystrokes: an event a verified sender
   * sends with a truthy key writes the same two rows over HTTP as over the
   * socket.
   */
  lemma KeystrokeTwins(db: Db, data: JsValue)
    requires WebSocketServer.VerifiedUser(db, data, NoFaults) && Prop(data, "type") == Str("keystroke")
    requires Truthy(Prop(data, "keyPressed"))
    ensures PostEvent(db, Parsed(data), NoFaults).db == WebSocketServer.HandleFrame(db, Parsed(data), NoFaults).db
  {
    WebSocketServer.KeystrokeFrameAppends(db, data);
    KeystrokeIsRecorded(db, data);
  }

  /** The same holds for tab switches with a truthy URL. */
  lemma TabSwitchTwins(db: Db, data: JsValue)
    requires WebSocketServer.VerifiedUser(db, data, NoFaults) && Prop(data, "type") == Str("tabSwitch")
    requires Truthy(Prop(data, "tabUrl"))
    ensures PostEvent(db, Parsed(data), NoFaults).db == WebSocketServer.HandleFrame(db, Parsed(data), NoFaults).db
  {
    WebSocketServer.TabFrameAppends(db, data);
    TabSwitchIsRecorded(db, data);
  }
}
