/**
 * The telemetry socket server of `frontend/websocket/index.ts`: the registry
 * of live sockets and the per-frame handler that verifies the claimed user,
 * dispatches on the frame's `type` and appends a typed telemetry row plus
 * its paired audit-log row.
 *
 * Each frame is handled as one atomic step. The user directory is the
 * accounts table of the database; a lookup or write that throws is an input
 * (`DbFaults`: the lookup, the telemetry row, the audit row).
 */
module WebSocketServer {
  import opened Wrappers
  import opened Strings
  import opened JsValues
  import opened Store

  /** A connected socket, by identity. */
  type Socket = nat

  datatype ServerMessage = Info(message: string) | HeartbeatAck

  /** A frame sent to socket `to`. */
  datatype Sent = Sent(to: Socket, message: ServerMessage)

  const WELCOME_MESSAGE := "Connected to WebSocket server"

  /** What one inbound frame does: the database afterwards and the frames sent back on its socket. */
  datatype FrameEffect = FrameEffect(db: Db, replies: seq<ServerMessage>)

  /**
   * `data.userId ? Number(data.userId) : null` followed by `if (!userId) return`:
   * the id the frame claims, or None when the handler stops there. A `null`
   * payload makes `data.userId` throw, which the outer catch swallows.
   */
  function ClaimedUserId(data: JsValue): Option<int> {
    match Get(data, "userId")
    case None => None
    case Some(raw) =>
      if !Truthy(raw) then None
      else match ToNumber(raw)
        case None => None
        case Some(n) => if n == 0 then None else Some(n)
  }

  /** The frame's user passed the check that precedes the switch on `type`. */
  predicate VerifiedUser(db: Db, data: JsValue, faults: DbFaults) {
    ClaimedUserId(data).Some? && !faults.lookupThrows && FindById(db.accounts, ClaimedUserId(data).value).Some?
  }

  /** The audit row of a keystroke: the detail uses the raw, uncoerced key. */
  function KeystrokeLog(uid: int, key: JsValue): EventLog {
    EventLog(uid, "keyispressed", Text("Key pressed: " + ToJsString(key)))
  }

  /** The audit row of a mouse movement: the detail uses the raw coordinates. */
  function MouseLog(uid: int, x: JsValue, y: JsValue): EventLog {
    EventLog(uid, "mousemoved", Text("Mouse moved to: (" + ToJsString(x) + ", " + ToJsString(y) + ")"))
  }

  function TabLog(uid: int, url: JsValue): EventLog {
    EventLog(uid, "tabswitched", Text("Tab switched to: " + ToJsString(url)))
  }

  /**
   * Lines 59-141 for a verified user `uid`: the switch on `data.type`. A
   * telemetry row is written first and its audit row second; a write that
   * throws ends the frame there. A coordinate that `Number` turns into NaN
   * is rejected by the integer column, which throws like a failed write.
   */
  function Dispatch(db: Db, data: JsValue, uid: int, faults: DbFaults): FrameEffect {
    var kind := Prop(data, "type");
    if kind == Str("keystroke") then
      var key := Prop(data, "keyPressed");
      Staged(db, AppendKeystroke(db, Keystroke(uid, StringOrEmpty(key))), KeystrokeLog(uid, key), faults)
    else if kind == Str("mouseMovement") then
      var x, y := Prop(data, "xPos"), Prop(data, "yPos");
      if NumberOrZero(x).None? || NumberOrZero(y).None? then FrameEffect(db, [])
      else Staged(db, AppendMouseMovement(db, MouseMovement(uid, NumberOrZero(x).value, NumberOrZero(y).value)),
                  MouseLog(uid, x, y), faults)
    else if kind == Str("tabSwitch") then
      var url := Prop(data, "tabUrl");
      Staged(db, AppendTabSwitch(db, TabSwitch(uid, StringOrEmpty(url))), TabLog(uid, url), faults)
    else if kind == Str("heartbeat") then
      FrameEffect(db, [HeartbeatAck])
    else
      FrameEffect(db, [])
  }

  /**
   * The two awaited writes of one event: `db1` is the database after the
   * telemetry row, `log` its audit row. A write that throws ends the frame
   * with what was already written; nothing is sent back.
   */
  function Staged(db: Db, db1: Db, log: EventLog, faults: DbFaults): FrameEffect {
    if faults.firstWriteThrows then FrameEffect(db, [])
    else if faults.secondWriteThrows then FrameEffect(db1, [])
    else FrameEffect(AppendLog(db1, log), [])
  }

  /** The whole `'message'` handler (lines 27-146) on one decoded frame. */
  function HandleFrame(db: Db, payload: Payload, faults: DbFaults): FrameEffect {
    match payload
    case Unparseable => FrameEffect(db, [])
    case Parsed(data) =>
      if VerifiedUser(db, data, faults) then Dispatch(db, data, ClaimedUserId(data).value, faults)
      else FrameEffect(db, [])
  }

  /** The replies of one frame, addressed to the socket it came from. */
  function AddressedTo(ws: Socket, replies: seq<ServerMessage>): (r: seq<Sent>)
    ensures |r| == |replies|
    ensures forall i :: 0 <= i < |r| ==> r[i] == Sent(ws, replies[i])
  {
    if replies == [] then [] else [Sent(ws, replies[0])] + AddressedTo(ws, replies[1..])
  }

  class TelemetryServer {
    /** The `clients` set of line 13. */
    var clients: set<Socket>
    /** The database the handler writes. */
    var db: Db
    /** Every frame the server has sent, in order. */
    var sent: seq<Sent>

    constructor (initial: Db)
      ensures clients == {} && db == initial && sent == []
    {
      clients := {};
      db := initial;
      sent := [];
    }

    /** Lines 16-24: a new socket joins the registry and is greeted exactly once. */
    method Accept(ws: Socket)
      modifies this
      ensures clients == old(clients) + {ws}
      ensures sent == old(sent) + [Sent(ws, Info(WELCOME_MESSAGE))]
      ensures db == old(db)
    {
      clients := clients + {ws};
      sent := sent + [Sent(ws, Info(WELCOME_MESSAGE))];
    }

    /**
     * `clients.delete(ws)`, which both the `'close'` handler (lines 149-152)
     * and the `'error'` handler (lines 155-158) run; deleting an absent
     * socket changes nothing.
     */
    method Forget(ws: Socket)
      modifies this
      ensures clients == old(clients) - {ws}
      ensures ws !in old(clients) ==> clients == old(clients)
      ensures db == old(db) && sent == old(sent)
    {
      clients := clients - {ws};
    }

    /** Lines 27-146: one frame from socket `ws`, step by step with the handler's early returns. */
    method OnMessage(ws: Socket, payload: Payload, faults: DbFaults)
      modifies this
      ensures db == HandleFrame(old(db), payload, faults).db
      ensures sent == old(sent) + AddressedTo(ws, HandleFrame(old(db), payload, faults).replies)
      ensures clients == old(clients)
    {
      if payload.Unparseable? {
        return;
      }
      var data := payload.value;
      var userId := ClaimedUserId(data);
      if userId.None? {
        return;
      }
      var uid := userId.value;
      if faults.lookupThrows {
        return;
      }
      var user := FindById(db.accounts, uid);
      if user.None? {
        return;
      }
      OnVerifiedFrame(ws, data, uid, faults);
    }

    /** Lines 59-141: the switch on `data.type` for the verified user `uid`. */
    method OnVerifiedFrame(ws: Socket, data: JsValue, uid: int, faults: DbFaults)
      modifies this
      ensures db == Dispatch(old(db), data, uid, faults).db
      ensures sent == old(sent) + AddressedTo(ws, Dispatch(old(db), data, uid, faults).replies)
      ensures clients == old(clients)
    {
      FrameTypesDiffer();
      var kind := Prop(data, "type");
      if kind == Str("keystroke") {
        var key := Prop(data, "keyPressed");
        if faults.firstWriteThrows {
          return;
        }
        db := AppendKeystroke(db, Keystroke(uid, StringOrEmpty(key)));
        if faults.secondWriteThrows {
          return;
        }
        db := AppendLog(db, KeystrokeLog(uid, key));
      } else if kind == Str("mouseMovement") {
        var x, y := Prop(data, "xPos"), Prop(data, "yPos");
        var xNum, yNum := NumberOrZero(x), NumberOrZero(y);
        if xNum.None? || yNum.None? || faults.firstWriteThrows {
          return;
        }
        db := AppendMouseMovement(db, MouseMovement(uid, xNum.value, yNum.value));
        if faults.secondWriteThrows {
          return;
        }
        db := AppendLog(db, MouseLog(uid, x, y));
      } else if kind == Str("tabSwitch") {
        var url := Prop(data, "tabUrl");
        if faults.firstWriteThrows {
          return;
        }
        db := AppendTabSwitch(db, TabSwitch(uid, StringOrEmpty(url)));
        if faults.secondWriteThrows {
          return;
        }
        db := AppendLog(db, TabLog(uid, url));
      } else if kind == Str("heartbeat") {
        sent := sent + [Sent(ws, HeartbeatAck)];
      }
    }
  }

  // ---------------------------------------------------------------------
  // Properties of one frame
  // ---------------------------------------------------------------------

  /** A payload that `JSON.parse` rejects writes nothing and sends nothing. */
  lemma UnparseableFrameIsDropped(db: Db, faults: DbFaults)
    ensures HandleFrame(db, Unparseable, faults) == FrameEffect(db, [])
  {
  }

  /**
   * The check of lines 36-41 stops a frame exactly when its `userId` is
   * missing or coerces to 0 or NaN (or the payload is `null`).
   */
  lemma ClaimedUserIdNoneIff(data: JsValue)
    ensures ClaimedUserId(data).None? <==>
      data.Null? || data.Undefined? ||
      ToNumber(Prop(data, "userId")) == None || ToNumber(Prop(data, "userId")) == Some(0)
  {
    var raw := Prop(data, "userId");
    if !Truthy(raw) {
      match raw
      case Str(s) => assert s == "" && Trim(s) == [];
      case _ =>
    }
  }

  /**
   * A frame whose user is not verified (no usable id, no such account, or
   * a lookup that throws) writes nothing and sends nothing, whatever its
   * type; heartbeats included, since the check precedes the switch.
   */
  lemma UnverifiedFrameIsDropped(db: Db, data: JsValue, faults: DbFaults)
    requires !VerifiedUser(db, data, faults)
    ensures HandleFrame(db, Parsed(data), faults) == FrameEffect(db, [])
  {
  }

  /** A frame whose `type` is none of the four handled ones (compared exactly) has no effect. */
  lemma UnknownTypeIsDropped(db: Db, data: JsValue, faults: DbFaults)
    requires Prop(data, "type") !in {Str("keystroke"), Str("mouseMovement"), Str("tabSwitch"), Str("heartbeat")}
    ensures HandleFrame(db, Parsed(data), faults) == FrameEffect(db, [])
  {
  }

  /**
   * A keystroke from a verified user appends one Keystroke row holding
   * `String(keyPressed || '')`, then one `keyispressed` audit row whose
   * detail uses the raw value, and sends nothing.
   */
  lemma KeystrokeFrameAppends(db: Db, data: JsValue)
    requires VerifiedUser(db, data, NoFaults) && Prop(data, "type") == Str("keystroke")
    ensures var uid, key := ClaimedUserId(data).value, Prop(data, "keyPressed");
      HandleFrame(db, Parsed(data), NoFaults) ==
      FrameEffect(db.(keystrokes := db.keystrokes + [Keystroke(uid, StringOrEmpty(key))],
                      eventLogs := db.eventLogs + [EventLog(uid, "keyispressed", Text("Key pressed: " + ToJsString(key)))]), [])
  {
    FrameTypesDiffer();
  }

  /**
   * A mouse movement from a verified user appends `Number(x || 0)`,
   * `Number(y || 0)` and a `mousemoved` audit row built from the raw values.
   */
  lemma MouseFrameAppends(db: Db, data: JsValue)
    requires VerifiedUser(db, data, NoFaults) && Prop(data, "type") == Str("mouseMovement")
    requires NumberOrZero(Prop(data, "xPos")).Some? && NumberOrZero(Prop(data, "yPos")).Some?
    ensures var uid, x, y := ClaimedUserId(data).value, Prop(data, "xPos"), Prop(data, "yPos");
      HandleFrame(db, Parsed(data), NoFaults) ==
      FrameEffect(db.(mouseMovements := db.mouseMovements + [MouseMovement(uid, NumberOrZero(x).value, NumberOrZero(y).value)],
                      eventLogs := db.eventLogs + [EventLog(uid, "mousemoved",
                        Text("Mouse moved to: (" + ToJsString(x) + ", " + ToJsString(y) + ")"))]), [])
  {
    FrameTypesDiffer();
  }

  /**
   * A tab switch appends `String(tabUrl || '')` and a `tabswitched` audit
   * row; other fields of the frame (`action`, `isVisible`) play no part.
   */
  lemma TabFrameAppends(db: Db, data: JsValue)
    requires VerifiedUser(db, data, NoFaults) && Prop(data, "type") == Str("tabSwitch")
    ensures var uid, url := ClaimedUserId(data).value, Prop(data, "tabUrl");
      HandleFrame(db, Parsed(data), NoFaults) ==
      FrameEffect(db.(tabSwitches := db.tabSwitches + [TabSwitch(uid, StringOrEmpty(url))],
                      eventLogs := db.eventLogs + [EventLog(uid, "tabswitched", Text("Tab switched to: " + ToJsString(url)))]), [])
  {
    TabDispatch(db, data, ClaimedUserId(data).value, NoFaults);
  }

  /** Fields other than `type`, `userId` and `tabUrl` do not change what a tab switch does. */
  lemma TabFrameIgnoresExtraFields(db: Db, m: map<string, JsValue>, key: string, v: JsValue, faults: DbFaults)
    requires key !in {"type", "userId", "tabUrl"}
    requires "type" in m && m["type"] == Str("tabSwitch")
    ensures HandleFrame(db, Parsed(Obj(m[key := v])), faults) == HandleFrame(db, Parsed(Obj(m)), faults)
  {
    var d1, d2 := Obj(m), Obj(m[key := v]);
    assert Get(d2, "userId") == Get(d1, "userId") && Prop(d2, "type") == Prop(d1, "type") && Prop(d2, "tabUrl") == Prop(d1, "tabUrl");
    assert ClaimedUserId(d2) == ClaimedUserId(d1);
    if VerifiedUser(db, d1, faults) {
      var uid := ClaimedUserId(d1).value;
      TabDispatch(db, d1, uid, faults);
      TabDispatch(db, d2, uid, faults);
    }
  }

  /** What a tab switch of user `uid` does depends on its `tabUrl` only. */
  lemma TabDispatch(db: Db, data: JsValue, uid: int, faults: DbFaults)
    requires Prop(data, "type") == Str("tabSwitch")
    ensures var url := Prop(data, "tabUrl");
      Dispatch(db, data, uid, faults) == Staged(db, AppendTabSwitch(db, TabSwitch(uid, StringOrEmpty(url))), TabLog(uid, url), faults)
  {
    FrameTypesDiffer();
  }

  /** A heartbeat from a verified user is answered with exactly one acknowledgement and writes nothing. */
  lemma HeartbeatIsAcknowledged(db: Db, data: JsValue, faults: DbFaults)
    requires VerifiedUser(db, data, faults) && Prop(data, "type") == Str("heartbeat")
    ensures HandleFrame(db, Parsed(data), faults) == FrameEffect(db, [HeartbeatAck])
  {
    FrameTypesDiffer();
  }

  /** When the telemetry write throws, no audit row is written for that frame. */
  lemma FailedRecordWriteWritesNoLog(db: Db, payload: Payload, faults: DbFaults)
    requires faults.firstWriteThrows
    ensures HandleFrame(db, payload, faults).db == db
  {
  }

  /**
   * Every frame only appends; it adds at most one telemetry row, at most as
   * many audit rows as telemetry rows, exactly as many when the audit write
   * does not throw, and it replies with nothing but acknowledgements.
   */
  lemma FrameIsAppendOnlyAndPaired(db: Db, payload: Payload, faults: DbFaults)
    ensures var e := HandleFrame(db, payload, faults);
      && AppendOnly(db, e.db)
      && e.db.accounts == db.accounts && e.db.submissions == db.submissions
      && TelemetryCount(e.db) - TelemetryCount(db) <= 1
      && |e.db.eventLogs| - |db.eventLogs| <= TelemetryCount(e.db) - TelemetryCount(db)
      && (!faults.secondWriteThrows ==> |e.db.eventLogs| - |db.eventLogs| == TelemetryCount(e.db) - TelemetryCount(db))
      && (forall i :: 0 <= i < |e.replies| ==> e.replies[i] == HeartbeatAck)
  {
    if payload.Parsed? && VerifiedUser(db, payload.value, faults) {
      DispatchIsAppendOnlyAndPaired(db, payload.value, ClaimedUserId(payload.value).value, faults);
    }
  }

  /** The shape every frame's effect has, as stated above. */
  predicate PairedEffect(db: Db, e: FrameEffect, faults: DbFaults) {
    && AppendOnly(db, e.db)
    && e.db.accounts == db.accounts && e.db.submissions == db.submissions
    && TelemetryCount(e.db) - TelemetryCount(db) <= 1
    && |e.db.eventLogs| - |db.eventLogs| <= TelemetryCount(e.db) - TelemetryCount(db)
    && (!faults.secondWriteThrows ==> |e.db.eventLogs| - |db.eventLogs| == TelemetryCount(e.db) - TelemetryCount(db))
    && (forall i :: 0 <= i < |e.replies| ==> e.replies[i] == HeartbeatAck)
  }

  lemma DispatchIsAppendOnlyAndPaired(db: Db, data: JsValue, uid: int, faults: DbFaults)
    ensures PairedEffect(db, Dispatch(db, data, uid, faults), faults)
  {
    var kind := Prop(data, "type");
    if kind == Str("keystroke") {
      var key := Prop(data, "keyPressed");
      StagedWritesPaired(db, AppendKeystroke(db, Keystroke(uid, StringOrEmpty(key))), KeystrokeLog(uid, key), faults);
    } else if kind == Str("mouseMovement") {
      var x, y := Prop(data, "xPos"), Prop(data, "yPos");
      if NumberOrZero(x).Some? && NumberOrZero(y).Some? {
        StagedWritesPaired(db, AppendMouseMovement(db, MouseMovement(uid, NumberOrZero(x).value, NumberOrZero(y).value)),
                           MouseLog(uid, x, y), faults);
      } else {
        assert PairedEffect(db, FrameEffect(db, []), faults);
      }
    } else if kind == Str("tabSwitch") {
      var url := Prop(data, "tabUrl");
      StagedWritesPaired(db, AppendTabSwitch(db, TabSwitch(uid, StringOrEmpty(url))), TabLog(uid, url), faults);
    } else {
      assert PairedEffect(db, FrameEffect(db, []), faults) && PairedEffect(db, FrameEffect(db, [HeartbeatAck]), faults);
    }
  }

  /** Each stage of a telemetry row followed by its audit row has the paired shape. */
  lemma StagedWritesPaired(db: Db, db1: Db, log: EventLog, faults: DbFaults)
    requires AppendOnly(db, db1) && db1.accounts == db.accounts && db1.submissions == db.submissions
    requires TelemetryCount(db1) == TelemetryCount(db) + 1 && db1.eventLogs == db.eventLogs
    ensures PairedEffect(db, Staged(db, db1, log, faults), faults)
  {
  }

  /** The frame types the switch tells apart are distinct strings. */
  lemma FrameTypesDiffer()
    ensures "keystroke" != "mouseMovement" && "keystroke" != "tabSwitch" && "keystroke" != "heartbeat"
    ensures "mouseMovement" != "tabSwitch" && "mouseMovement" != "heartbeat" && "tabSwitch" != "heartbeat"
  {
    assert "keystroke"[0] == 'k' && "mouseMovement"[0] == 'm' && "tabSwitch"[0] == 't' && "heartbeat"[0] == 'h';
  }

  /** Two keystrokes on one connection are stored in the order they arrived. */
  lemma KeystrokesKeepArrivalOrder(db: Db, a: JsValue, b: JsValue)
    requires VerifiedUser(db, a, NoFaults) && Prop(a, "type") == Str("keystroke")
    requires VerifiedUser(db, b, NoFaults) && Prop(b, "type") == Str("keystroke")
    ensures var db2 := HandleFrame(HandleFrame(db, Parsed(a), NoFaults).db, Parsed(b), NoFaults).db;
      db2.keystrokes == db.keystrokes + [Keystroke(ClaimedUserId(a).value, StringOrEmpty(Prop(a, "keyPressed"))),
                                         Keystroke(ClaimedUserId(b).value, StringOrEmpty(Prop(b, "keyPressed")))]
  {
    var db1 := HandleFrame(db, Parsed(a), NoFaults).db;
    KeystrokeFrameAppends(db, a);
    assert db1.accounts == db.accounts;
    assert VerifiedUser(db1, b, NoFaults);
    KeystrokeFrameAppends(db1, b);
  }
}
