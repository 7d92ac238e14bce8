/**
 * `/api/exam` (`frontend/app/api/exam/route.ts`): the `userId` cookie gate
 * on all three verbs, the fixed question set served by GET, and the
 * POST/PATCH writes: audit rows, a submission created once per user, and
 * an upsert keyed by user id that replaces the stored answers.
 *
 * The clock's ISO timestamp is the parameter `now`. The user id written to
 * the database is `parseInt` of the cookie; a cookie with no number makes
 * that write throw.
 */
module ExamRoute {
  import opened Wrappers
  import opened Strings
  import opened JsValues
  import opened Store

  const UNAUTHORIZED := "Unauthorized"
  const INTERNAL_ERROR := "Internal server error"
  const PROGRESS_ERROR := "Failed to save progress"
  const INVALID_ACTION := "Invalid action"
  /** Two hours, in seconds. */
  const TIME_LIMIT := 7200

  /** A coding question's identifying fields; its statement, starter code and test-case text are not modelled. */
  datatype CodingQuestion = CodingQuestion(id: string, title: string, difficulty: string, language: string)

  /** `codingQuestions`, lines 8-91. */
  const CODING_QUESTIONS := [
    CodingQuestion("1", "Two Sum", "Easy", "javascript"),
    CodingQuestion("2", "Valid Palindrome", "Easy", "javascript"),
    CodingQuestion("3", "Maximum Subarray", "Medium", "javascript")
  ]

  /** What GET answers: a refusal, or the exam the client should run. */
  datatype ExamReply = Denied(response: Response) | Served(questions: seq<CodingQuestion>, timeLimit: int, startTime: string)

  /** The reply and the database after a POST or PATCH. */
  datatype ExamResult = ExamResult(response: Response, db: Db)

  /** The cookie gate of every verb: `if (!userId)`. */
  predicate SignedIn(cookie: Option<string>) {
    cookie.Some? && cookie.value != ""
  }

  /** GET, lines 94-123. */
  function GetExam(cookie: Option<string>, now: string): ExamReply {
    if !SignedIn(cookie) then Denied(Failure(401, UNAUTHORIZED))
    else Served(CODING_QUESTIONS, TIME_LIMIT, now)
  }

  /** `calculateScore`, lines 125-128: a placeholder that scores every submission 0. */
  function CalculateScore(answers: JsValue): (score: int)
    ensures score == 0
  {
    0
  }

  /** `JSON.stringify` of an object literal: fields whose value is `undefined` are left out. */
  function JsonDetails(entries: seq<(string, JsValue)>): (d: Details)
    ensures d.Json? && |d.entries| <= |entries|
    ensures forall i :: 0 <= i < |d.entries| ==> d.entries[i] in entries && !d.entries[i].1.Undefined?
    ensures forall e :: e in entries && !e.1.Undefined? ==> e in d.entries
  {
    if entries == [] then Json([])
    else
      var rest := JsonDetails(entries[1..]);
      if entries[0].1.Undefined? then rest else Json([entries[0]] + rest.entries)
  }

  /** `{ [questionId]: answer }` as stored: the key is `String(questionId)`; an `undefined` answer is not stored. */
  function SingleAnswer(questionId: JsValue, answer: JsValue): (m: map<string, JsValue>)
    ensures m.Keys <= {ToJsString(questionId)}
    ensures !answer.Undefined? ==> m == map[ToJsString(questionId) := answer]
  {
    if answer.Undefined? then map[] else map[ToJsString(questionId) := answer]
  }

  function Succeeded(message: string): Response {
    Response(200, map["success" := Bool(true), "data" := Obj(map["message" := Str(message)])])
  }

  const PROGRESS_SAVED := Response(200, map["success" := Bool(true), "message" := Str("Progress saved")])

  /** The CODE_SUBMISSION audit detail. */
  function SubmissionDetails(answers: JsValue, timeSpent: JsValue, now: string): Details {
    JsonDetails([("answers", answers), ("timeSpent", timeSpent), ("submittedAt", Str(now))])
  }

  /**
   * POST, lines 130-215. For `submitCode` the audit row is the first write
   * and the submission the second; a second submission for the same user
   * violates the unique user id and throws. For `submitAnswer` the upsert
   * is the first write.
   */
  function ExamPost(db: Db, cookie: Option<string>, body: Payload, now: string, faults: DbFaults): ExamResult {
    if !SignedIn(cookie) then ExamResult(Failure(401, UNAUTHORIZED), db)
    else if body.Unparseable? || body.value.Null? || body.value.Undefined? then ExamResult(Failure(500, INTERNAL_ERROR), db)
    else
      var data := body.value;
      var action, answers, timeSpent := Prop(data, "action"), Prop(data, "answers"), Prop(data, "timeSpent");
      var uid := ParseInt(cookie.value);
      if action == Str("submitCode") then SubmitCode(db, uid, answers, timeSpent, now, faults)
      else if action == Str("submitAnswer") then SubmitAnswer(db, uid, data, timeSpent, faults)
      else ExamResult(Failure(400, INVALID_ACTION), db)
  }

  /** The `submitCode` case, lines 145-175: the audit row, then the submission. */
  function SubmitCode(db: Db, uid: Option<int>, answers: JsValue, timeSpent: JsValue, now: string, faults: DbFaults): ExamResult {
    if uid.None? || faults.firstWriteThrows then ExamResult(Failure(500, INTERNAL_ERROR), db)
    else
      var db1 := AppendLog(db, EventLog(uid.value, "CODE_SUBMISSION", SubmissionDetails(answers, timeSpent, now)));
      if faults.secondWriteThrows || uid.value in db.submissions then ExamResult(Failure(500, INTERNAL_ERROR), db1)
      else ExamResult(Succeeded("Code submitted successfully"),
                      db1.(submissions := db.submissions[uid.value :=
                             ExamSubmission(uid.value, CalculateScore(answers), timeSpent, Serialized(answers))]))
  }

  /** Prisma's `update` skips a field whose value is `undefined`, so a missing `timeSpent` keeps the stored one. */
  function UpdatedTime(stored: JsValue, sent: JsValue): (t: JsValue)
    ensures t == stored || t == sent
    ensures !sent.Undefined? ==> t == sent
  {
    if sent.Undefined? then stored else sent
  }

  /** The `submitAnswer` case, lines 177-198: an upsert by user id. */
  function SubmitAnswer(db: Db, uid: Option<int>, data: JsValue, timeSpent: JsValue, faults: DbFaults): ExamResult {
    if uid.None? || faults.firstWriteThrows then ExamResult(Failure(500, INTERNAL_ERROR), db)
    else
      var entries := Entries(SingleAnswer(Prop(data, "questionId"), Prop(data, "answer")));
      var stored :=
        if uid.value in db.submissions then db.submissions[uid.value].(answers := entries, timeSpent := UpdatedTime(db.submissions[uid.value].timeSpent, timeSpent))
        else ExamSubmission(uid.value, 0, timeSpent, entries);
      ExamResult(Succeeded("Answer submitted successfully"), db.(submissions := db.submissions[uid.value := stored]))
  }

  /** `code.length`: None is the TypeError for `null` and `undefined`; another non-string value gives its `length` property. */
  function CodeLength(code: JsValue): Option<JsValue> {
    match code
    case Null => None
    case Undefined => None
    case Str(s) => Some(Num(Utf16Length(s)))
    case _ => Some(Prop(code, "length"))
  }

  /** PATCH, lines 217-257: one CODE_PROGRESS audit row, its write being the first write. */
  function ExamPatch(db: Db, cookie: Option<string>, body: Payload, now: string, faults: DbFaults): ExamResult {
    if !SignedIn(cookie) then ExamResult(Failure(401, UNAUTHORIZED), db)
    else if body.Unparseable? || body.value.Null? || body.value.Undefined? then ExamResult(Failure(500, PROGRESS_ERROR), db)
    else
      var data := body.value;
      match CodeLength(Prop(data, "code"))
      case None => ExamResult(Failure(500, PROGRESS_ERROR), db)
      case Some(length) =>
        var uid := ParseInt(cookie.value);
        if uid.None? || faults.firstWriteThrows then ExamResult(Failure(500, PROGRESS_ERROR), db)
        else
          var details := JsonDetails([("questionId", Prop(data, "questionId")), ("codeLength", length), ("savedAt", Str(now))]);
          ExamResult(PROGRESS_SAVED, AppendLog(db, EventLog(uid.value, "CODE_PROGRESS", details)))
  }

  class ExamApi {
    var db: Db

    constructor (initial: Db)
      ensures db == initial
    {
      db := initial;
    }

    /** POST, writing step by step. */
    method Post(cookie: Option<string>, body: Payload, now: string, faults: DbFaults) returns (r: Response)
      modifies this
      ensures r == ExamPost(old(db), cookie, body, now, faults).response
      ensures db == ExamPost(old(db), cookie, body, now, faults).db
    {
      if !SignedIn(cookie) {
        r := Failure(401, UNAUTHORIZED);
        return;
      }
      if body.Unparseable? || body.value.Null? || body.value.Undefined? {
        r := Failure(500, INTERNAL_ERROR);
        return;
      }
      var data := body.value;
      var action, answers, timeSpent := Prop(data, "action"), Prop(data, "answers"), Prop(data, "timeSpent");
      var uid := ParseInt(cookie.value);
      if action == Str("submitCode") {
        if uid.None? || faults.firstWriteThrows {
          r := Failure(500, INTERNAL_ERROR);
          return;
        }
        db := AppendLog(db, EventLog(uid.value, "CODE_SUBMISSION", SubmissionDetails(answers, timeSpent, now)));
        var score := CalculateScore(answers);
        if faults.secondWriteThrows || uid.value in db.submissions {
          r := Failure(500, INTERNAL_ERROR);
          return;
        }
        db := db.(submissions := db.submissions[uid.value := ExamSubmission(uid.value, score, timeSpent, Serialized(answers))]);
        r := Succeeded("Code submitted successfully");
      } else if action == Str("submitAnswer") {
        if uid.None? || faults.firstWriteThrows {
          r := Failure(500, INTERNAL_ERROR);
          return;
        }
        var entries := Entries(SingleAnswer(Prop(data, "questionId"), Prop(data, "answer")));
        if uid.value in db.submissions {
          var current := db.submissions[uid.value];
          db := db.(submissions := db.submissions[uid.value := current.(answers := entries, timeSpent := UpdatedTime(current.timeSpent, timeSpent))]);
        } else {
          db := db.(submissions := db.submissions[uid.value := ExamSubmission(uid.value, 0, timeSpent, entries)]);
        }
        r := Succeeded("Answer submitted successfully");
      } else {
        r := Failure(400, INVALID_ACTION);
      }
    }

    /** PATCH, writing its one audit row. */
    method Patch(cookie: Option<string>, body: Payload, now: string, faults: DbFaults) returns (r: Response)
      modifies this
      ensures r == ExamPatch(old(db), cookie, body, now, faults).response
      ensures db == ExamPatch(old(db), cookie, body, now, faults).db
    {
      if !SignedIn(cookie) {
        r := Failure(401, UNAUTHORIZED);
        return;
      }
      if body.Unparseable? || body.value.Null? || body.value.Undefined? {
        r := Failure(500, PROGRESS_ERROR);
        return;
      }
      var data := body.value;
      var length := CodeLength(Prop(data, "code"));
      var uid := ParseInt(cookie.value);
      if length.None? || uid.None? || faults.firstWriteThrows {
        r := Failure(500, PROGRESS_ERROR);
        return;
      }
      var details := JsonDetails([("questionId", Prop(data, "questionId")), ("codeLength", length.value), ("savedAt", Str(now))]);
      db := AppendLog(db, EventLog(uid.value, "CODE_PROGRESS", details));
      r := PROGRESS_SAVED;
    }
  }

  // ---------------------------------------------------------------------
  // Properties
  // ---------------------------------------------------------------------

  /** Without the cookie every verb answers 401 and nothing is written. */
  lemma NoCookieIs401(db: Db, cookie: Option<string>, body: Payload, now: string, faults: DbFaults)
    requires !SignedIn(cookie)
    ensures GetExam(cookie, now) == Denied(Failure(401, UNAUTHORIZED))
    ensures ExamPost(db, cookie, body, now, faults) == ExamResult(Failure(401, UNAUTHORIZED), db)
    ensures ExamPatch(db, cookie, body, now, faults) == ExamResult(Failure(401, UNAUTHORIZED), db)
  {
  }

  /** GET serves the three fixed javascript questions, with ids 1 to 3, and a two-hour limit. */
  lemma ExamIsFixed(cookie: Option<string>, now: string)
    requires SignedIn(cookie)
    ensures var r := GetExam(cookie, now);
      && r.Served? && r.timeLimit == 7200 && r.startTime == now && |r.questions| == 3
      && r.questions[0].title == "Two Sum" && r.questions[1].title == "Valid Palindrome" && r.questions[2].title == "Maximum Subarray"
      && r.questions[0].id == "1" && r.questions[1].id == "2" && r.questions[2].id == "3"
      && r.questions[2].difficulty == "Medium"
      && forall q :: q in r.questions ==> q.language == "javascript"
  {
  }

  /** An action other than the two known ones, or none at all, is answered with 400 and writes nothing. */
  lemma UnknownActionIs400(db: Db, cookie: Option<string>, data: JsValue, now: string, faults: DbFaults)
    requires SignedIn(cookie) && !data.Null? && !data.Undefined?
    requires Prop(data, "action") != Str("submitCode") && Prop(data, "action") != Str("submitAnswer")
    ensures ExamPost(db, cookie, Parsed(data), now, faults) == ExamResult(Failure(400, INVALID_ACTION), db)
  {
  }

  /**
   * `submitCode` appends one CODE_SUBMISSION row and then creates the
   * user's submission with score 0 and the serialized answers.
   */
  lemma SubmitCodeRecords(db: Db, cookie: Option<string>, data: JsValue, now: string, uid: int)
    requires SignedIn(cookie) && ParseInt(cookie.value) == Some(uid) && uid !in db.submissions
    requires !data.Null? && !data.Undefined? && Prop(data, "action") == Str("submitCode")
    ensures var answers, timeSpent := Prop(data, "answers"), Prop(data, "timeSpent");
      ExamPost(db, cookie, Parsed(data), now, NoFaults) ==
      ExamResult(Succeeded("Code submitted successfully"),
                 db.(eventLogs := db.eventLogs + [EventLog(uid, "CODE_SUBMISSION", SubmissionDetails(answers, timeSpent, now))],
                     submissions := db.submissions[uid := ExamSubmission(uid, 0, timeSpent, Serialized(answers))]))
  {
  }

  /** The stored submission of a first `submitCode`, for a body whose fields are known. */
  lemma SubmitCodeStores(db: Db, cookie: Option<string>, data: JsValue, now: string, uid: int, answers: JsValue, timeSpent: JsValue)
    requires SignedIn(cookie) && ParseInt(cookie.value) == Some(uid) && uid !in db.submissions
    requires !data.Null? && !data.Undefined? && Prop(data, "action") == Str("submitCode")
    requires Prop(data, "answers") == answers && Prop(data, "timeSpent") == timeSpent
    ensures var r := ExamPost(db, cookie, Parsed(data), now, NoFaults);
      && r.response == Succeeded("Code submitted successfully")
      && r.db.submissions == db.submissions[uid := ExamSubmission(uid, 0, timeSpent, Serialized(answers))]
  {
    SubmitCodeRecords(db, cookie, data, now, uid);
  }

  /**
   * A second `submitCode` by the same user keeps its audit row but its
   * submission cannot be created: the request fails with 500 and the first
   * submission stays.
   */
  lemma SecondSubmitCodeFails(db: Db, cookie: Option<string>, data: JsValue, now: string, uid: int)
    requires SignedIn(cookie) && ParseInt(cookie.value) == Some(uid) && uid in db.submissions
    requires !data.Null? && !data.Undefined? && Prop(data, "action") == Str("submitCode")
    ensures var r := ExamPost(db, cookie, Parsed(data), now, NoFaults);
      r.response == Failure(500, INTERNAL_ERROR) && r.db.submissions == db.submissions && |r.db.eventLogs| == |db.eventLogs| + 1
  {
  }

  /**
   * `submitAnswer` upserts by user id: a new submission has score 0; an
   * existing one keeps its score and gets its answers replaced by the one
   * entry sent (earlier answers are not merged in) and the new time spent.
   * No other user's submission and no other table changes.
   */
  lemma SubmitAnswerUpserts(db: Db, cookie: Option<string>, data: JsValue, now: string, uid: int)
    requires SignedIn(cookie) && ParseInt(cookie.value) == Some(uid)
    requires !data.Null? && !data.Undefined? && Prop(data, "action") == Str("submitAnswer")
    ensures var r, timeSpent := ExamPost(db, cookie, Parsed(data), now, NoFaults), Prop(data, "timeSpent");
      var entries := SingleAnswer(Prop(data, "questionId"), Prop(data, "answer"));
      && r.response == Succeeded("Answer submitted successfully")
      && r.db == db.(submissions := r.db.submissions)
      && r.db.submissions.Keys == db.submissions.Keys + {uid}
      && (forall k :: k in db.submissions && k != uid ==> r.db.submissions[k] == db.submissions[k])
      && r.db.submissions[uid].answers == Entries(entries)
      && r.db.submissions[uid].timeSpent ==
           (if uid in db.submissions && timeSpent.Undefined? then db.submissions[uid].timeSpent else timeSpent)
      && r.db.submissions[uid].userId == (if uid in db.submissions then db.submissions[uid].userId else uid)
      && r.db.submissions[uid].score == (if uid in db.submissions then db.submissions[uid].score else 0)
  {
    var entries := Entries(SingleAnswer(Prop(data, "questionId"), Prop(data, "answer")));
    var timeSpent := Prop(data, "timeSpent");
    var stored :=
      if uid in db.submissions then db.submissions[uid].(answers := entries, timeSpent := UpdatedTime(db.submissions[uid].timeSpent, timeSpent))
      else ExamSubmission(uid, 0, timeSpent, entries);
    SubmitAnswerStores(db, cookie, data, now, uid, stored);
  }

  lemma SubmitAnswerStores(db: Db, cookie: Option<string>, data: JsValue, now: string, uid: int, stored: ExamSubmission)
    requires SignedIn(cookie) && ParseInt(cookie.value) == Some(uid)
    requires !data.Null? && !data.Undefined? && Prop(data, "action") == Str("submitAnswer")
    requires var entries := Entries(SingleAnswer(Prop(data, "questionId"), Prop(data, "answer")));
      stored == if uid in db.submissions then db.submissions[uid].(answers := entries, timeSpent := UpdatedTime(db.submissions[uid].timeSpent, Prop(data, "timeSpent")))
                else ExamSubmission(uid, 0, Prop(data, "timeSpent"), entries)
    ensures ExamPost(db, cookie, Parsed(data), now, NoFaults) ==
      ExamResult(Succeeded("Answer submitted successfully"), db.(submissions := db.submissions[uid := stored]))
  {
    SubmitAnswerDispatched(db, cookie, data, now, uid);
  }

  /** A signed-in `submitAnswer` request reaches the upsert with the cookie's id. */
  lemma SubmitAnswerDispatched(db: Db, cookie: Option<string>, data: JsValue, now: string, uid: int)
    requires SignedIn(cookie) && ParseInt(cookie.value) == Some(uid)
    requires !data.Null? && !data.Undefined? && Prop(data, "action") == Str("submitAnswer")
    ensures ExamPost(db, cookie, Parsed(data), now, NoFaults) == SubmitAnswer(db, Some(uid), data, Prop(data, "timeSpent"), NoFaults)
  {
    assert "submitAnswer"[6] != "submitCode"[6];
  }

  /** Submitting two answers in a row keeps only the second. */
  lemma AnswersAreNotMerged(db: Db, cookie: Option<string>, a: JsValue, b: JsValue, now: string, uid: int)
    requires SignedIn(cookie) && ParseInt(cookie.value) == Some(uid)
    requires !a.Null? && !a.Undefined? && Prop(a, "action") == Str("submitAnswer")
    requires !b.Null? && !b.Undefined? && Prop(b, "action") == Str("submitAnswer")
    ensures var db2 := ExamPost(ExamPost(db, cookie, Parsed(a), now, NoFaults).db, cookie, Parsed(b), now, NoFaults).db;
      db2.submissions[uid].answers == Entries(SingleAnswer(Prop(b, "questionId"), Prop(b, "answer")))
  {
    SubmitAnswerUpserts(db, cookie, a, now, uid);
    SubmitAnswerUpserts(ExamPost(db, cookie, Parsed(a), now, NoFaults).db, cookie, b, now, uid);
  }

  /** PATCH with a string of code records its question id and its length in UTF-16 units, and nothing else changes. */
  lemma PatchLogsProgress(db: Db, cookie: Option<string>, data: JsValue, questionId: JsValue, code: string, now: string, uid: int)
    requires SignedIn(cookie) && ParseInt(cookie.value) == Some(uid)
    requires !data.Null? && !data.Undefined? && Prop(data, "code") == Str(code) && Prop(data, "questionId") == questionId
    ensures var r := ExamPatch(db, cookie, Parsed(data), now, NoFaults);
      && r.response == PROGRESS_SAVED
      && r.db == db.(eventLogs := db.eventLogs +
           [EventLog(uid, "CODE_PROGRESS", JsonDetails([("questionId", questionId), ("codeLength", Num(Utf16Length(code))), ("savedAt", Str(now))]))])
      && (!questionId.Undefined? ==> ("questionId", questionId) in r.db.eventLogs[|db.eventLogs|].details.entries)
      && ("codeLength", Num(Utf16Length(code))) in r.db.eventLogs[|db.eventLogs|].details.entries
  {
    var entries := [("questionId", questionId), ("codeLength", Num(Utf16Length(code))), ("savedAt", Str(now))];
    var log := EventLog(uid, "CODE_PROGRESS", JsonDetails(entries));
    assert CodeLength(Prop(data, "code")) == Some(Num(Utf16Length(code)));
    assert ExamPatch(db, cookie, Parsed(data), now, NoFaults) == ExamResult(PROGRESS_SAVED, AppendLog(db, log));
    assert entries[0] in entries && entries[1] in entries;
  }

  /** PATCH without any code fails with 500 and writes nothing. */
  lemma PatchWithoutCodeFails(db: Db, cookie: Option<string>, data: JsValue, now: string, faults: DbFaults)
    requires SignedIn(cookie) && !data.Null? && !data.Undefined?
    requires Prop(data, "code").Null? || Prop(data, "code").Undefined?
    ensures ExamPatch(db, cookie, Parsed(data), now, faults) == ExamResult(Failure(500, PROGRESS_ERROR), db)
  {
  }

  /** PATCH only ever appends to the audit log. */
  lemma PatchOnlyLogs(db: Db, cookie: Option<string>, body: Payload, now: string, faults: DbFaults)
    ensures var r := ExamPatch(db, cookie, body, now, faults);
      r.db == db || (r.db == db.(eventLogs := r.db.eventLogs) && |r.db.eventLogs| == |db.eventLogs| + 1 && db.eventLogs <= r.db.eventLogs)
  {
  }
}
