/**
 * The coding exam page `frontend/app/exam/page.tsx`: the HH:MM:SS clock,
 * the one-second countdown that submits when it runs out, the clamped
 * Previous and Next buttons, the editor's change handler with its
 * auto-save, and the submission with its reply.
 *
 * The page's state is a `Session`; each event handler is a step function
 * on it, and the class `ExamSession` performs the same steps on fields.
 * Requests the page sends are recorded in the session (`saves` for the
 * PATCH bodies, `posts` for the POST bodies) instead of being sent; the
 * replies come back as parameters. The one-second interval is an explicit
 * step; the auto-save delay is not modelled, so every change records its
 * PATCH body at once.
 */
module ExamPage {
  import opened Wrappers
  import opened Strings
  import opened JsValues
  import opened Store
  import ExamRoute

  /** Line 21: two hours, the value before the exam's own limit arrives. */
  const INITIAL_TIME_LEFT := 7200
  /** Line 57. */
  const LOAD_FAILED := "Failed to load exam questions"
  /** Line 108. */
  const SUBMIT_FAILED := "Failed to submit exam"
  /** Line 103. */
  const RESULTS_PATH := "/exam/results"

  // ---------------------------------------------------------------------
  // The clock, lines 63-68
  // ---------------------------------------------------------------------

  /** `formatTime`: hours, minutes within the hour and seconds within the minute, each padded to two digits. */
  function FormatHhMmSs(t: nat): string {
    Pad2(NatToDecimal(t / 3600)) + ":" + (Pad2(NatToDecimal(t % 3600 / 60)) + ":" + Pad2(NatToDecimal(t % 60)))
  }

  /** Splitting a number of seconds into hours, minutes and seconds loses nothing. */
  lemma ClockArithmetic(t: nat)
    ensures t % 3600 / 60 < 60 && t % 60 < 60
    ensures (t / 3600) * 3600 + (t % 3600 / 60) * 60 + t % 60 == t
  {
    var h, q := t / 3600, t % 3600;
    var m, sec := q / 60, q % 60;
    assert t == h * 3600 + q;
    assert q == m * 60 + sec && sec < 60;
    assert t == (h * 60 + m) * 60 + sec;
    MinuteRemainder(h * 60 + m, sec);
  }

  lemma MinuteRemainder(k: nat, sec: nat)
    requires sec < 60
    ensures (k * 60 + sec) % 60 == sec
  {
  }

  /**
   * `r` reads as a clock showing `t` seconds: two colons split it into
   * hours (at least two digits), minutes and seconds, the last two below
   * 60, and hours * 3600 + minutes * 60 + seconds is `t`.
   */
  predicate ReadsAsClock(r: string, t: nat) {
    var k := |r| - 6;
    && k >= 2 && r[k] == ':' && r[k + 3] == ':'
    && AllDigits(r[..k]) && AllDigits(r[k + 1..k + 3]) && AllDigits(r[k + 4..])
    && DecimalValue(r[k + 1..k + 3]) < 60 && DecimalValue(r[k + 4..]) < 60
    && DecimalValue(r[..k]) * 3600 + DecimalValue(r[k + 1..k + 3]) * 60 + DecimalValue(r[k + 4..]) == t
  }

  /** The clock reads back as the time it shows; hours take more than two digits past 99 hours. */
  lemma FormatHhMmSsDecomposes(t: nat)
    ensures ReadsAsClock(FormatHhMmSs(t), t)
  {
    var h, m, sec := t / 3600, t % 3600 / 60, t % 60;
    ClockArithmetic(t);
    var hh, mm, ss := Pad2(NatToDecimal(h)), Pad2(NatToDecimal(m)), Pad2(NatToDecimal(sec));
    Pad2Value(h);
    Pad2Value(m);
    Pad2Value(sec);
    SmallDecimal(m);
    SmallDecimal(sec);
    assert FormatHhMmSs(t) == hh + ":" + (mm + ":" + ss);
    ClockFields(t, hh, mm, ss, h, m, sec);
  }

  /** Three padded fields that read back as hours, minutes and seconds of `t` lay out as the clock. */
  lemma ClockFields(t: nat, hh: string, mm: string, ss: string, h: nat, m: nat, sec: nat)
    requires |hh| >= 2 && |mm| == 2 && |ss| == 2
    requires AllDigits(hh) && AllDigits(mm) && AllDigits(ss)
    requires DecimalValue(hh) == h && DecimalValue(mm) == m && DecimalValue(ss) == sec
    requires m < 60 && sec < 60 && h * 3600 + m * 60 + sec == t
    ensures ReadsAsClock(hh + ":" + (mm + ":" + ss), t)
  {
    ClockLayout(hh, mm, ss);
  }

  /** Where the two colons fall in `hh:mm:ss` with two-character minutes and seconds. */
  lemma ClockLayout(hh: string, mm: string, ss: string)
    requires |hh| >= 2 && |mm| == 2 && |ss| == 2
    ensures var r := hh + ":" + (mm + ":" + ss); var k := |r| - 6;
      && k == |hh| && r[k] == ':' && r[k + 3] == ':'
      && r[..k] == hh && r[k + 1..k + 3] == mm && r[k + 4..] == ss
  {
    var r := hh + ":" + (mm + ":" + ss);
    var k := |hh|;
    assert r[..k] == hh;
    assert r[k + 1..] == mm + ":" + ss;
    assert r[k + 1..k + 3] == (mm + ":" + ss)[..2];
    assert r[k + 4..] == (mm + ":" + ss)[3..];
  }

  // ---------------------------------------------------------------------
  // The countdown, lines 30-43
  // ---------------------------------------------------------------------

  /** The value the functional update of the interval returns, and whether it calls the submit handler. */
  datatype TickResult = TickResult(timeLeft: int, submits: bool)

  /**
   * One tick: a decrement clamped at zero, so the clock never goes
   * negative, and the exam is submitted exactly on the tick that shows 0.
   */
  function TimerTick(prev: int): (r: TickResult)
    ensures r.timeLeft >= 0
    ensures r.timeLeft == if prev - 1 > 0 then prev - 1 else 0
    ensures r.submits <==> r.timeLeft == 0
  {
    if prev <= 1 then TickResult(0, true) else TickResult(prev - 1, false)
  }

  // ---------------------------------------------------------------------
  // Request bodies, lines 79 and 94-97
  // ---------------------------------------------------------------------

  /** `answers` as `JSON.stringify` writes it: an object of strings. */
  function AnswersValue(answers: map<string, string>): (v: JsValue)
    ensures v.Obj? && v.fields.Keys == answers.Keys
    ensures forall q :: q in answers ==> v.fields[q] == Str(answers[q])
  {
    Obj(map q | q in answers :: Str(answers[q]))
  }

  /** The auto-save body `{ questionId, code }`. */
  function PatchBody(questionId: string, code: string): JsValue {
    Obj(map["questionId" := Str(questionId), "code" := Str(code)])
  }

  /** The submit body `{ answers, timeSpent: 7200 - timeLeft }`: it has no `action`. */
  function SubmitBody(answers: map<string, string>, timeLeft: int): JsValue {
    Obj(map["answers" := AnswersValue(answers), "timeSpent" := Num(INITIAL_TIME_LEFT - timeLeft)])
  }

  /**
   * The body the interval's submit sends. The interval is created once,
   * on the first render, so the submit handler it calls is that render's,
   * and it reads that render's `answers` (none) and `timeLeft` (7200).
   */
  function AutoSubmitBody(): JsValue {
    SubmitBody(map[], INITIAL_TIME_LEFT)
  }

  /** The submit body with the action the POST handler needs to store it. */
  function SubmitBodyCorrected(answers: map<string, string>, timeLeft: int): JsValue {
    Obj(map["action" := Str("submitCode"), "answers" := AnswersValue(answers), "timeSpent" := Num(INITIAL_TIME_LEFT - timeLeft)])
  }

  // ---------------------------------------------------------------------
  // The page's state and its event handlers
  // ---------------------------------------------------------------------

  datatype Session = Session(
    questionCount: int,
    index: int,
    timeLeft: int,
    timerRunning: bool,
    answers: map<string, string>,
    saves: seq<JsValue>,
    posts: seq<JsValue>,
    error: JsValue,
    destination: Option<string>,
    loading: bool)

  /** Lines 18-23: no questions yet, the first index, two hours, the interval set, nothing sent. */
  function NewSession(): Session {
    Session(0, 0, INITIAL_TIME_LEFT, true, map[], [], [], Str(""), None, true)
  }

  /**
   * `fetchExamQuestions`, lines 45-61: a served exam sets the questions and
   * the clock to its limit, a refusal shows its message, a failed request
   * shows `LOAD_FAILED` (None); loading ends in every case.
   */
  function Loaded(s: Session, reply: Option<ExamRoute.ExamReply>): Session {
    match reply
    case None => s.(error := Str(LOAD_FAILED), loading := false)
    case Some(Served(questions, limit, _)) => s.(questionCount := |questions|, timeLeft := limit, loading := false)
    case Some(Denied(response)) => s.(error := Prop(Obj(response.body), "message"), loading := false)
  }

  /** One tick of the interval; once it has been cleared nothing happens. */
  function Ticked(s: Session): Session {
    if !s.timerRunning then s
    else
      var t := TimerTick(s.timeLeft);
      s.(timeLeft := t.timeLeft, timerRunning := !t.submits,
         posts := if t.submits then s.posts + [AutoSubmitBody()] else s.posts)
  }

  /** `n` ticks. */
  function TickedN(s: Session, n: nat): Session {
    if n == 0 then s else Ticked(TickedN(s, n - 1))
  }

  /**
   * `handleCodeChange`, lines 70-87: the edited question's answer is
   * replaced and a save of that one answer is scheduled. The cleanup
   * function it returns is never called, so every change gets its own save.
   */
  function CodeChanged(s: Session, questionId: string, code: string): (r: Session)
    ensures r.answers.Keys == s.answers.Keys + {questionId} && r.answers[questionId] == code
    ensures forall q :: q in s.answers && q != questionId ==> r.answers[q] == s.answers[q]
    ensures r.saves == s.saves + [PatchBody(questionId, code)]
    ensures r == s.(answers := r.answers, saves := r.saves)
  {
    s.(answers := s.answers[questionId := code], saves := s.saves + [PatchBody(questionId, code)])
  }

  /** The edits applied in order. */
  function Edited(s: Session, edits: seq<(string, string)>): Session
    decreases |edits|
  {
    if edits == [] then s
    else
      var last := edits[|edits| - 1];
      CodeChanged(Edited(s, edits[..|edits| - 1]), last.0, last.1)
  }

  /** The Previous button, line 180. */
  function Previous(s: Session): Session {
    s.(index := if s.index - 1 > 0 then s.index - 1 else 0)
  }

  /** The Next button, line 196. */
  function Next(s: Session): Session {
    s.(index := if s.questionCount - 1 < s.index + 1 then s.questionCount - 1 else s.index + 1)
  }

  /** `n` presses of Next. */
  function NextN(s: Session, n: nat): Session {
    if n == 0 then s else Next(NextN(s, n - 1))
  }

  /** Line 187: the last question shows Submit Exam in place of Next. */
  predicate SubmitShown(s: Session) {
    s.index == s.questionCount - 1
  }

  /** `handleSubmitExam` sending its body, lines 89-98, called from the button with the current state. */
  function Submitted(s: Session): Session {
    s.(posts := s.posts + [SubmitBody(s.answers, s.timeLeft)])
  }

  /**
   * The reply to a submission, lines 100-109: success navigates to the
   * results, any other reply shows its message, a failed request or an
   * unreadable reply (None) shows `SUBMIT_FAILED`.
   */
  function SubmitAnswered(s: Session, reply: Option<Response>): Session {
    match reply
    case None => s.(error := Str(SUBMIT_FAILED))
    case Some(response) =>
      var data := Obj(response.body);
      if Truthy(Prop(data, "success")) then s.(destination := Some(RESULTS_PATH))
      else s.(error := Prop(data, "message"))
  }

  /** The page shows only its error once one is set (lines 118-122). */
  predicate ShowsError(s: Session) {
    !s.loading && Truthy(s.error)
  }

  // ---------------------------------------------------------------------
  // Properties of the page
  // ---------------------------------------------------------------------

  /**
   * A running countdown from `t >= 1` seconds counts down by one a tick for
   * `t - 1` ticks without submitting; tick `t` shows 0, stops the interval
   * and sends exactly one submission; later ticks change nothing. The
   * answers and the question shown are untouched throughout.
   */
  lemma {:induction false} CountdownSubmitsOnce(s: Session, n: nat)
    requires s.timerRunning && s.timeLeft >= 1
    ensures var r := TickedN(s, n);
      && r.answers == s.answers && r.index == s.index && r.saves == s.saves
      && r.timeLeft >= 0
      && (n < s.timeLeft ==> r.timerRunning && r.timeLeft == s.timeLeft - n && r.posts == s.posts)
      && (n >= s.timeLeft ==> !r.timerRunning && r.timeLeft == 0 && r.posts == s.posts + [AutoSubmitBody()])
  {
    if n > 0 {
      CountdownSubmitsOnce(s, n - 1);
    }
  }

  /**
   * The timer's submission carries no answers and a time spent of 0,
   * whatever the candidate has written and however long the exam ran.
   */
  lemma TimerSubmitsInitialState(s: Session)
    requires s.timerRunning && s.timeLeft <= 1
    ensures var r := Ticked(s);
      && |r.posts| == |s.posts| + 1
      && Prop(r.posts[|s.posts|], "answers") == Obj(map[])
      && Prop(r.posts[|s.posts|], "timeSpent") == Num(0)
      && (s.answers != map[] ==> r.posts[|s.posts|] != SubmitBody(s.answers, 0))
  {
    if s.answers != map[] {
      var q :| q in s.answers;
      assert q in AnswersValue(s.answers).fields.Keys;
      assert AnswersValue(s.answers) != AnswersValue(map[]);
    }
  }

  /** The corrected tick: the time ran out, so the whole limit was spent, and the current answers go with it. */
  function TickedCorrected(s: Session): Session {
    if !s.timerRunning then s
    else
      var t := TimerTick(s.timeLeft);
      s.(timeLeft := t.timeLeft, timerRunning := !t.submits,
         posts := if t.submits then s.posts + [SubmitBodyCorrected(s.answers, 0)] else s.posts)
  }

  /**
   * With the corrected tick the timed-out submission is stored: the
   * signed-in user's submission holds the session's answers and a time
   * spent of the whole two hours, and the page goes to the results.
   */
  lemma CorrectedTimerSubmitsAnswers(s: Session, db: Db, cookie: Option<string>, now: string, uid: int)
    requires s.timerRunning && s.timeLeft <= 1
    requires ExamRoute.SignedIn(cookie) && ParseInt(cookie.value) == Some(uid) && uid !in db.submissions
    ensures TickedCorrected(s).posts == s.posts + [SubmitBodyCorrected(s.answers, 0)]
    ensures var r := ExamRoute.ExamPost(db, cookie, Parsed(SubmitBodyCorrected(s.answers, 0)), now, NoFaults);
      && r.db.submissions == db.submissions[uid := ExamSubmission(uid, 0, Num(7200), Serialized(AnswersValue(s.answers)))]
      && SubmitAnswered(s, Some(r.response)).destination == Some(RESULTS_PATH)
  {
    CorrectedTickPosts(s);
    CorrectedTimeoutStored(s.answers, db, cookie, now, uid);
    SuccessShowsResults(s, "Code submitted successfully");
  }

  lemma CorrectedTickPosts(s: Session)
    requires s.timerRunning && s.timeLeft <= 1
    ensures TickedCorrected(s).posts == s.posts + [SubmitBodyCorrected(s.answers, 0)]
  {
    assert TimerTick(s.timeLeft).submits;
  }

  /** The timed-out corrected body is stored with the whole two hours as time spent. */
  lemma CorrectedTimeoutStored(answers: map<string, string>, db: Db, cookie: Option<string>, now: string, uid: int)
    requires ExamRoute.SignedIn(cookie) && ParseInt(cookie.value) == Some(uid) && uid !in db.submissions
    ensures var r := ExamRoute.ExamPost(db, cookie, Parsed(SubmitBodyCorrected(answers, 0)), now, NoFaults);
      && r.response == ExamRoute.Succeeded("Code submitted successfully")
      && r.db.submissions == db.submissions[uid := ExamSubmission(uid, 0, Num(7200), Serialized(AnswersValue(answers)))]
  {
    CorrectedBodyFields(answers, 0);
    ExamRoute.SubmitCodeStores(db, cookie, SubmitBodyCorrected(answers, 0), now, uid, AnswersValue(answers), Num(7200));
  }

  /** The corrected submit body names the `submitCode` action and carries the answers and the time spent. */
  lemma CorrectedBodyFields(answers: map<string, string>, timeLeft: int)
    ensures var body := SubmitBodyCorrected(answers, timeLeft);
      && body.Obj? && Prop(body, "action") == Str("submitCode")
      && Prop(body, "answers") == AnswersValue(answers) && Prop(body, "timeSpent") == Num(INITIAL_TIME_LEFT - timeLeft)
  {
    assert "action"[1] != "answers"[1] && "action"[0] != "timeSpent"[0] && "answers"[0] != "timeSpent"[0];
  }

  /**
   * Prev never goes below the first question and Next never past the
   * last; each moves by one exactly when there is somewhere to go, and the
   * button shown at the last question is Submit Exam.
   */
  lemma NavigationClamps(s: Session)
    requires 0 <= s.index < s.questionCount
    ensures 0 <= Previous(s).index < s.questionCount && 0 <= Next(s).index < s.questionCount
    ensures Previous(s).index == s.index - 1 <==> s.index > 0
    ensures Previous(s).index == s.index <==> s.index == 0
    ensures Next(s).index == s.index + 1 <==> !SubmitShown(s)
    ensures Next(s).index == s.index <==> SubmitShown(s)
    ensures Previous(s) == s.(index := Previous(s).index) && Next(s) == s.(index := Next(s).index)
  {
  }

  /** Pressing Next `n` times from a valid question lands on question `min(last, index + n)`: the Submit button is reached after `count - 1 - index` presses. */
  lemma {:induction false} NextReachesLast(s: Session, n: nat)
    requires 0 <= s.index < s.questionCount
    ensures NextN(s, n).index == if s.index + n < s.questionCount - 1 then s.index + n else s.questionCount - 1
    ensures NextN(s, n) == s.(index := NextN(s, n).index)
    ensures n >= s.questionCount - 1 - s.index ==> SubmitShown(NextN(s, n))
  {
    if n > 0 {
      NextReachesLast(s, n - 1);
    }
  }

  /**
   * Every edit is saved, in the order made: `k` edits schedule `k` saves,
   * the i-th carrying the i-th edit, and nothing but the answers and the
   * saves changes.
   */
  lemma {:induction false} EveryEditIsSaved(s: Session, edits: seq<(string, string)>)
    ensures var r := Edited(s, edits);
      && |r.saves| == |s.saves| + |edits| && s.saves <= r.saves
      && (forall i :: 0 <= i < |edits| ==> r.saves[|s.saves| + i] == PatchBody(edits[i].0, edits[i].1))
      && r == s.(answers := r.answers, saves := r.saves)
    decreases |edits|
  {
    if edits != [] {
      var init := edits[..|edits| - 1];
      EveryEditIsSaved(s, init);
      var mid := Edited(s, init);
      var r := Edited(s, edits);
      var last := edits[|edits| - 1];
      assert r == CodeChanged(mid, last.0, last.1);
      assert r.saves == mid.saves + [PatchBody(last.0, last.1)];
      forall i | 0 <= i < |edits|
        ensures r.saves[|s.saves| + i] == PatchBody(edits[i].0, edits[i].1)
      {
        if i < |init| {
          assert r.saves[|s.saves| + i] == mid.saves[|s.saves| + i];
          assert mid.saves[|s.saves| + i] == PatchBody(init[i].0, init[i].1);
          assert init[i] == edits[i];
        } else {
          assert |s.saves| + i == |mid.saves| && last == edits[i];
        }
      }
      assert r == s.(answers := r.answers, saves := r.saves) by {
        assert r == mid.(answers := r.answers, saves := r.saves);
      }
    }
  }

  /** A question's answer is its last edit: later edits of other questions leave it alone. */
  lemma {:induction false} LastEditWins(s: Session, edits: seq<(string, string)>, i: nat)
    requires i < |edits| && forall j :: i < j < |edits| ==> edits[j].0 != edits[i].0
    ensures edits[i].0 in Edited(s, edits).answers && Edited(s, edits).answers[edits[i].0] == edits[i].1
    decreases |edits|
  {
    var init := edits[..|edits| - 1];
    if i < |edits| - 1 {
      assert init[i] == edits[i];
      assert forall j :: i < j < |init| ==> init[j] == edits[j];
      LastEditWins(s, init, i);
    }
  }

  /** A signed-in user's auto-save is logged with the edited question's id and the length of its code. */
  lemma AutoSaveIsLogged(db: Db, cookie: Option<string>, questionId: string, code: string, now: string, uid: int)
    requires ExamRoute.SignedIn(cookie) && ParseInt(cookie.value) == Some(uid)
    ensures var r := ExamRoute.ExamPatch(db, cookie, Parsed(PatchBody(questionId, code)), now, NoFaults);
      && r.response == ExamRoute.PROGRESS_SAVED
      && |r.db.eventLogs| == |db.eventLogs| + 1 && r.db.eventLogs[|db.eventLogs|].details.Json?
      && ("questionId", Str(questionId)) in r.db.eventLogs[|db.eventLogs|].details.entries
      && ("codeLength", Num(Utf16Length(code))) in r.db.eventLogs[|db.eventLogs|].details.entries
  {
    PatchBodyFields(questionId, code);
    ExamRoute.PatchLogsProgress(db, cookie, PatchBody(questionId, code), Str(questionId), code, now, uid);
  }

  lemma PatchBodyFields(questionId: string, code: string)
    ensures var data := PatchBody(questionId, code);
      data.Obj? && Prop(data, "code") == Str(code) && Prop(data, "questionId") == Str(questionId)
  {
    assert "questionId"[0] != "code"[0];
  }

  /**
   * The page's submission is refused: the POST handler finds no known
   * action, answers 400 and stores nothing, and the page shows
   * "Invalid action" instead of going to the results.
   */
  lemma SubmitIsRejected(s: Session, db: Db, cookie: Option<string>, now: string, faults: DbFaults)
    requires ExamRoute.SignedIn(cookie)
    ensures var body := Submitted(s).posts[|s.posts|];
      var r := ExamRoute.ExamPost(db, cookie, Parsed(body), now, faults);
      && r.db == db && r.response.status == 400
      && SubmitAnswered(s, Some(r.response)) == s.(error := Str(ExamRoute.INVALID_ACTION))
  {
    var body := SubmitBody(s.answers, s.timeLeft);
    assert Submitted(s).posts[|s.posts|] == body;
    assert Prop(body, "action") == Undefined;
    ExamRoute.UnknownActionIs400(db, cookie, body, now, faults);
  }

  /**
   * With the action added the submission is stored: the user's first
   * submission holds the session's answers and the time spent, and the page
   * goes to the results.
   */
  lemma CorrectedSubmitIsRecorded(s: Session, db: Db, cookie: Option<string>, now: string, uid: int)
    requires ExamRoute.SignedIn(cookie) && ParseInt(cookie.value) == Some(uid) && uid !in db.submissions
    ensures var r := ExamRoute.ExamPost(db, cookie, Parsed(SubmitBodyCorrected(s.answers, s.timeLeft)), now, NoFaults);
      && r.db.submissions == db.submissions[uid := ExamSubmission(uid, 0, Num(7200 - s.timeLeft), Serialized(AnswersValue(s.answers)))]
      && SubmitAnswered(s, Some(r.response)) == s.(destination := Some(RESULTS_PATH))
  {
    CorrectedBodyStored(s.answers, s.timeLeft, db, cookie, now, uid);
    SuccessShowsResults(s, "Code submitted successfully");
  }

  /** The endpoint's reply to the corrected body, and the submission it stores. */
  lemma CorrectedBodyStored(answers: map<string, string>, timeLeft: int, db: Db, cookie: Option<string>, now: string, uid: int)
    requires ExamRoute.SignedIn(cookie) && ParseInt(cookie.value) == Some(uid) && uid !in db.submissions
    ensures var r := ExamRoute.ExamPost(db, cookie, Parsed(SubmitBodyCorrected(answers, timeLeft)), now, NoFaults);
      && r.response == ExamRoute.Succeeded("Code submitted successfully")
      && r.db.submissions == db.submissions[uid := ExamSubmission(uid, 0, Num(7200 - timeLeft), Serialized(AnswersValue(answers)))]
  {
    CorrectedBodyFields(answers, timeLeft);
    assert Num(INITIAL_TIME_LEFT - timeLeft) == Num(7200 - timeLeft);
    ExamRoute.SubmitCodeStores(db, cookie, SubmitBodyCorrected(answers, timeLeft), now, uid, AnswersValue(answers), Num(7200 - timeLeft));
  }

  /** Any success reply of the POST handler takes the page to the results. */
  lemma SuccessShowsResults(s: Session, message: string)
    ensures SubmitAnswered(s, Some(ExamRoute.Succeeded(message))) == s.(destination := Some(RESULTS_PATH))
  {
    assert Prop(Obj(ExamRoute.Succeeded(message).body), "success") == Bool(true);
  }

  /**
   * Loading the exam while signed in shows its three questions on a clock
   * of two hours; signed out, the page shows only "Unauthorized".
   */
  lemma LoadingSetsTheExam(s: Session, cookie: Option<string>, now: string)
    ensures var r := Loaded(s, Some(ExamRoute.GetExam(cookie, now)));
      && !r.loading
      && (ExamRoute.SignedIn(cookie) ==> r.questionCount == 3 && r.timeLeft == 7200 && r.error == s.error)
      && (!ExamRoute.SignedIn(cookie) ==> r.error == Str(ExamRoute.UNAUTHORIZED) && ShowsError(r))
  {
    if ExamRoute.SignedIn(cookie) {
      ExamRoute.ExamIsFixed(cookie, now);
    }
  }

  // ---------------------------------------------------------------------
  // The same handlers on the component's state
  // ---------------------------------------------------------------------

  class ExamSession {
    var questionCount: int
    var index: int
    var timeLeft: int
    var timerRunning: bool
    var answers: map<string, string>
    var saves: seq<JsValue>
    var posts: seq<JsValue>
    var error: JsValue
    var destination: Option<string>
    var loading: bool

    function Snapshot(): Session
      reads this
    {
      Session(questionCount, index, timeLeft, timerRunning, answers, saves, posts, error, destination, loading)
    }

    constructor ()
      ensures Snapshot() == NewSession()
    {
      questionCount, index := 0, 0;
      timeLeft, timerRunning := INITIAL_TIME_LEFT, true;
      answers, saves, posts := map[], [], [];
      error, destination, loading := Str(""), None, true;
    }

    method OnLoaded(reply: Option<ExamRoute.ExamReply>)
      modifies this
      ensures Snapshot() == Loaded(old(Snapshot()), reply)
    {
      match reply {
        case None => error := Str(LOAD_FAILED);
        case Some(Served(questions, limit, _)) =>
          questionCount := |questions|;
          timeLeft := limit;
        case Some(Denied(response)) => error := Prop(Obj(response.body), "message");
      }
      loading := false;
    }

    method OnTick()
      modifies this
      ensures Snapshot() == Ticked(old(Snapshot()))
    {
      if timerRunning {
        if timeLeft <= 1 {
          timerRunning := false;
          timeLeft := 0;
          posts := posts + [AutoSubmitBody()];
        } else {
          timeLeft := timeLeft - 1;
        }
      }
    }

    method OnCodeChange(questionId: string, code: string)
      modifies this
      ensures Snapshot() == CodeChanged(old(Snapshot()), questionId, code)
    {
      answers := answers[questionId := code];
      saves := saves + [PatchBody(questionId, code)];
    }

    method OnPrevious()
      modifies this
      ensures Snapshot() == Previous(old(Snapshot()))
    {
      if index - 1 > 0 { index := index - 1; } else { index := 0; }
    }

    method OnNext()
      modifies this
      ensures Snapshot() == Next(old(Snapshot()))
    {
      if questionCount - 1 < index + 1 { index := questionCount - 1; } else { index := index + 1; }
    }

    method OnSubmit()
      modifies this
      ensures Snapshot() == Submitted(old(Snapshot()))
    {
      posts := posts + [SubmitBody(answers, timeLeft)];
    }

    method OnSubmitAnswered(reply: Option<Response>)
      modifies this
      ensures Snapshot() == SubmitAnswered(old(Snapshot()), reply)
    {
      match reply {
        case None => error := Str(SUBMIT_FAILED);
        case Some(response) =>
          var data := Obj(response.body);
          if Truthy(Prop(data, "success")) {
            destination := Some(RESULTS_PATH);
          } else {
            error := Prop(data, "message");
          }
      }
    }
  }
}
