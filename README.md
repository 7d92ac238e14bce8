# TGBH_CheeseBurger exam platform, modelled in Dafny

The platform runs proctored coding exams. A Next.js front end serves the
exam pages and a set of API routes (sign-up, login, the current user, exam
questions and submissions, telemetry events). A separate WebSocket server
receives the telemetry a candidate's browser reports while the exam runs:
keystrokes, mouse movements, tab switches and heartbeats. Two Python
services sit beside it. A security-audit planner checks a target scope,
queues scan tasks, runs them and plans follow-ups. A code-similarity
service scores a candidate's code against reference solutions that
language models generate.

This project models the decision logic and the state updates of those
parts and proves what their code promises. It has one module per source
file, plus four shared modules:

- `Wrappers`: `Option`.
- `Strings`: the JavaScript and Python string primitives (decimal
  rendering, `padStart`, UTF-16 `.length`, `trim()`, `parseInt`,
  `Number` on strings, ASCII lower-casing, substring search).
- `JsValues`: decoded JSON values with JavaScript truthiness, `String`,
  `Number` and property access.
- `Store`: the database as plain values (append-only telemetry and audit
  tables, accounts, submissions keyed by user id), an HTTP reply as a
  status code plus JSON body fields, and `DbFaults`, the points at which a
  database call throws.

Where the source changes state in place, the model does the same: the
socket server (`WebSocketServer.TelemetryServer`), the sign-up limiter
(`SignupRoute.SignupService`), the exam endpoint (`ExamRoute.ExamApi`),
the audit state (`AuditPlanner.AuditState`), the similarity pipeline
(`CodeSimilarity.Pipeline`), the exam page (`ExamPage.ExamSession`) and
the stream page's client (`StreamPage.StreamClient`). Each is a class
whose methods are proved against a step function on values, and the
properties are lemmas about those functions.

Everything outside the program is a parameter:

- the clock (`now`, the formatted date strings);
- bcrypt (`hash`, `matches`);
- database failures (`DbFaults`);
- the language models' answers (a solution, an evaluator's text, a
  planned or follow-up task list);
- the scanners' outcomes;
- Python's `ipaddress` checks (`AuditScope.IpOracle`);
- the replies a page receives from `fetch`;
- browser events and timer firings, which are explicit steps.

## Model

| member | source | states |
|---|---|---|
| Strings.DecimalRoundTrip | frontend/app/api/login/route.ts:63 | reading the decimal rendering of a natural number gives back that number |
| Strings.DecimalInjective | frontend/app/api/login/route.ts:63 | two naturals with the same decimal rendering are equal, so distinct ids give distinct cookie values |
| Strings.LeadingZeroValue | frontend/app/api/me/route.ts:26 | leading zeros do not change the value of a digit string |
| Strings.IntToString | frontend/app/api/login/route.ts:63 | `String(i)` of an integer is its decimal digits, with a leading `-` exactly for a negative number |
| Strings.Pad2Value | frontend/app/exam/page.tsx:63-68 | a number padded to two digits still reads back as the number |
| Strings.SmallDecimal | frontend/app/exam/page.tsx:63-68 | a number below 100 renders in one or two digits, so padding gives exactly two |
| Strings.Utf16LengthOfEmpty | frontend/app/api/login/route.ts:13 | only the empty string has `.length` zero |
| Strings.Utf16LengthOfBmp | frontend/app/api/login/route.ts:13 | without characters outside the Basic Multilingual Plane `.length` is the number of characters |
| Strings.Trim | frontend/app/api/login/route.ts:27 | `trim()` gives a string no longer than its input that neither starts nor ends with whitespace |
| Strings.TrimDropsOnlyWhitespace | frontend/app/api/login/route.ts:27 | `trim()` keeps one contiguous slice of the input, and everything it drops before and after that slice is whitespace |
| Strings.TrimIdempotent | frontend/app/api/login/route.ts:13-27 | trimming the trimmed username again changes nothing, so the length check and the lookup see the same name |
| Strings.TrimNoWhitespace | frontend/app/api/login/route.ts:27 | a string with no whitespace at either end is left alone by `trim()` |
| Strings.ParseIntOfIntToString | frontend/app/api/me/route.ts:26 | `parseInt` reads back every integer that `String` writes (the cookie value of login's line 63) |
| Strings.ParseIntLeadingDigits | frontend/app/api/me/route.ts:26 | `parseInt` reads the leading number and ignores whatever follows its digits |
| Strings.StringToNumberOfIntToString | frontend/websocket/index.ts:36 | `Number` reads back every integer that `String` writes |
| Strings.IntToStringIsTrimmed | frontend/websocket/index.ts:36 | `String(i)` has no surrounding whitespace, so `Number` does not trim anything from it |
| Strings.AsciiLowerChars | intelligence/app/main.py:71 | lower-casing works character by character, keeps the length and leaves no upper-case letter |
| Strings.ContainsInMiddle | frontend/app/login/page.tsx:49 | a needle placed anywhere inside a concatenation is found by `includes` |
| Strings.ContainsWithin | frontend/app/login/page.tsx:49 | what a string contains, any string ending with it contains too |
| JsValues.ToJsString | frontend/websocket/index.ts:77 | a template literal inserts a string unchanged and an integer in decimal |
| JsValues.ToNumber | frontend/websocket/index.ts:36 | `Number` keeps an integer, maps `null` to 0 and `undefined` or an object to NaN |
| JsValues.Or | frontend/websocket/index.ts:68 | `x \|\| y` is `x` exactly when `x` is truthy, otherwise `y` |
| JsValues.StringOrEmpty | frontend/websocket/index.ts:68 | `String(x \|\| '')` is empty for a falsy value, keeps a string, and is `String(x)` for any truthy value |
| JsValues.NumberOrZero | frontend/websocket/index.ts:91-92 | `Number(x \|\| 0)` is 0 for a falsy value, keeps an integer, and is `Number(x)` for any truthy value |
| JsValues.Get | frontend/websocket/index.ts:36 | reading a property throws exactly on `null` and `undefined`; an object gives the field or `undefined` |
| JsValues.NumberOfDecimalString | frontend/websocket/index.ts:36 | `Number` of the decimal string of an integer is that integer |
| Store.FindById | frontend/app/api/me/route.ts:38-40 | the lookup by id finds an account of the table with that id, and finds none exactly when no account has it |
| Store.FindByUsername | frontend/app/api/login/route.ts:30-32 | the lookup by username finds an account with that name, and finds none exactly when no account has it |
| Store.FindByIdOfMember | frontend/app/api/me/route.ts:38-40 | with unique ids, looking up the id of any account finds that very account |
| Store.FindByUsernameOfNew | frontend/app/api/signup/route.ts:120-140 | an account appended under a name no earlier account has is what the lookup by that name finds |
| Store.Failure | frontend/app/api/login/route.ts:14-17 | every error reply is `{ success: false, message }` with exactly those two fields and the given status |
| Strings.NatToDecimal | frontend/app/api/login/route.ts:63 | `toString()` of a natural number is a non-empty digit string without leading zero |
| Strings.Pad2 | frontend/app/exam/page.tsx:67 | `padStart(2, '0')` leaves a string of two or more characters alone and otherwise left-fills it with zeros to exactly two, keeping the string at the end |
| Strings.Utf16Length | frontend/app/api/login/route.ts:13 | `.length` counts UTF-16 units: between the number of characters and twice that |
| Strings.TrimStart | frontend/app/api/login/route.ts:27 | dropping leading whitespace leaves a suffix of the input that does not start with whitespace |
| Strings.TrimEnd | frontend/app/api/login/route.ts:27 | dropping trailing whitespace leaves a prefix of the input that does not end with whitespace |
| Strings.TrimDropsTrailingWhitespace | frontend/app/api/login/route.ts:27 | everything `trim()` drops after the slice it keeps is whitespace |
| Strings.SplitSignOfIntToString | frontend/app/api/me/route.ts:26 | on the decimal rendering of an integer, the sign `parseInt` reads is the integer's sign and the rest is the digits of its magnitude |
| Strings.ParseUnsigned | frontend/app/api/me/route.ts:26 | after the sign, `parseInt` reads a canonical digit string as its decimal value |
| LoginRoute.FormatChecks | frontend/app/api/login/route.ts:13-25 | a username failing its check gives the 400 `Invalid username format` whatever the password; a good username with a bad password gives `Invalid password format`; neither writes anything |
| LoginRoute.UniformRejection | frontend/app/api/login/route.ts:30-48 | for well-formed credentials, the reply is the one 401 `Invalid username or password` with no write exactly when the name is unknown or the password does not match |
| LoginRoute.UsernameIsTrimmed | frontend/app/api/login/route.ts:13-32 | two bodies differing only by whitespace around the username get the same result |
| LoginRoute.TrimmedUsernameAccepted | frontend/app/api/login/route.ts:13 | a username passes its check exactly when its trimmed form does |
| LoginRoute.UsernameAcceptedIffLong | frontend/app/api/login/route.ts:13 | a string username passes exactly when its trimmed form has at least three UTF-16 units |
| LoginRoute.PasswordAcceptedIffLong | frontend/app/api/login/route.ts:20 | a string password passes exactly when it is non-empty and has at least eight UTF-16 units |
| LoginRoute.LoginUnfolds | frontend/app/api/login/route.ts:10-27 | on an object body the handler is the username check, then the password check, then the credentials check on the trimmed name |
| LoginRoute.OnlySuccessLeavesATrace | frontend/app/api/login/route.ts:50-75 | the cookie is set exactly on a 200; every other reply reports `success: false` and writes nothing; a 200 appends one `LOGIN` row for an account of the table and sets the HTTP-only, strict, site-wide, one-week `userId` cookie holding its id in decimal |
| LoginRoute.AuthenticateTrace | frontend/app/api/login/route.ts:27-75 | the same trace facts for the lookup, password comparison and writes that follow the format checks |
| LoginRoute.SuccessIdentifiesAccount | frontend/app/api/login/route.ts:30-75 | a 200 means the body was well formed, the trimmed name found an account, its hash matched the password, and the reply and cookie carry that account's id while the accounts table is unchanged |
| MeRoute.NoCookieIs401 | frontend/app/api/me/route.ts:12-22 | a missing or empty `userId` cookie is answered with 401 `Not authenticated` |
| MeRoute.UnparseableIdIs400 | frontend/app/api/me/route.ts:26-36 | a cookie in which `parseInt` finds no number is answered with 400 `Invalid user ID format` |
| MeRoute.TrailingCharactersIgnored | frontend/app/api/me/route.ts:26 | a cookie such as `12abc` gets the same reply as `12` |
| MeRoute.SameIdSameReply | frontend/app/api/me/route.ts:26-59 | the reply depends on a non-empty cookie only through the id `parseInt` reads from it |
| MeRoute.LookupOutcomes | frontend/app/api/me/route.ts:38-69 | a lookup that throws gives 500; an id with no account gives 404; a found account gives 200 with exactly `success`, `id` and `username`, taken from an account with that id |
| MeRoute.ProfileFields | frontend/app/api/me/route.ts:52-58 | the profile reply has status 200 and exactly the fields `success: true`, `id` and `username` of the account |
| MeRoute.StatusCodes | frontend/app/api/me/route.ts:5-80 | the status is one of 200, 400, 401, 404 and 500, and `success` is true exactly on 200 |
| MeRoute.LoginThenMe | frontend/app/api/me/route.ts:12-59 | after a successful login, sending back the cookie it set brings the profile of the account the login reported, when account ids are unique |
| MeRoute.MeOfSession | frontend/app/api/me/route.ts:26-59 | the decimal id of an account of a table with unique ids brings back that account's profile |
| WebSocketServer.AddressedTo | frontend/websocket/index.ts:133 | every reply of a frame goes to the socket the frame came from, in order |
| WebSocketServer.TelemetryServer.constructor | frontend/websocket/index.ts:13 | the server starts with no clients and nothing sent |
| WebSocketServer.TelemetryServer.Accept | frontend/websocket/index.ts:16-24 | a new socket joins `clients` and receives exactly one welcome frame; the database is untouched |
| WebSocketServer.TelemetryServer.Forget | frontend/websocket/index.ts:149-158 | closing or erroring removes the socket from `clients`, and deleting an absent socket changes nothing |
| WebSocketServer.TelemetryServer.OnMessage | frontend/websocket/index.ts:27-146 | the step-by-step handler with its early returns leaves the database and the sent frames that the frame semantics `HandleFrame` gives, and keeps `clients` |
| WebSocketServer.TelemetryServer.OnVerifiedFrame | frontend/websocket/index.ts:59-141 | the switch on `type` performs exactly the writes and replies of `Dispatch`, stopping at the write that throws |
| WebSocketServer.UnparseableFrameIsDropped | frontend/websocket/index.ts:143-145 | a frame `JSON.parse` rejects writes nothing and sends nothing |
| WebSocketServer.ClaimedUserIdNoneIff | frontend/websocket/index.ts:36-41 | the handler stops before the lookup exactly when the payload is null or `Number(userId)` is 0 or NaN |
| WebSocketServer.UnverifiedFrameIsDropped | frontend/websocket/index.ts:43-56 | a frame whose user has no usable id, no account, or whose lookup throws has no effect, heartbeats included |
| WebSocketServer.UnknownTypeIsDropped | frontend/websocket/index.ts:136-137 | a frame of any other `type` has no effect |
| WebSocketServer.KeystrokeFrameAppends | frontend/websocket/index.ts:61-82 | a keystroke appends one row with `String(keyPressed \|\| '')` and one `keyispressed` audit row built from the raw key, and sends nothing |
| WebSocketServer.MouseFrameAppends | frontend/websocket/index.ts:84-106 | a mouse movement appends `Number(x \|\| 0)`, `Number(y \|\| 0)` and a `mousemoved` audit row built from the raw coordinates |
| WebSocketServer.TabFrameAppends | frontend/websocket/index.ts:108-129 | a tab switch appends `String(tabUrl \|\| '')` and a `tabswitched` audit row |
| WebSocketServer.TabFrameIgnoresExtraFields | frontend/websocket/index.ts:108-129 | fields other than `type`, `userId` and `tabUrl` do not change what a tab switch does |
| WebSocketServer.TabDispatch | frontend/websocket/index.ts:108-129 | a tab switch of a verified user is the two staged writes of its `tabUrl` row and audit row |
| WebSocketServer.HeartbeatIsAcknowledged | frontend/websocket/index.ts:131-134 | a heartbeat of a verified user gets exactly one `heartbeat_ack` and writes nothing |
| WebSocketServer.FailedRecordWriteWritesNoLog | frontend/websocket/index.ts:139-141 | when the telemetry write throws, the database is unchanged, so no audit row is written |
| WebSocketServer.FrameIsAppendOnlyAndPaired | frontend/websocket/index.ts:27-146 | every frame only appends, adds at most one telemetry row and no more audit rows than telemetry rows (as many when the audit write succeeds), leaves accounts and submissions alone and replies only with acknowledgements |
| WebSocketServer.DispatchIsAppendOnlyAndPaired | frontend/websocket/index.ts:59-141 | the same append-only, paired shape for every branch of the switch |
| WebSocketServer.StagedWritesPaired | frontend/websocket/index.ts:65-79 | a telemetry row followed by its audit row has the paired shape at each stage a write may throw |
| WebSocketServer.FrameTypesDiffer | frontend/websocket/index.ts:60-136 | the four frame types the switch tells apart are distinct |
| WebSocketServer.KeystrokesKeepArrivalOrder | frontend/websocket/index.ts:65-70 | two keystrokes handled one after the other are stored in arrival order |
| SignupRoute.IpKey | frontend/app/api/signup/route.ts:17 | an absent or empty forwarded-for header is keyed as `unknown-ip`, any other value as itself |
| SignupRoute.CeilMinutes | frontend/app/api/signup/route.ts:30 | `Math.ceil(remaining / 60000)` is the least whole number of minutes covering the remaining time |
| SignupRoute.NextId | frontend/app/api/signup/route.ts:135-140 | the id given to a new account is positive and larger than every id in use |
| SignupRoute.SignupService.constructor | frontend/app/api/signup/route.ts:5 | the limiter table starts empty |
| SignupRoute.SignupService.Post | frontend/app/api/signup/route.ts:9-182 | a refused request returns 429 with the minutes left and changes neither the table nor the database; an admitted one stores the limiter's new entry, runs the registration, and deletes the entry exactly when the account row was created |
| SignupRoute.FirstAttemptIsRecorded | frontend/app/api/signup/route.ts:45-48 | a first request from an address stores one attempt at `now` |
| SignupRoute.StaleEntryResets | frontend/app/api/signup/route.ts:25-27 | more than thirty minutes after the last attempt the entry starts over at one |
| SignupRoute.LockedOutIsRefused | frontend/app/api/signup/route.ts:29-37 | three or more attempts within thirty minutes are refused, reporting between 1 and 30 minutes left |
| SignupRoute.OtherAttemptsCount | frontend/app/api/signup/route.ts:40-44 | otherwise the count goes up by one and the time becomes `now`, including at exactly thirty minutes with the count at the limit |
| SignupRoute.AdmitChangesOneEntry | frontend/app/api/signup/route.ts:20-48 | the limiter touches only the requesting address's entry, which then exists with time `now`, and counts stay positive |
| SignupRoute.MalformedRequestsCount | frontend/app/api/signup/route.ts:51-60 | an unparseable body gives 400 `Invalid JSON in request body` and writes nothing, after the limiter counted it |
| SignupRoute.ValidationIff | frontend/app/api/signup/route.ts:62-116 | the body passes every check exactly when both fields are strings, the trimmed username has at least three units of `[a-zA-Z0-9_]`, and the password has eight units with an upper-case letter, a lower-case letter and a digit |
| SignupRoute.UsernameErrorIff | frontend/app/api/signup/route.ts:65-87 | the username checks pass exactly when the field is a string whose trimmed form meets the rules |
| SignupRoute.PasswordErrorIff | frontend/app/api/signup/route.ts:89-116 | the password checks pass exactly when the field is a string meeting the strength rules |
| SignupRoute.UsernameCheckedFirst | frontend/app/api/signup/route.ts:65-89 | a bad username is reported whatever the password, with one of the three username messages |
| SignupRoute.InvalidBodyIs400 | frontend/app/api/signup/route.ts:65-116 | a body failing validation is answered with 400 and the first failing check's message and writes nothing |
| SignupRoute.TakenUsernameIs400 | frontend/app/api/signup/route.ts:119-129 | a trimmed name some account already has is answered with 400 `Username already exists` and creates nothing |
| SignupRoute.SignupCreatesAccount | frontend/app/api/signup/route.ts:131-163 | a successful signup stores the trimmed name with the hashed password under an unused id, appends one `SIGNUP` row naming the address, and replies 201 with that id and name |
| SignupRoute.ValidBodyIsCreated | frontend/app/api/signup/route.ts:62-118 | a valid body goes on to the lookup and the writes with its trimmed username and its password |
| SignupRoute.SucceededFields | frontend/app/api/signup/route.ts:155-163 | the success body carries the new account's id and username |
| SignupRoute.CreateFreshName | frontend/app/api/signup/route.ts:131-163 | a free name gets the next id, its account row and its `SIGNUP` row, and the registration reports the row created |
| SignupRoute.RegisterPreservesUniqueness | frontend/app/api/signup/route.ts:50-180 | every registration keeps ids and usernames unique, only appends, and adds at most one account |
| SignupRoute.CreatePreservesUniqueness | frontend/app/api/signup/route.ts:118-170 | the lookup-then-create step keeps ids and usernames unique, even when a later write throws |
| EventsRoute.KnownSenderIsRecorded | frontend/app/api/events/route.ts:12-38 | a request that passed the field checks and names an existing user goes on to the switch on its type |
| EventsRoute.EventTypesDiffer | frontend/app/api/events/route.ts:38-131 | the three event types, and the socket's `heartbeat`, are distinct |
| EventsRoute.MissingFieldsIs400 | frontend/app/api/events/route.ts:15-20 | a falsy `type` or `userId` is answered with 400 and writes nothing |
| EventsRoute.UnknownUserIs404 | frontend/app/api/events/route.ts:23-35 | an id with no account is answered with 404 naming the id, whatever the rest of the body |
| EventsRoute.KeystrokeWithoutKeyIs400 | frontend/app/api/events/route.ts:40-46 | a keystroke with a falsy `keyPressed` is answered with 400 and writes nothing |
| EventsRoute.MouseWithoutCoordinateIs400 | frontend/app/api/events/route.ts:69-75 | a mouse movement is answered with the coordinates 400 exactly when `xPos` or `yPos` is undefined (`null` is not) |
| EventsRoute.TabWithoutUrlIs400 | frontend/app/api/events/route.ts:103-109 | a tab switch with a falsy `tabUrl` is answered with 400 and writes nothing |
| EventsRoute.UnknownTypeIs400 | frontend/app/api/events/route.ts:131-135 | any other type is answered with 400 `Invalid event type: <type>` and writes nothing |
| EventsRoute.HeartbeatIsRefused | frontend/app/api/events/route.ts:131-135 | a heartbeat, which the socket server acknowledges, is refused here with `Invalid event type: heartbeat` |
| EventsRoute.HeartbeatMessage | frontend/app/api/events/route.ts:133 | the refusal of a heartbeat reads `Invalid event type: heartbeat` |
| EventsRoute.KeystrokeIsRecorded | frontend/app/api/events/route.ts:39-66 | a keystroke appends one row with `String(keyPressed)`, then one `keyispressed` audit row, and replies `{ success: true }` |
| EventsRoute.MouseMovementIsRecorded | frontend/app/api/events/route.ts:68-100 | a mouse movement stores the `Number`-converted coordinates, and its audit row reports those same numbers |
| EventsRoute.TabSwitchIsRecorded | frontend/app/api/events/route.ts:102-129 | a tab switch appends one row with `String(tabUrl)`, then one `tabswitched` audit row |
| EventsRoute.TwoWritesShape | frontend/app/api/events/route.ts:49-63 | a telemetry row followed by its audit row is well shaped at each point a write may throw |
| EventsRoute.RecordShape | frontend/app/api/events/route.ts:38-138 | every branch of the switch is well shaped |
| EventsRoute.OutcomeShapes | frontend/app/api/events/route.ts:6-147 | every request ends in 200, 400, 404 or 500; the database only grows; 400 and 404 write nothing; 200 writes exactly one telemetry row and one audit row; 500 writes at most one telemetry row and no audit row |
| EventsRoute.FailedLogKeepsRecord | frontend/app/api/events/route.ts:57-63 | when the audit write throws, the keystroke row stays and the reply is 500 |
| EventsRoute.KeystrokeTwins | frontend/app/api/events/route.ts:39-63 | a keystroke with a truthy key from a verified sender writes the same rows over HTTP as over the socket |
| EventsRoute.TabSwitchTwins | frontend/app/api/events/route.ts:102-126 | a tab switch with a truthy URL from a verified sender writes the same rows over HTTP as over the socket |
| ExamRoute.CalculateScore | frontend/app/api/exam/route.ts:125-128 | the placeholder scorer gives every submission 0, whatever its answers |
| ExamRoute.JsonDetails | frontend/app/api/exam/route.ts:151-155 | `JSON.stringify` of an object literal keeps exactly the fields whose value is not `undefined`, and no others |
| ExamRoute.SingleAnswer | frontend/app/api/exam/route.ts:183 | `{ [questionId]: answer }` is keyed by `String(questionId)` and holds the answer unless it is `undefined` |
| ExamRoute.ExamApi.constructor | frontend/app/api/exam/route.ts:5 | the handler starts from the given database |
| ExamRoute.ExamApi.Post | frontend/app/api/exam/route.ts:130-215 | the step-by-step POST replies and writes exactly what `ExamPost` gives |
| ExamRoute.ExamApi.Patch | frontend/app/api/exam/route.ts:217-257 | the step-by-step PATCH replies and writes exactly what `ExamPatch` gives |
| ExamRoute.NoCookieIs401 | frontend/app/api/exam/route.ts:99-104 | without the `userId` cookie GET, POST and PATCH all answer 401 `Unauthorized` and write nothing |
| ExamRoute.ExamIsFixed | frontend/app/api/exam/route.ts:106-113 | GET serves the three fixed javascript questions Two Sum, Valid Palindrome and Maximum Subarray with ids 1 to 3, a 7200-second limit and the current time as start |
| ExamRoute.UnknownActionIs400 | frontend/app/api/exam/route.ts:200-204 | an action other than `submitCode` and `submitAnswer`, or none, is answered with 400 `Invalid action` and writes nothing |
| ExamRoute.SubmitCodeRecords | frontend/app/api/exam/route.ts:145-175 | a first `submitCode` appends one CODE_SUBMISSION row with the answers, time and timestamp, then creates the user's submission with score 0 and the serialized answers |
| ExamRoute.SubmitCodeStores | frontend/app/api/exam/route.ts:161-175 | a first `submitCode` succeeds and stores exactly that submission for the cookie's user |
| ExamRoute.SecondSubmitCodeFails | frontend/app/api/exam/route.ts:147-168 | a second `submitCode` by the same user keeps the new audit row but cannot create the submission: 500, and the first submission stays |
| ExamRoute.SubmitAnswerUpserts | frontend/app/api/exam/route.ts:177-198 | `submitAnswer` upserts by user id: a new submission has score 0; an existing one keeps its score and gets its answers replaced by the one entry sent and the new time, keeping the stored time when none is sent; no other submission or table changes |
| ExamRoute.SubmitAnswerStores | frontend/app/api/exam/route.ts:179-191 | the upsert stores the created or updated submission under the cookie's id and the reply is `Answer submitted successfully` |
| ExamRoute.SubmitAnswerDispatched | frontend/app/api/exam/route.ts:142-177 | a signed-in `submitAnswer` request reaches the upsert with the id `parseInt` reads from the cookie |
| ExamRoute.AnswersAreNotMerged | frontend/app/api/exam/route.ts:187-190 | after two answers in a row only the second is stored |
| ExamRoute.PatchLogsProgress | frontend/app/api/exam/route.ts:229-247 | PATCH with a string of code appends one CODE_PROGRESS row recording the question id and the code's UTF-16 length, replies `Progress saved`, and changes nothing else |
| ExamRoute.PatchWithoutCodeFails | frontend/app/api/exam/route.ts:238-253 | PATCH with `code` null or missing fails with 500 `Failed to save progress` and writes nothing |
| ExamRoute.PatchOnlyLogs | frontend/app/api/exam/route.ts:217-257 | PATCH either writes nothing or appends exactly one audit row and changes nothing else |
| ExamPage.ClockArithmetic | frontend/app/exam/page.tsx:64-66 | minutes and seconds are below 60, and hours, minutes and seconds add back up to the time left |
| ExamPage.FormatHhMmSsDecomposes | frontend/app/exam/page.tsx:63-68 | the clock text has two colons splitting hours (two or more digits), minutes and seconds (two digits each, below 60) that read back as exactly the time left |
| ExamPage.ClockFields | frontend/app/exam/page.tsx:67 | three padded digit fields joined by colons read as the clock of the time they add up to |
| ExamPage.ClockLayout | frontend/app/exam/page.tsx:67 | in `hh:mm:ss` with two-character minutes and seconds the colons sit six and three places from the end |
| ExamPage.TimerTick | frontend/app/exam/page.tsx:32-39 | one tick never goes below zero, is the previous value minus one when that is positive, and submits exactly when it reaches zero |
| ExamPage.AnswersValue | frontend/app/exam/page.tsx:94-97 | the serialized answers are an object with one string field per edited question |
| ExamPage.CodeChanged | frontend/app/exam/page.tsx:70-87 | an edit sets that question's answer, keeps every other answer, schedules one save of that question and code, and changes nothing else |
| ExamPage.CountdownSubmitsOnce | frontend/app/exam/page.tsx:30-43 | from `t` seconds the countdown runs `t - 1` ticks without submitting; tick `t` shows 0, stops the interval and sends exactly one submission; later ticks change nothing; answers and question stay as they were |
| ExamPage.TimerSubmitsInitialState | frontend/app/exam/page.tsx:31-40 | the timer's submission carries no answers and a time spent of 0, whatever was written (the interval keeps the first render's handler) |
| ExamPage.CorrectedTimerSubmitsAnswers | frontend/app/exam/page.tsx:31-40 | with the corrected tick, the timed-out submission stores the current answers with the full two hours spent, and the page goes to the results |
| ExamPage.CorrectedTickPosts | frontend/app/exam/page.tsx:33-36 | the corrected last tick sends the current answers with the submit action and no time left |
| ExamPage.CorrectedTimeoutStored | frontend/app/api/exam/route.ts:161-175 | the timed-out corrected body is stored with a time spent of 7200 seconds |
| ExamPage.CorrectedBodyFields | frontend/app/exam/page.tsx:94-97 | the corrected submit body names the `submitCode` action and carries the answers and `7200 - timeLeft` |
| ExamPage.NavigationClamps | frontend/app/exam/page.tsx:178-201 | Previous never goes below the first question and Next never past the last; each moves by one exactly when there is somewhere to go; Submit Exam shows exactly where Next would not move |
| ExamPage.NextReachesLast | frontend/app/exam/page.tsx:196 | `n` presses of Next land on `min(last, index + n)`, so the Submit button is reached after `count - 1 - index` presses |
| ExamPage.EveryEditIsSaved | frontend/app/exam/page.tsx:70-87 | `k` edits schedule `k` saves, the i-th carrying the i-th edit, and only answers and saves change |
| ExamPage.LastEditWins | frontend/app/exam/page.tsx:71 | a question's answer is its last edit; later edits of other questions leave it alone |
| ExamPage.AutoSaveIsLogged | frontend/app/exam/page.tsx:74-84 | a signed-in user's auto-save is answered `Progress saved` and logged with the question's id and the code's length |
| ExamPage.PatchBodyFields | frontend/app/exam/page.tsx:79 | the auto-save body carries the question id and the code |
| ExamPage.SubmitIsRejected | frontend/app/exam/page.tsx:89-106 | the page's own submission has no action, so the endpoint answers 400, stores nothing, and the page shows `Invalid action` |
| ExamPage.CorrectedSubmitIsRecorded | frontend/app/exam/page.tsx:89-104 | with the action added, the first submission stores the answers and the time spent, and the page goes to the results |
| ExamPage.CorrectedBodyStored | frontend/app/api/exam/route.ts:145-175 | the endpoint accepts the corrected body and stores the answers with `7200 - timeLeft` spent |
| ExamPage.SuccessShowsResults | frontend/app/exam/page.tsx:100-103 | any success reply takes the page to `/exam/results` and changes nothing else |
| ExamPage.LoadingSetsTheExam | frontend/app/exam/page.tsx:45-61 | loading while signed in shows the three questions on a two-hour clock; signed out, the page shows only `Unauthorized` |
| ExamPage.ExamSession.constructor | frontend/app/exam/page.tsx:18-24 | the page starts with no questions, the first index, two hours, the interval running and loading |
| ExamPage.ExamSession.OnLoaded | frontend/app/exam/page.tsx:45-61 | the fields after the load handler are `Loaded` of those before |
| ExamPage.ExamSession.OnTick | frontend/app/exam/page.tsx:31-40 | the fields after a tick are `Ticked` of those before |
| ExamPage.ExamSession.OnCodeChange | frontend/app/exam/page.tsx:70-87 | the fields after an edit are `CodeChanged` of those before |
| ExamPage.ExamSession.OnPrevious | frontend/app/exam/page.tsx:180 | the fields after Previous are `Previous` of those before |
| ExamPage.ExamSession.OnNext | frontend/app/exam/page.tsx:196 | the fields after Next are `Next` of those before |
| ExamPage.ExamSession.OnSubmit | frontend/app/exam/page.tsx:89-98 | the fields after Submit Exam are `Submitted` of those before |
| ExamPage.ExamSession.OnSubmitAnswered | frontend/app/exam/page.tsx:100-109 | the fields after the reply are `SubmitAnswered` of those before |
| StreamPage.FormatMmSsDecomposes | frontend/app/stream/page.tsx:291-295 | the timer text has a colon splitting minutes (two or more digits) from two-digit seconds below 60, and they read back as exactly the time left |
| StreamPage.TimerFields | frontend/app/stream/page.tsx:294 | two padded digit fields joined by a colon read as the timer of the time they add up to |
| StreamPage.NavigationStaysInRange | frontend/app/stream/page.tsx:304-314 | Next moves forward exactly when there is a next question and Prev back exactly when there is a previous one, so a valid index stays valid |
| StreamPage.AnswerChanged | frontend/app/stream/page.tsx:297-302 | typing sets the current question's answer and keeps every other answer |
| StreamPage.CountdownReachesZero | frontend/app/stream/page.tsx:280-288 | from a non-negative start the countdown shows `max(0, start - n)` after `n` ticks, and once submitted it stops |
| StreamPage.ErasedAnswerStillCounted | frontend/app/stream/page.tsx:332 | an answer typed and then erased still counts as answered in the submission detail |
| StreamPage.SubmitEventRefused | frontend/app/stream/page.tsx:330-333 | the submission body has no `userId`, so the events handler answers 400 and writes nothing |
| StreamPage.NothingSentUnlessOpen | frontend/app/stream/page.tsx:198-264 | keystroke, visibility, heartbeat and mouse frames go out only on an open socket |
| StreamPage.MouseMoveOnlyArms | frontend/app/stream/page.tsx:209-220 | a pointer event only arms the throttle timer, and only when the move is significant and no timer is pending; it never changes the last sent position |
| StreamPage.MovesArmOnce | frontend/app/stream/page.tsx:218-221 | whatever burst of pointer events arrives before the timer fires, only the first significant one is kept |
| StreamPage.BurstSendsOneFrame | frontend/app/stream/page.tsx:209-237 | from an idle timer on an open socket, a burst followed by the timer firing sends at most one mouse frame, with the first significant position, which becomes the last sent position |
| StreamPage.StepsKeepUser | frontend/app/stream/page.tsx:159-264 | every step of the client keeps every frame sent carrying the user id the socket was opened for |
| StreamPage.StreamClient.constructor | frontend/app/stream/page.tsx:30-31 | a new client is connecting, at position (0, 0), with no timer pending and nothing sent |
| StreamPage.StreamClient.Send | frontend/app/stream/page.tsx:199 | the guarded send appends the frame exactly when the socket is open |
| StreamPage.StreamClient.OnOpen | frontend/app/stream/page.tsx:159-170 | opening sends one `tabSwitch` frame with `action: 'initial'` and the page URL |
| StreamPage.StreamClient.OnClose | frontend/app/stream/page.tsx:186-189 | closing marks the socket closed and changes nothing else |
| StreamPage.StreamClient.OnKeyDown | frontend/app/stream/page.tsx:198-206 | the fields after a key press are `KeyDown` of those before |
| StreamPage.StreamClient.OnVisibilityChange | frontend/app/stream/page.tsx:240-249 | the fields after a visibility change are `VisibilityChanged` of those before |
| StreamPage.StreamClient.OnHeartbeat | frontend/app/stream/page.tsx:257-264 | the fields after a heartbeat period are `HeartbeatTick` of those before |
| StreamPage.StreamClient.OnMouseMove | frontend/app/stream/page.tsx:209-237 | the fields after a pointer event are `MouseMoved` of those before |
| StreamPage.StreamClient.OnThrottleTimer | frontend/app/stream/page.tsx:221-234 | the fields after the throttle timer fires are `ThrottleFired` of those before |
| StreamPage.FrameNamesUser | frontend/app/stream/page.tsx:133-166 | a frame from a signed-in page names a non-zero id, which the socket server accepts as its user |
| StreamPage.KeystrokeIsStored | frontend/app/stream/page.tsx:198-206 | a keystroke frame of a known user is stored as that user's key with its audit row |
| StreamPage.InitialTabIsStored | frontend/app/stream/page.tsx:164-169 | the initial tab frame is stored as a tab switch to the page URL, and its `action` field plays no part |
| StreamPage.InitialTabFields | frontend/app/stream/page.tsx:164-169 | the initial tab frame has type `tabSwitch` and the page URL |
| StreamPage.TabFrameStored | frontend/websocket/index.ts:108-129 | a verified tab frame naming a string URL stores that very URL and its audit row |
| StreamPage.MouseIsStored | frontend/app/stream/page.tsx:223-228 | a mouse frame is stored with the coordinates the client sent |
| StreamPage.HeartbeatIsAnswered | frontend/app/stream/page.tsx:257-264 | a heartbeat frame is answered with one acknowledgement and stores nothing |
| Navigation.PreviousSelectsIff | frontend/app/components/layout/Navigation.tsx:16-20 | Previous asks for the question before exactly when there is one, and otherwise asks nothing |
| Navigation.NextSelectsIff | frontend/app/components/layout/Navigation.tsx:22-26 | Next asks for the question after exactly when there is one, and otherwise asks nothing |
| Navigation.GridSelectsEachQuestion | frontend/app/components/layout/Navigation.tsx:32-42 | the grid has one button per question, button `i` selects question `i`, every question has a button and no two buttons select the same one |
| Navigation.DisabledIffIneffective | frontend/app/components/layout/Navigation.tsx:47-68 | on a valid question each button is disabled exactly when its handler would do nothing, and every index the component asks for is a valid question |
| Navigation.EmptyExamNextEnabled | frontend/app/components/layout/Navigation.tsx:58-60 | with no questions the grid is empty and the Next button is enabled, yet clicking it asks nothing |
| LoginPage.ChecksInOrder | frontend/app/login/page.tsx:14-27 | the username check runs before the password check, each message appears exactly when its check is the first to fail, and a refused form sends nothing and shows that message |
| LoginPage.FormMatchesServerChecks | frontend/app/login/page.tsx:18-40 | the form accepts exactly the inputs whose sent body passes the login endpoint's own format checks |
| LoginPage.BodyChecks | frontend/app/login/page.tsx:37-40 | the endpoint checks the sent body's trimmed username and its password as typed |
| LoginPage.FormErrorIsFormatCheck | frontend/app/login/page.tsx:18-27 | the form raises no error exactly when the raw username and the password pass the endpoint's format checks |
| LoginPage.BodyFields | frontend/app/login/page.tsx:37-40 | the body is an object whose `username` is the trimmed username and whose `password` is the password as typed |
| LoginPage.ReplyChecks | frontend/app/login/page.tsx:29-67 | an accepted form sends exactly one request to `/api/login`; a non-JSON content type shows `Unexpected response: ` and the raw text; a non-ok JSON reply shows its message or `Login failed`; the stream is reached exactly when the reply is JSON, ok and successful, and then no error is shown |
| LoginPage.PageFollowsEndpoint | frontend/app/login/page.tsx:14-68 | wired to the login endpoint, the page reaches the stream exactly when the endpoint sets the session cookie, and every refusal shows the endpoint's own message |
| LoginPage.AuthenticateReplies | frontend/app/api/login/route.ts:27-75 | every reply after the format checks is either a 200 with `success: true` and a cookie, or a reply outside 200-299 with a non-empty message and no cookie |
| LoginPage.PageOnReply | frontend/app/login/page.tsx:48-61 | on a JSON reply that is an ok success or a non-ok failure with a message, the page reaches the stream exactly on success and otherwise shows that message |
| SignupPage.ChecksInOrder | frontend/app/signup/page.tsx:19-33 | username, then password, then confirmation: each message appears exactly when its check is the first to fail, and no message means all three passed |
| SignupPage.RefusedFormSendsNothing | frontend/app/signup/page.tsx:19-33 | a refused form sends no request, shows its message and stays on the page |
| SignupPage.SignupThenLogin | frontend/app/signup/page.tsx:35-76 | an accepted form first posts to `/api/signup`; the login request with the same body follows exactly when that reply is ok and successful; the stream is reached exactly when the login is successful too; a failed login sends the page to `/login` with the manual-login message; an unsuccessful sign-up stays put |
| SignupPage.SendThenLogin | frontend/app/signup/page.tsx:37-76 | the same two-request order for any body: the login request exists exactly when the sign-up succeeded, and the stream needs both replies successful |
| SignupPage.FailedSignupShowsMessage | frontend/app/signup/page.tsx:49-53 | a sign-up reply that is not ok shows its non-empty `message`, or `Signup failed` when the message is empty or missing, and sends nothing more |
| SignupPage.AcceptedFormSends | frontend/app/signup/page.tsx:35-47 | a form that passes its checks sends the trimmed username and the password as typed |
| SignupPage.ShortNameRefusedByServer | frontend/app/api/signup/route.ts:65-87 | a username the form refuses is refused by the sign-up endpoint too, with the endpoint's too-short message unless it is blank after trimming |
| SignupPage.BodyWithShortNameRefused | frontend/app/api/signup/route.ts:65-87 | a body whose trimmed username is short is refused by the endpoint's validation |
| SignupPage.ShortPasswordRefusedByServer | frontend/app/api/signup/route.ts:65-116 | a password the form refuses is refused by the endpoint: as missing or too short, or earlier for the username's characters, which the form does not check |
| SignupPage.BodyWithShortPasswordRefused | frontend/app/api/signup/route.ts:65-116 | a body with a long enough username and a short password gets one of those three refusals |
| SignupPage.ValidationErrorOfBody | frontend/app/api/signup/route.ts:65-116 | the endpoint validates the form's body by checking the trimmed username first and then the password |
| SignupPage.BodyFields | frontend/app/signup/page.tsx:43-46 | the body is an object whose `username` is the trimmed username and whose `password` is the password as typed |
| SignupPage.ShortUsernameRefused | frontend/app/api/signup/route.ts:65-79 | a trimmed username that is empty or shorter than three units is refused, as too short when it is not empty |
| SignupPage.UsernamePassesLength | frontend/app/api/signup/route.ts:65-87 | a trimmed username of at least three units is refused at most for its characters, and not at all when it matches the allowed pattern |
| SignupPage.UsernameErrorOfTrimmed | frontend/app/api/signup/route.ts:65-87 | on an already trimmed name the endpoint's username check is: required, then too short, then bad characters, then accepted |
| SignupPage.UsernameErrorOfUntrimmable | frontend/app/api/signup/route.ts:65-87 | the same order of username refusals for any string that trimming leaves unchanged |
| SignupPage.ShortPasswordRefused | frontend/app/api/signup/route.ts:89-101 | an empty password or one shorter than eight units is refused as missing or too short |
| SignupPage.ServerIsStricter | frontend/app/api/signup/route.ts:103-116 | a form the page accepts, with a well-formed username, is still refused by the endpoint when the password has no uppercase letter |
| SignupPage.WeakPasswordRefused | frontend/app/api/signup/route.ts:103-116 | a long enough password with no uppercase letter is refused as weak |
| SignupPage.SignupThenLoginReachesStream | frontend/app/signup/page.tsx:15-80 | wired to both endpoints, a body the server accepts with a free name creates the account, the login that follows finds it and sets the cookie, and the page reaches the stream |
| SignupPage.SignupStoresAccount | frontend/app/api/signup/route.ts:119-163 | signing up with the form's body gives the 201 for the new account, which a lookup of the trimmed name then finds |
| SignupPage.RegisterFreshName | frontend/app/api/signup/route.ts:119-163 | a valid body whose trimmed name is free appends exactly one account with the next id, that name and the hash of the password |
| SignupPage.LoginFindsAccount | frontend/app/api/login/route.ts:27-75 | when the trimmed name finds an account whose hash matches, the login succeeds with that account's id and sets the cookie |
| SignupPage.LoginOfAcceptedForm | frontend/app/api/login/route.ts:10-32 | the body of an accepted sign-up form passes the login endpoint's format checks and goes on to the credentials check with the trimmed name |
| SignupPage.PageReachesStream | frontend/app/signup/page.tsx:49-68 | a sign-up success followed by any login success takes the page to the stream |
| SignupPage.LoginAccepts | frontend/app/signup/page.tsx:19-28 | the form's two length checks imply the login endpoint's format checks on the sent body |
| AuditScope.StripScheme | intelligence/app/main.py:72 | the name is unchanged, or one leading `http://` or `https://` is removed |
| AuditScope.StripWww | intelligence/app/main.py:73 | the name is unchanged, or one leading `www.` is removed |
| AuditScope.LeadingSlashesStripped | intelligence/app/main.py:74 | stripping leading slashes leaves a name that does not start with `/`, is no longer, and keeps the last character |
| AuditScope.TrailingSlashesStripped | intelligence/app/main.py:74 | stripping trailing slashes leaves a name that does not end with `/`, is no longer, and keeps the first character |
| AuditScope.NormalizedHasNoOuterSlash | intelligence/app/main.py:69-74 | a normalised domain never starts or ends with `/` |
| AuditScope.NormalizePlain | intelligence/app/main.py:69-74 | a lower-case name without scheme, `www.` start or outer slash normalises to itself |
| AuditScope.NormalizeStripsOneWww | intelligence/app/main.py:73 | exactly one `www.` is removed, so `www.www.a` normalises to `www.a` and normalising is not idempotent |
| AuditScope.NormalizeStripsScheme | intelligence/app/main.py:71-74 | `https://www.x` and `http://www.x` both normalise to `x` |
| AuditScope.SchemeIgnored | intelligence/app/main.py:72 | a scheme in front of a lower-case name that does not start with `h` makes no difference to its normal form |
| AuditScope.NormalizeStripsSchemeOnly | intelligence/app/main.py:72 | `http://a.com` and `https://a.com` normalise to `a.com` |
| AuditScope.AsciiLowerIdempotent | intelligence/app/main.py:71 | lower-casing twice is lower-casing once |
| AuditScope.NormalizeIgnoresCase | intelligence/app/main.py:71 | a name and its lower-case form have the same normal form |
| AuditScope.AnyDomainAdmitsIff | intelligence/app/main.py:90-94 | the `any` over the allowed domains holds exactly when some allowed domain equals the target or is a dotted suffix of it |
| AuditScope.FromDict | intelligence/app/main.py:62-65 | the scope keeps one normalised domain per given domain, in order, and the networks as given |
| AuditScope.NormalizeAll | intelligence/app/main.py:64 | each domain of the list is replaced by its normal form, and the length is kept |
| AuditScope.DomainTargetAllowedIff | intelligence/app/main.py:76-97 | a target that is not an address is allowed exactly when its normal form equals an allowed domain or ends with `.` and one |
| AuditScope.NoDomainsRejectAll | intelligence/app/main.py:88-97 | with no allowed domains no domain target is allowed |
| AuditScope.SuffixNeedsDot | intelligence/app/main.py:90-94 | with `d` allowed, a name ending with `d` but without a `.` before it (such as `badexample.com` for `example.com`) is refused |
| AuditScope.NotAdmittedWithoutDot | intelligence/app/main.py:91-92 | a single allowed domain does not admit a name that ends with it without a dot before it |
| AuditScope.SubdomainAllowed | intelligence/app/main.py:92 | any `sub.d` with `d` allowed is in scope |
| AuditScope.AdmitsSubdomain | intelligence/app/main.py:90-94 | the `any` over the allowed domains holds for a subdomain of one of them |
| AuditScope.ShortDomainsRejected | intelligence/app/main.py:308 | the allowed-domain pattern rejects names of fewer than two characters |
| AuditScope.TrailingNewlineAccepted | intelligence/app/main.py:308 | because `$` also matches before a final newline, a domain followed by one newline passes the pattern exactly when the domain alone matches it without a trailing newline |
| AuditPlanner.Insert | intelligence/app/main.py:358 | inserting a task adds exactly that task to the multiset and one to the length |
| AuditPlanner.SortByPriority | intelligence/app/main.py:358 | sorting by priority is a permutation of the tasks |
| AuditPlanner.InsertSorted | intelligence/app/main.py:358 | inserting into a list sorted by priority (missing priority counting as 3) keeps it sorted |
| AuditPlanner.SortSorted | intelligence/app/main.py:358 | the sorted list is ordered by priority |
| AuditPlanner.WithPriorityInsert | intelligence/app/main.py:358 | inserting a task puts it first among the tasks of its priority and leaves the other priorities' order alone |
| AuditPlanner.SortStable | intelligence/app/main.py:358 | the sort is stable: tasks of equal priority keep their relative order |
| AuditPlanner.InvalidDomainsIff | intelligence/app/main.py:306-309 | a name is listed as invalid exactly when it is an allowed domain that fails the pattern |
| AuditPlanner.InitializeOutcomes | intelligence/app/main.py:288-378 | initialisation sets the budget to 50 and forgets every signature; a missing scope or a domain failing the pattern completes the audit and builds no queue, and the report is the missing-scope text or the message listing the invalid domains; otherwise the queue is the plan sorted by priority, as a permutation, with nothing completed or stored |
| AuditPlanner.OneCharacterDomainStops | intelligence/app/main.py:305-315 | a scope with a domain of one character after normalisation stops the audit with the invalid-domains report |
| AuditPlanner.QueueStep | intelligence/app/main.py:381-464 | a step leaves an empty queue alone, and otherwise removes the head and either drops it or puts it back at the end |
| AuditPlanner.SeenTaskDropped | intelligence/app/main.py:398-401 | a task whose signature was seen is dropped and nothing else changes |
| AuditPlanner.ExecuteOutcomes | intelligence/app/main.py:405-462 | an unseen task either succeeds, and then its signature is seen, it is appended to the completed list and its result stored under the signature, or goes to the back of the queue with nothing else changed |
| AuditPlanner.UnknownTypeRequeued | intelligence/app/main.py:431-434 | a task of an unknown type never completes and is put back at the end of the queue |
| AuditPlanner.InitializeEstablishes | intelligence/app/main.py:372-375 | a successful initialisation starts with the invariants: completed signatures distinct and seen, results under seen signatures, everything completed in scope |
| AuditPlanner.ExecutePreserves | intelligence/app/main.py:381-464 | a step keeps the invariants: no signature is completed twice and nothing outside the scope is completed |
| AuditPlanner.CompleteKeeps | intelligence/app/main.py:444-459 | recording an unseen, in-scope task as completed keeps the invariants |
| AuditPlanner.FilterFollowUpsIff | intelligence/app/main.py:523-544 | a task survives the filter exactly when it is a candidate whose signature is unseen, that is not already queued and whose target is in scope |
| AuditPlanner.FilterStep | intelligence/app/main.py:523-544 | one more candidate adds itself to the survivors exactly when it passes the three checks |
| AuditPlanner.DuplicateCandidatesKept | intelligence/app/main.py:532-537 | two identical candidates both survive, because the queue check looks only at the queue before the loop |
| AuditPlanner.AnalysisRuns | intelligence/app/main.py:467-588 | when the last completed task's result is found and there is a scope, the analysis appends the truncated, sorted batch of survivors to the queue |
| AuditPlanner.AnalyzeAppends | intelligence/app/main.py:467-588 | the analysis either changes nothing or only appends the batch to the queue |
| AuditPlanner.AddedFacts | intelligence/app/main.py:546-551 | the appended batch has exactly five tasks, or all the survivors when fewer pass, is sorted by priority, is as a multiset exactly those first survivors of the filter, and each of its tasks is a candidate that passed the three checks |
| AuditPlanner.AnalyzePreserves | intelligence/app/main.py:467-588 | the analysis keeps both invariants |
| AuditPlanner.RawKeyMissesResult | intelligence/app/main.py:474-479 | after `http://d` completes, its result is stored under the normalised signature but looked up under the raw target, so no follow-up is ever generated from it |
| AuditPlanner.CompletedTaskIsAnalyzed | intelligence/app/main.py:474-479 | with the lookup under the signature the result was stored with, every task that completes goes on to the follow-up analysis |
| AuditPlanner.RejectedScopeGoesToReport | intelligence/app/main.py:591-605 | after a rejected scope, a step and an analysis, the next node is the report |
| AuditPlanner.ValidPlanIsExecuted | intelligence/app/main.py:591-605 | a valid scope with a non-empty plan goes on to execute a task |
| AuditPlanner.ScopeNormalizedTwice | intelligence/app/main.py:688-704 | the stored scope is normalised once at the start and again at every rebuild, so an allowed `www.www.x` is enforced as `x` |
| AuditPlanner.CollectInvalidDomains | intelligence/app/main.py:306-309 | the loop returns exactly the domains failing the pattern, in order |
| AuditPlanner.SelectFollowUps | intelligence/app/main.py:523-544 | the loop returns exactly the survivors of the filter, in order |
| AuditPlanner.TruncateAndSort | intelligence/app/main.py:546-551 | the batch is the first five survivors, sorted by priority |
| AuditPlanner.AuditState.constructor | intelligence/app/main.py:688-704 | the initial state holds the normalised scope, empty task lists and results, an empty report, `task_complete` false and a budget of 50 |
| AuditPlanner.AuditState.InitializeAudit | intelligence/app/main.py:288-378 | the state is updated in place to the initialised audit |
| AuditPlanner.AuditState.ExecuteNextTask | intelligence/app/main.py:381-464 | the state is updated in place by one step, and the method reports a raise exactly when a task was taken with no scope to read |
| AuditPlanner.AuditState.AnalyzeResults | intelligence/app/main.py:467-588 | the state is updated in place by the analysis, and the method reports a raise exactly when a result was found with no scope to read |
| CodeSimilarity.ToolkitSize | code-similarity/app/main.py:122-136 | the toolkit has two distinct model names |
| CodeSimilarity.RemoveAllChars | code-similarity/app/main.py:193 | after `replace(c, "")` a character occurs exactly when it occurred before and is not `c` |
| CodeSimilarity.StrippedCharSet | code-similarity/app/main.py:193-194 | the set compared for a snippet is every character of it except space and newline |
| CodeSimilarity.SimilarityBounds | code-similarity/app/main.py:188-202 | the score lies between 0 and 1 |
| CodeSimilarity.SimilaritySymmetric | code-similarity/app/main.py:188-202 | the score does not depend on which snippet comes first |
| CodeSimilarity.SameCharactersScoreOne | code-similarity/app/main.py:196-202 | two snippets with the same non-empty character set score exactly 1 |
| CodeSimilarity.DisjointCharactersScoreZero | code-similarity/app/main.py:196-202 | two snippets that share no character score exactly 0 |
| CodeSimilarity.BlankSnippetsScoreZero | code-similarity/app/main.py:199-200 | snippets made only of spaces and newlines score 0, not 1 |
| CodeSimilarity.TabsCount | code-similarity/app/main.py:193-202 | a trailing space and newline leave the score with the original at 1, while a trailing tab brings it below 1 |
| CodeSimilarity.StrippedSpacesIgnored | code-similarity/app/main.py:193 | a trailing space and newline do not change the character set |
| CodeSimilarity.TabIsKept | code-similarity/app/main.py:193 | a trailing tab adds the tab to the character set |
| CodeSimilarity.ScoreAll | code-similarity/app/main.py:207-215 | the loop produces one score per generated solution, under the same name, equal to that solution's similarity to the candidate |
| CodeSimilarity.ScoresBounded | code-similarity/app/main.py:205-217 | the scores have the solutions' names as keys and each lies between 0 and 1 |
| CodeSimilarity.GateOpensIffAllGenerated | code-similarity/app/main.py:264-274 | starting from no solutions, the comparison runs exactly when both generators produced one, in either order of completion |
| CodeSimilarity.Pipeline.constructor | code-similarity/app/main.py:233-249 | the state starts with the given question, candidate and solution, no generated solutions, no scores and no error |
| CodeSimilarity.Pipeline.Generate | code-similarity/app/main.py:153-183 | a generated solution is merged under the model's name; a failure leaves the solutions alone and sets the error message naming the model; nothing else changes |
| CodeSimilarity.Pipeline.CompareSolutions | code-similarity/app/main.py:205-228 | the scores of the candidate against every solution replace the stored scores, and the record stored carries the question, candidate and those scores; nothing else changes |
| CodeSimilarity.Pipeline.CompareWrapper | code-similarity/app/main.py:271-274 | the comparison runs and stores a record exactly when every model of the toolkit has answered; otherwise nothing changes |
| ComparisonApi.FirstBoldScoreNone | code-similarity/app/main_api.py:162 | the search for `**N/10**` finds nothing exactly when no position of the answer starts a match |
| ComparisonApi.FirstBoldScoreLeftmost | code-similarity/app/main_api.py:162 | a match the search finds is the leftmost one |
| ComparisonApi.BoldScoreRead | code-similarity/app/main_api.py:158-164 | an answer starting with `**N/10**` scores N, whatever N is |
| ComparisonApi.ScoreNotClamped | code-similarity/app/main_api.py:158-164 | some answer scores above ten: the bold score is not clamped to the 0-10 range the prompt asks for |
| ComparisonApi.BoldWithoutFractionIsZero | code-similarity/app/main_api.py:158-164 | an answer with `**` but no `/` keeps the initial score 0 |
| ComparisonApi.NoStarNoBold | code-similarity/app/main_api.py:160 | an answer without a star contains no `**` |
| ComparisonApi.SplitLines | code-similarity/app/main_api.py:166 | splitting on newlines gives at least one piece |
| ComparisonApi.FirstLineOf | code-similarity/app/main_api.py:166 | a line ended by a newline or by the end of the text is the first piece of the split |
| ComparisonApi.ScoreLine | code-similarity/app/main_api.py:167 | the line found is one of the lines and mentions `score` in any case; finding none means no line does |
| ComparisonApi.FirstNumberSkips | code-similarity/app/main_api.py:168 | a prefix without digits does not change the first number of a line |
| ComparisonApi.ScoreLineIgnored | code-similarity/app/main_api.py:165-173 | an answer without `**` always scores 5, whatever number its score line gives, because that branch always raises |
| ComparisonApi.ScoreLineRead | code-similarity/app/main_api.py:165-170 | with the local-import slip repaired, a first line mentioning `score` followed by N is read as N |
| ComparisonApi.MentionKept | code-similarity/app/main_api.py:167 | a line whose start mentions `score` still mentions it once more text follows |
| ComparisonApi.FirstLineIsScoreLine | code-similarity/app/main_api.py:166-167 | a first line that mentions `score` is the score line |
| ComparisonApi.NumberAfterHeader | code-similarity/app/main_api.py:168 | a header without digits, then N, then a non-digit gives first number N |
| ComparisonApi.ReportPath | code-similarity/app/main_api.py:102 | the report path is the fixed string with `{timestamp}` written literally |
| ComparisonApi.ReportsShareOnePath | code-similarity/app/main_api.py:98-102 | two reports made at different times go to the same file |
| ComparisonApi.ReportPathCorrectedInjective | code-similarity/app/main_api.py:102 | with the f-string the path evidently intends, distinct timestamps give distinct report files |
| ComparisonApi.ReportIncludes | code-similarity/app/main_api.py:104-122 | the report holds the question, the candidate code fenced with its language, the reference solution in a plain fence, and the analysis |
| ComparisonApi.ReportIgnoresScore | code-similarity/app/main_api.py:89-127 | the score passed to the report changes neither its path nor its text |
| ComparisonApi.CompareCodeOutcome | code-similarity/app/main_api.py:129-201 | the reply is a 500 exactly when a model call raised; otherwise it carries the report path, the extracted score and the generated solution, and the report written holds the candidate's fenced code and the whole analysis |
| ComparisonApi.RequestsOverwriteReport | code-similarity/app/main_api.py:98-127 | two successful requests write to the same file, so each overwrites the previous report |

## Left out

- Transport and bootstrapping: the HTTP server and `listen` of the socket server, the process handlers, and Next.js request, response and cookie machinery. A reply is its status code plus its JSON body fields, and the cookie it sets.
- Interleaving: frames on a socket, and concurrent HTTP requests, are handled one at a time and atomically. The source awaits between writes and nothing serialises frames, so no ordering across frames is claimed.
- `frontend/websocket/index.js` is the compiled twin of `index.ts` and is not part of this model.
- The Prisma client is not part of this model, and neither is the database schema. Integer columns are unbounded here, so Prisma's 32-bit `Int` range is not modelled. A field whose value is `undefined` is skipped by `update`, which the model follows for the `timeSpent` of `submitAnswer` (`ExamRoute.UpdatedTime`); on `create` an `undefined` value is stored as `Undefined`, since the schema's defaults are not part of this model. A `Number` or `parseInt` result that is not an integer stands for a write or a lookup that throws.
- Numbers are integers. `Number` of a fraction, an exponent, hex, `Infinity` or any value that is not an integer gives NaN in the model. `Math.round` of the pointer coordinates happens before the model: the page's events carry integer positions.
- The outermost `try`/`catch` of each route is modelled only where a modelled step throws: an unparseable or `null` body, a failing database call, and property access on `null`.
- `MeRoute`: the separate `Server error` reply of the outer catch does not arise in the model, because every throwing step of the handler is inside the inner catch.
- The platform's design description says non-positive user ids are dropped. The socket handler's code drops only falsy or NaN ids, and the model follows the code: a negative id goes on to the lookup.
- `ExamRoute`: the question statements, starter code and test cases of the fixed question set are left out; the ids, types and the time limit are kept.
- `ExamRoute`: a stored `answers` written through `JSON.stringify` is kept as the value itself (`Serialized`); the text `JSON.stringify` produces is not spelled out.
- `ExamPage`: the Monaco editor and the component tree are left out. Each auto-save the editor schedules is recorded as the PATCH body it will send; when its timer fires is not modelled, and since the source never cancels one, every change is saved.
- `ExamPage`: with an empty question list, Next asks for index -1, as `Math.min(n - 1, i + 1)` gives; nothing further is claimed about rendering it.
- `LoginPage`: a JSON reply whose text parses to `null` makes `data.message` throw a `TypeError`; the model takes every well-formed reply as an object body.
- `SignupPage`: a reply whose body is not JSON makes `response.json()` throw; that case is folded into `NetworkError`, whose message is a parameter.
- `StreamPage.SubmitEventRefused`: the page posts its submission to `/api/event`, a path with no route. The lemma states what the events handler at `/api/events` would answer to that body.
- `SignupRoute`: the limiter's map lives for the life of the server process; the model's `SignupService` is one such process.
- Python `repr` of the invalid-domain list is modelled for names without quotes or backslashes; Python's choice of quotes and its escapes are left out.
- `AuditScope` and `ComparisonApi`: `str.lower()`, the regex class `\d` and the digits `float()` accepts are ASCII-only here. Unicode case mappings and Unicode decimal digits are not modelled, so `ComparisonApi.BoldScoreAt`, `ComparisonApi.ScoreLine` and `ComparisonApi.FirstNumber` treat a non-ASCII digit or letter as any other character.
- `AuditScope.IpOracle`: `ipaddress.ip_address`, `ip_network` and network membership are oracles, and `ip_network`'s normalisation of the stored ranges is not modelled.
- AuditScope.FromDict: `ipaddress.ip_network` raises `ValueError` on a malformed range or one with host bits set (such as `192.168.1.1/24`), so the source aborts the audit before any node runs; the model keeps every range as given and does not model that raise.
- AuditPlanner.AuditState.constructor: builds the initial state for any allowed ranges, while `run_security_audit` raises `ValueError` when building the scope from a range `ip_network` rejects; that raise is not modelled.
- JSON arrays are not modelled: `JsValues.JsValue` has no array case, so no body, field or frame can be an array. `ExamRoute.CodeLength` therefore does not give an array's `length`, and `ExamRoute.Serialized` does not show how `JSON.stringify` writes an array of answers. Destructuring an array body, which gives all-undefined fields, is not modelled either.
- `AuditPlanner`: a task that lacks `task_type` or `target` raises `KeyError` in the source; tasks are a datatype in which both are always present. A `priority` that is not an integer is not modelled.
- `AuditPlanner`: the language-model calls, the JSON extraction from their answers, the scanners with their subprocesses, timeouts and retries, and the task-log files are left out. The parsed task lists and the scan outcome are parameters.
- `AuditPlanner`: the stored result keeps the task and the success flag; the scanner output and timings are left out, and so are the `generated_at` and `source_task` fields the follow-up logging adds to each queued task.
- `AuditPlanner`: the LangGraph wiring, `remaining_steps` bookkeeping between nodes and `generate_report` are left out. `ShouldContinue` reads `remainingSteps` as it is stored.
- `CodeSimilarity`: the question fetch, the database writes' failures and the LangGraph wiring are left out. Scores are exact reals, where Python divides in floating point.
- `ComparisonApi`: the extracted score is a natural number; Python's `float` of it is not modelled. The report file write is represented by the path and text it would write, and the clock is the `generatedOn` parameter.
- `ComparisonApi`: the duplicate `except` clause at lines 199-201 is unreachable and has no behaviour to model.

## Findings

| source | as written | input that shows it | evidently intended | confidence | as-written member | corrected member |
|---|---|---|---|---|---|---|
| intelligence/app/main.py:474 | the result of the last completed task is looked up under `type:target` with the raw target, while line 396 stored it under the normalised target | a `nmap_scan` task with target `http://a.com` completes; its result is stored under `nmap_scan:a.com` and looked up under `nmap_scan:http://a.com` | look the result up under the signature it was stored with, so every completed task is analysed | not executed | AuditPlanner.RawKeyMissesResult | AuditPlanner.CompletedTaskIsAnalyzed |
| code-similarity/app/main_api.py:161-168 | the `import re` inside the `**` branch makes `re` a local name of the whole function, so the other branch's `re.search` always raises and the score falls back to 5 | an evaluator answer `Similarity Score: 8/10` without `**` scores 5 | read the first number of the score line, giving 8 | not executed | ComparisonApi.ScoreLineIgnored | ComparisonApi.ScoreLineRead |
| code-similarity/app/main_api.py:102 | the report path is a plain string, so `{timestamp}` stays in the file name literally | two requests at different times write the same file, the second overwriting the first | an f-string, one file per timestamp | not executed | ComparisonApi.ReportsShareOnePath | ComparisonApi.ReportPathCorrectedInjective |
| frontend/app/exam/page.tsx:94-97 | the submit body has `answers` and `timeSpent` but no `action`, and the POST handler answers a missing action with 400 | pressing Submit Exam after answering a question stores nothing and shows `Invalid action` | send `action: 'submitCode'` with the same fields | not executed | ExamPage.SubmitIsRejected | ExamPage.CorrectedSubmitIsRecorded |
| frontend/app/exam/page.tsx:31-40 | the interval is created once and keeps the first render's `handleSubmit`, so the timed-out submission sends the initial empty answers and a time spent of 0 | typing an answer and letting the two hours run out submits `{}` with time spent 0 | submit the current answers with the whole limit spent | not executed | ExamPage.TimerSubmitsInitialState | ExamPage.CorrectedTimerSubmitsAnswers |
