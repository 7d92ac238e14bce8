/**
 * The task loop of the security-audit planner (`intelligence/app/main.py`):
 * initialisation and its scope checks, one task step (pop the head,
 * deduplicate by signature, requeue on failure), the follow-up filter and
 * the continue/stop rule.
 *
 * The planner's language model is replaced by its parsed output (the
 * planned and the follow-up task lists), each scanner by the oracle
 * `scanSucceeds`, and address parsing and network membership by
 * `AuditScope.IpOracle`.
 */
module AuditPlanner {
  import opened Wrappers
  import opened Strings
  import opened AuditScope

  /** One task as the planner reads it: `task_type`, `target` and the optional `priority`. */
  datatype Task = Task(taskType: string, target: string, priority: Option<int>)

  /** `state['target_scope']` when it is a dict: the domain and network lists as stored. */
  datatype ScopeDict = ScopeDict(allowedDomains: seq<string>, allowedIpRanges: seq<string>)

  /** A stored result; the scanner output and timings are not modelled. */
  datatype TaskResult = TaskResult(task: Task, success: bool)

  /** The two nodes `should_continue` can choose. */
  datatype Next = ExecuteTask | GenerateReport

  /** The planner state dictionary (`SecurityAuditState`, lines 47-56) without `objective`. */
  datatype Audit = Audit(
    scope: Option<ScopeDict>,
    queue: seq<Task>,
    completed: seq<Task>,
    results: map<string, TaskResult>,
    report: string,
    taskComplete: bool,
    remainingSteps: int,
    seen: set<string>)

  const NO_SCOPE_REPORT := "Error: No target scope provided. Audit terminated."
  const MAX_FOLLOW_UPS := 5
  const INITIAL_STEPS := 50

  // ---------------------------------------------------------------------
  // Priorities and the stable sort
  // ---------------------------------------------------------------------

  /** `x.get('priority', 3)`. */
  function Priority(t: Task): int {
    t.priority.GetOr(3)
  }

  predicate SortedByPriority(s: seq<Task>) {
    forall i, j :: 0 <= i < j < |s| ==> Priority(s[i]) <= Priority(s[j])
  }

  /** Puts `x` before the first element whose priority is not smaller, so `x` precedes its equals. */
  function Insert(x: Task, s: seq<Task>): (r: seq<Task>)
    ensures multiset(r) == multiset(s) + multiset{x}
    ensures |r| == |s| + 1
  {
    if s == [] || Priority(x) <= Priority(s[0]) then [x] + s
    else assert s == [s[0]] + s[1..]; [s[0]] + Insert(x, s[1..])
  }

  /** `list.sort(key=priority)`: Python's sort is stable. */
  function SortByPriority(s: seq<Task>): (r: seq<Task>)
    ensures multiset(r) == multiset(s)
    ensures |r| == |s|
  {
    if s == [] then [] else assert s == [s[0]] + s[1..]; Insert(s[0], SortByPriority(s[1..]))
  }

  lemma {:induction false} InsertSorted(x: Task, s: seq<Task>)
    requires SortedByPriority(s)
    ensures SortedByPriority(Insert(x, s))
    decreases |s|
  {
    if s != [] && Priority(x) > Priority(s[0]) {
      InsertSorted(x, s[1..]);
      var r := Insert(x, s[1..]);
      forall k | 0 <= k < |r| ensures Priority(s[0]) <= Priority(r[k]) {
        assert r[k] in multiset(r);
        assert r[k] in multiset(s[1..]) + multiset{x};
        if r[k] != x {
          assert r[k] in s[1..];
        }
      }
    }
  }

  /** The sort orders by priority. */
  lemma {:induction false} SortSorted(s: seq<Task>)
    ensures SortedByPriority(SortByPriority(s))
    decreases |s|
  {
    if s != [] {
      SortSorted(s[1..]);
      InsertSorted(s[0], SortByPriority(s[1..]));
    }
  }

  /** The tasks of priority `p`, in order. */
  function WithPriority(p: int, s: seq<Task>): seq<Task> {
    if s == [] then []
    else (if Priority(s[0]) == p then [s[0]] else []) + WithPriority(p, s[1..])
  }

  lemma {:induction false} WithPriorityInsert(p: int, x: Task, s: seq<Task>)
    ensures WithPriority(p, Insert(x, s)) == (if Priority(x) == p then [x] else []) + WithPriority(p, s)
    decreases |s|
  {
    if s != [] && Priority(x) > Priority(s[0]) {
      WithPriorityInsert(p, x, s[1..]);
      var r := Insert(x, s);
      assert r[0] == s[0] && r[1..] == Insert(x, s[1..]);
      assert WithPriority(p, r) == (if Priority(s[0]) == p then [s[0]] else []) + WithPriority(p, r[1..]);
    } else {
      var r := Insert(x, s);
      assert r[0] == x && r[1..] == s;
      assert WithPriority(p, r) == (if Priority(x) == p then [x] else []) + WithPriority(p, s);
    }
  }

  /** The sort is stable: tasks of equal priority keep their relative order. */
  lemma {:induction false} SortStable(p: int, s: seq<Task>)
    ensures WithPriority(p, SortByPriority(s)) == WithPriority(p, s)
    decreases |s|
  {
    if s != [] {
      SortStable(p, s[1..]);
      WithPriorityInsert(p, s[0], SortByPriority(s[1..]));
    }
  }

  // ---------------------------------------------------------------------
  // Signatures and the scan gate
  // ---------------------------------------------------------------------

  /** `f"{task_type}:{normalized_target}"`, lines 394-396. */
  function Signature(t: Task): string {
    t.taskType + ":" + Normalize(t.target)
  }

  /** The raw key `analyze_results` looks up, line 474. */
  function RawKey(t: Task): string {
    t.taskType + ":" + t.target
  }

  /** The four task types with a scanner, lines 411-432. */
  predicate KnownType(taskType: string) {
    taskType in ["nmap_scan", "gobuster_scan", "ffuf_scan", "sqlmap_scan"]
  }

  /** What a scanner receives: Nmap the normalised target, the other three an `http://` URL unless one is already there. */
  function ScanTarget(taskType: string, target: string): string {
    if taskType == "nmap_scan" || "http://" <= target || "https://" <= target then target else "http://" + target
  }

  /**
   * `execute_command`'s gate, lines 124-129: the scanner's target is
   * normalised, and `is_target_allowed` normalises it once more.
   */
  predicate ScanAllowed(scope: TargetScope, t: Task, ip: IpOracle) {
    IsTargetAllowed(scope, Normalize(ScanTarget(t.taskType, Normalize(t.target))), ip)
  }

  /**
   * A task succeeds when it has a scanner, the gate lets its target through
   * and the command then succeeds (`scanSucceeds`, the oracle for the
   * subprocess and its retries).
   */
  predicate Succeeds(scope: TargetScope, t: Task, ip: IpOracle, scanSucceeds: bool) {
    KnownType(t.taskType) && ScanAllowed(scope, t, ip) && scanSucceeds
  }

  function ScopeOf(d: ScopeDict): TargetScope {
    FromDict(d.allowedDomains, d.allowedIpRanges)
  }

  // ---------------------------------------------------------------------
  // initialize_audit
  // ---------------------------------------------------------------------

  /** The domains failing the pattern, in order; built from the end as the loop builds it. */
  function InvalidDomains(domains: seq<string>): seq<string> {
    if domains == [] then []
    else
      var init, last := domains[..|domains| - 1], domains[|domains| - 1];
      InvalidDomains(init) + (if DomainPatternMatches(last) then [] else [last])
  }

  lemma {:induction false} InvalidDomainsIff(domains: seq<string>, x: string)
    ensures x in InvalidDomains(domains) <==> x in domains && !DomainPatternMatches(x)
    decreases |domains|
  {
    if domains != [] {
      var init, last := domains[..|domains| - 1], domains[|domains| - 1];
      InvalidDomainsIff(init, x);
      assert domains == init + [last];
    }
  }

  /** Python's `repr` of a string, for strings without quotes or backslashes. */
  function PyStrRepr(s: string): string {
    "'" + s + "'"
  }

  /** Python's `repr` of a list of strings: `['a', 'b']`. */
  function PyListRepr(items: seq<string>): string {
    "[" + JoinReprs(items) + "]"
  }

  function JoinReprs(items: seq<string>): string {
    if items == [] then ""
    else if |items| == 1 then PyStrRepr(items[0])
    else PyStrRepr(items[0]) + ", " + JoinReprs(items[1..])
  }

  function InvalidDomainsReport(invalid: seq<string>): string {
    "Error: Invalid domains in scope: " + PyListRepr(invalid) + ". Audit terminated."
  }

  /**
   * `initialize_audit`, lines 288-378, with the parsed plan `planned` in
   * place of the language model's answer.
   */
  function Initialized(a: Audit, planned: seq<Task>): Audit {
    var a1 := a.(remainingSteps := INITIAL_STEPS, seen := {});
    if a1.scope.None? then a1.(taskComplete := true, report := NO_SCOPE_REPORT)
    else
      var invalid := InvalidDomains(ScopeOf(a1.scope.value).allowedDomains);
      if invalid != [] then a1.(taskComplete := true, report := InvalidDomainsReport(invalid))
      else a1.(queue := SortByPriority(planned), completed := [], results := map[])
  }

  /** The audit stops before planning exactly when the scope is missing or one of its domains fails the pattern. */
  predicate ScopeRejected(scope: Option<ScopeDict>) {
    scope.None? || exists d :: d in ScopeOf(scope.value).allowedDomains && !DomainPatternMatches(d)
  }

  /**
   * Initialisation always resets the step budget to 50 and forgets every
   * signature. A rejected scope marks the audit complete, builds no queue
   * and writes the missing-scope report or the report listing the invalid
   * domains; otherwise the queue is the plan sorted by priority (a
   * permutation of it) and nothing is completed yet.
   */
  lemma InitializeOutcomes(a: Audit, planned: seq<Task>)
    ensures var r := Initialized(a, planned);
      && r.remainingSteps == 50 && r.seen == {} && r.scope == a.scope
      && (ScopeRejected(a.scope) ==> r.taskComplete && r.queue == a.queue && r.completed == a.completed)
      && (a.scope.None? ==> r.report == NO_SCOPE_REPORT)
      && (a.scope.Some? && InvalidDomains(ScopeOf(a.scope.value).allowedDomains) != [] ==>
            r.report == InvalidDomainsReport(InvalidDomains(ScopeOf(a.scope.value).allowedDomains)))
      && (!ScopeRejected(a.scope) ==>
            r.taskComplete == a.taskComplete && r.report == a.report
            && SortedByPriority(r.queue) && multiset(r.queue) == multiset(planned)
            && r.completed == [] && r.results == map[])
  {
    SortSorted(planned);
    if a.scope.Some? {
      var domains := ScopeOf(a.scope.value).allowedDomains;
      if InvalidDomains(domains) != [] {
        var x := InvalidDomains(domains)[0];
        InvalidDomainsIff(domains, x);
      } else {
        forall d | d in domains ensures DomainPatternMatches(d) {
          InvalidDomainsIff(domains, d);
        }
      }
    }
  }

  /** A scope with a one-character domain (after normalisation) stops the audit with the error report. */
  lemma OneCharacterDomainStops(a: Audit, planned: seq<Task>, i: nat)
    requires a.scope.Some? && i < |a.scope.value.allowedDomains|
    requires |Normalize(a.scope.value.allowedDomains[i])| == 1
    ensures Initialized(a, planned).taskComplete
    ensures Initialized(a, planned).report == InvalidDomainsReport(InvalidDomains(ScopeOf(a.scope.value).allowedDomains))
  {
    var domains := ScopeOf(a.scope.value).allowedDomains;
    var d := domains[i];
    ShortDomainsRejected(d);
    InvalidDomainsIff(domains, d);
  }

  // ---------------------------------------------------------------------
  // execute_next_task
  // ---------------------------------------------------------------------

  /** The head left, scope still to be read: TargetScope.from_dict fails on a missing scope. */
  predicate ExecuteRaises(a: Audit) {
    a.queue != [] && a.scope.None?
  }

  /** `execute_next_task`, lines 381-464. */
  function Executed(a: Audit, ip: IpOracle, scanSucceeds: bool): Audit {
    if a.queue == [] then a
    else
      var task, rest := a.queue[0], a.queue[1..];
      if a.scope.None? then a.(queue := rest)
      else
        var sig := Signature(task);
        if sig in a.seen then a.(queue := rest)
        else if Succeeds(ScopeOf(a.scope.value), task, ip, scanSucceeds) then
          a.(queue := rest, seen := a.seen + {sig}, completed := a.completed + [task],
             results := a.results[sig := TaskResult(task, true)])
        else a.(queue := rest + [task])
  }

  /**
   * One step takes the head of a non-empty queue and either drops it (its
   * signature was seen), completes it, or puts it back at the end; so the
   * queue shrinks by one or keeps its length, and an empty queue is left
   * alone.
   */
  lemma QueueStep(a: Audit, ip: IpOracle, ok: bool)
    ensures var r := Executed(a, ip, ok);
      && (a.queue == [] ==> r == a)
      && (a.queue != [] ==> r.queue == a.queue[1..] || r.queue == a.queue[1..] + [a.queue[0]])
      && (a.queue != [] ==> |r.queue| == |a.queue| - 1 || |r.queue| == |a.queue|)
  {
  }

  /** A task whose signature was already seen is dropped, not requeued, and nothing else changes. */
  lemma SeenTaskDropped(a: Audit, ip: IpOracle, ok: bool)
    requires a.queue != [] && a.scope.Some? && Signature(a.queue[0]) in a.seen
    ensures Executed(a, ip, ok) == a.(queue := a.queue[1..])
  {
  }

  /**
   * A task either completes — its signature becomes seen, it is appended
   * to the completed list and its result is stored under the signature —
   * or, failing for any reason (an unknown type, a target the gate refuses,
   * a failed command), goes to the back of the queue with nothing else
   * changed.
   */
  lemma ExecuteOutcomes(a: Audit, ip: IpOracle, ok: bool)
    requires a.queue != [] && a.scope.Some? && Signature(a.queue[0]) !in a.seen
    ensures var r, t := Executed(a, ip, ok), a.queue[0];
      if Succeeds(ScopeOf(a.scope.value), t, ip, ok) then
        r == a.(queue := a.queue[1..], seen := a.seen + {Signature(t)}, completed := a.completed + [t],
                results := a.results[Signature(t) := TaskResult(t, true)])
      else r == a.(queue := a.queue[1..] + [t])
  {
  }

  /** An unknown task type never completes: it is requeued over and over. */
  lemma UnknownTypeRequeued(a: Audit, ip: IpOracle, ok: bool)
    requires a.queue != [] && a.scope.Some? && Signature(a.queue[0]) !in a.seen && !KnownType(a.queue[0].taskType)
    ensures Executed(a, ip, ok) == a.(queue := a.queue[1..] + [a.queue[0]])
  {
  }

  /** The signatures of the completed tasks are distinct, all seen, and the stored results sit under seen signatures. */
  predicate Consistent(a: Audit) {
    && (forall i :: 0 <= i < |a.completed| ==> Signature(a.completed[i]) in a.seen)
    && (forall i, j :: 0 <= i < j < |a.completed| ==> Signature(a.completed[i]) != Signature(a.completed[j]))
    && (forall k :: k in a.results ==> k in a.seen && a.results[k].success)
  }

  /** Every completed task passed the scan gate of the audit's scope. */
  predicate CompletedInScope(a: Audit, ip: IpOracle) {
    a.scope.Some? ==> forall i :: 0 <= i < |a.completed| ==> ScanAllowed(ScopeOf(a.scope.value), a.completed[i], ip)
  }

  /** A successful initialisation starts consistent. */
  lemma InitializeEstablishes(a: Audit, planned: seq<Task>, ip: IpOracle)
    requires !ScopeRejected(a.scope)
    ensures Consistent(Initialized(a, planned)) && CompletedInScope(Initialized(a, planned), ip)
  {
    InitializeOutcomes(a, planned);
  }

  /**
   * Steps keep the invariants: no signature is ever completed twice, and
   * nothing outside the scope is ever completed.
   */
  lemma ExecutePreserves(a: Audit, ip: IpOracle, ok: bool)
    requires Consistent(a) && CompletedInScope(a, ip)
    ensures Consistent(Executed(a, ip, ok)) && CompletedInScope(Executed(a, ip, ok), ip)
  {
    if a.queue != [] && a.scope.Some? && Signature(a.queue[0]) !in a.seen {
      ExecuteOutcomes(a, ip, ok);
      var t := a.queue[0];
      if Succeeds(ScopeOf(a.scope.value), t, ip, ok) {
        CompleteKeeps(a, t, a.queue[1..], ip);
      }
    }
  }

  lemma CompleteKeeps(a: Audit, t: Task, rest: seq<Task>, ip: IpOracle)
    requires Consistent(a) && CompletedInScope(a, ip) && Signature(t) !in a.seen
    requires a.scope.Some? ==> ScanAllowed(ScopeOf(a.scope.value), t, ip)
    ensures var r := a.(queue := rest, seen := a.seen + {Signature(t)}, completed := a.completed + [t],
                        results := a.results[Signature(t) := TaskResult(t, true)]);
      Consistent(r) && CompletedInScope(r, ip)
  {
    var c := a.completed + [t];
    forall i, j | 0 <= i < j < |c| ensures Signature(c[i]) != Signature(c[j]) {
      if j == |a.completed| {
        assert Signature(c[i]) in a.seen;
      }
    }
  }

  // ---------------------------------------------------------------------
  // analyze_results
  // ---------------------------------------------------------------------

  /** Python's `any(...)` at lines 533-535: a queued task of the same type and normalised target. */
  predicate AlreadyQueued(queue: seq<Task>, t: Task) {
    exists j :: 0 <= j < |queue| && queue[j].taskType == t.taskType && Normalize(queue[j].target) == Normalize(t.target)
  }

  /** One candidate survives the filter, lines 524-544: not seen, not queued, in scope. */
  predicate KeepFollowUp(scope: TargetScope, seen: set<string>, queue: seq<Task>, t: Task, ip: IpOracle) {
    && Signature(t) !in seen
    && !AlreadyQueued(queue, t)
    && IsTargetAllowed(scope, Normalize(t.target), ip)
  }

  /** The filter loop: the survivors in their original order, built from the end as the loop builds them. */
  function FilterFollowUps(scope: TargetScope, seen: set<string>, queue: seq<Task>, candidates: seq<Task>, ip: IpOracle): seq<Task> {
    if candidates == [] then []
    else
      var init, last := candidates[..|candidates| - 1], candidates[|candidates| - 1];
      FilterFollowUps(scope, seen, queue, init, ip) + (if KeepFollowUp(scope, seen, queue, last, ip) then [last] else [])
  }

  lemma {:induction false} FilterFollowUpsIff(scope: TargetScope, seen: set<string>, queue: seq<Task>, candidates: seq<Task>, ip: IpOracle, t: Task)
    ensures t in FilterFollowUps(scope, seen, queue, candidates, ip) <==> t in candidates && KeepFollowUp(scope, seen, queue, t, ip)
    decreases |candidates|
  {
    if candidates != [] {
      var init, last := candidates[..|candidates| - 1], candidates[|candidates| - 1];
      var tail := if KeepFollowUp(scope, seen, queue, last, ip) then [last] else [];
      FilterFollowUpsIff(scope, seen, queue, init, ip, t);
      assert FilterFollowUps(scope, seen, queue, candidates, ip) == FilterFollowUps(scope, seen, queue, init, ip) + tail;
      assert candidates == init + [last];
      assert t in candidates <==> t in init || t == last;
    }
  }

  /** One more candidate through the filter. */
  lemma FilterStep(scope: TargetScope, seen: set<string>, queue: seq<Task>, candidates: seq<Task>, i: nat, ip: IpOracle)
    requires i < |candidates|
    ensures FilterFollowUps(scope, seen, queue, candidates[..i + 1], ip) ==
      FilterFollowUps(scope, seen, queue, candidates[..i], ip)
      + (if KeepFollowUp(scope, seen, queue, candidates[i], ip) then [candidates[i]] else [])
  {
    assert candidates[..i + 1][..i] == candidates[..i];
  }

  /** Duplicates among the candidates are not removed: the queue check looks only at the queue as it was. */
  lemma DuplicateCandidatesKept(scope: TargetScope, seen: set<string>, queue: seq<Task>, t: Task, ip: IpOracle)
    requires KeepFollowUp(scope, seen, queue, t, ip)
    ensures FilterFollowUps(scope, seen, queue, [t, t], ip) == [t, t]
  {
    assert [t, t][..1] == [t];
    assert [t][..0] == [];
    assert FilterFollowUps(scope, seen, queue, [], ip) == [];
    assert FilterFollowUps(scope, seen, queue, [t], ip) == [t];
  }

  /** At most the first five survivors, then sorted by priority, lines 546-551. */
  function FollowUpBatch(filtered: seq<Task>): seq<Task> {
    SortByPriority(filtered[..if |filtered| < MAX_FOLLOW_UPS then |filtered| else MAX_FOLLOW_UPS])
  }

  /** Whether the last completed task's stored result is there and successful under `key`. */
  predicate LastResultFound(a: Audit, key: string) {
    key in a.results && a.results[key].success
  }

  /** What is appended to the queue once the analysis runs. */
  function Added(d: ScopeDict, a: Audit, followUps: seq<Task>, ip: IpOracle): seq<Task> {
    FollowUpBatch(FilterFollowUps(ScopeOf(d), a.seen, a.queue, followUps, ip))
  }

  /**
   * `analyze_results`, lines 467-588, with the parsed follow-up list
   * `followUps` in place of the language model's answer. The result of the
   * last completed task is looked up under its RAW target.
   */
  function Analyzed(a: Audit, followUps: seq<Task>, ip: IpOracle): Audit {
    if a.completed == [] || !LastResultFound(a, RawKey(a.completed[|a.completed| - 1])) || a.scope.None? then a
    else a.(queue := a.queue + Added(a.scope.value, a, followUps, ip))
  }

  lemma AnalysisRuns(a: Audit, followUps: seq<Task>, ip: IpOracle)
    requires a.completed != [] && LastResultFound(a, RawKey(a.completed[|a.completed| - 1])) && a.scope.Some?
    ensures Analyzed(a, followUps, ip) == a.(queue := a.queue + FollowUpBatch(FilterFollowUps(ScopeOf(a.scope.value), a.seen, a.queue, followUps, ip)))
  {
  }

  /** The lookup found a result, so the scope is read: a missing scope raises. */
  predicate AnalyzeRaises(a: Audit) {
    a.completed != [] && LastResultFound(a, RawKey(a.completed[|a.completed| - 1])) && a.scope.None?
  }

  /** The analysis changes nothing but the queue, and to the queue it only appends the batch. */
  lemma AnalyzeAppends(a: Audit, followUps: seq<Task>, ip: IpOracle)
    ensures var r := Analyzed(a, followUps, ip);
      || r == a
      || (a.scope.Some? && r == a.(queue := a.queue + Added(a.scope.value, a, followUps, ip)))
  {
  }

  /**
   * The batch the analysis appends: at most five tasks, sorted by priority,
   * each of them a candidate that is not seen, not already queued and in
   * scope, and — since truncation comes first — as a multiset exactly the
   * first five survivors of the filter, or all of them when there are fewer.
   */
  lemma {:induction false} AddedFacts(d: ScopeDict, a: Audit, followUps: seq<Task>, ip: IpOracle)
    ensures var f, batch := FilterFollowUps(ScopeOf(d), a.seen, a.queue, followUps, ip), Added(d, a, followUps, ip);
      && |batch| == (if |f| < 5 then |f| else 5) && SortedByPriority(batch) && multiset(batch) == multiset(f[..|batch|])
      && forall t :: t in batch ==> t in followUps && KeepFollowUp(ScopeOf(d), a.seen, a.queue, t, ip)
  {
    var scope := ScopeOf(d);
    var f := FilterFollowUps(scope, a.seen, a.queue, followUps, ip);
    var n := if |f| < MAX_FOLLOW_UPS then |f| else MAX_FOLLOW_UPS;
    var batch := Added(d, a, followUps, ip);
    assert batch == SortByPriority(f[..n]);
    SortSorted(f[..n]);
    forall t | t in batch ensures t in followUps && KeepFollowUp(scope, a.seen, a.queue, t, ip) {
      assert t in multiset(f[..n]);
      assert t in f;
      FilterFollowUpsIff(scope, a.seen, a.queue, followUps, ip, t);
    }
  }

  /** The analysis changes only the queue, so it keeps both invariants. */
  lemma AnalyzePreserves(a: Audit, followUps: seq<Task>, ip: IpOracle)
    requires Consistent(a) && CompletedInScope(a, ip)
    ensures Consistent(Analyzed(a, followUps, ip)) && CompletedInScope(Analyzed(a, followUps, ip), ip)
  {
  }

  /**
   * As written, a task whose target changes under normalisation is never
   * analysed: after `http://a.com` completes, its result is stored under
   * `nmap_scan:a.com` but looked up under `nmap_scan:http://a.com`, so no
   * follow-up is ever generated from it.
   */
  lemma RawKeyMissesResult(a: Audit, t: Task, d: string, followUps: seq<Task>, ip: IpOracle)
    requires a.completed == [] && a.results == map[] && a.seen == {} && a.scope.Some?
    requires a.queue == [t] && t.target == "http://" + d && Plain(d) && d[0] != 'w'
    requires Succeeds(ScopeOf(a.scope.value), t, ip, true)
    ensures Executed(a, ip, true).completed == [t]
    ensures Analyzed(Executed(a, ip, true), followUps, ip) == Executed(a, ip, true)
  {
    NormalizeStripsSchemeOnly("http://", d);
    ExecuteOutcomes(a, ip, true);
    var r := Executed(a, ip, true);
    assert r.results == map[Signature(t) := TaskResult(t, true)];
    assert |RawKey(t)| != |Signature(t)|;
    assert !LastResultFound(r, RawKey(r.completed[0]));
  }

  /** The lookup the code evidently intends: under the signature the result was stored with. */
  function AnalyzedBySignature(a: Audit, followUps: seq<Task>, ip: IpOracle): Audit {
    if a.completed == [] || !LastResultFound(a, Signature(a.completed[|a.completed| - 1])) || a.scope.None? then a
    else a.(queue := a.queue + Added(a.scope.value, a, followUps, ip))
  }

  /** With the signature lookup, every task that completes goes on to the follow-up analysis. */
  lemma CompletedTaskIsAnalyzed(a: Audit, followUps: seq<Task>, ip: IpOracle)
    requires a.queue != [] && a.scope.Some? && Signature(a.queue[0]) !in a.seen
    requires Succeeds(ScopeOf(a.scope.value), a.queue[0], ip, true)
    ensures var r := Executed(a, ip, true);
      AnalyzedBySignature(r, followUps, ip) == r.(queue := r.queue + Added(a.scope.value, r, followUps, ip))
  {
    var r := Executed(a, ip, true);
    assert r.completed[|r.completed| - 1] == a.queue[0];
  }

  // ---------------------------------------------------------------------
  // should_continue
  // ---------------------------------------------------------------------

  /** `should_continue`, lines 591-605. */
  function ShouldContinue(a: Audit): Next {
    if a.remainingSteps <= 2 || a.taskComplete || a.queue == [] then GenerateReport else ExecuteTask
  }

  /** A rejected scope ends the run: after initialisation, the next node from the analysis is the report. */
  lemma RejectedScopeGoesToReport(a: Audit, planned: seq<Task>, ip: IpOracle, ok: bool, followUps: seq<Task>)
    requires ScopeRejected(a.scope) && a.queue == [] && a.completed == []
    ensures var r := Analyzed(Executed(Initialized(a, planned), ip, ok), followUps, ip);
      ShouldContinue(r) == GenerateReport
  {
    InitializeOutcomes(a, planned);
  }

  /** A valid scope with a non-empty plan goes on to execute its first task. */
  lemma ValidPlanIsExecuted(a: Audit, planned: seq<Task>)
    requires !ScopeRejected(a.scope) && !a.taskComplete && planned != []
    ensures ShouldContinue(Initialized(a, planned)) == ExecuteTask
  {
    InitializeOutcomes(a, planned);
    assert |Initialized(a, planned).queue| == |planned|;
  }

  /** The run as `run_security_audit` starts it: the scope stored with its domains already normalised once. */
  function InitialAudit(domains: seq<string>, ranges: seq<string>): Audit {
    Audit(Some(ScopeDict(NormalizeAll(domains), ranges)), [], [], map[], "", false, INITIAL_STEPS, {})
  }

  /**
   * Every step rebuilds the scope from the stored, already normalised list
   * and normalises it again: an allowed `www.www.x` is enforced as `x`.
   */
  lemma ScopeNormalizedTwice(domains: seq<string>, ranges: seq<string>, d: string)
    requires domains == ["www.www." + d] && Plain(d)
    ensures ScopeOf(InitialAudit(domains, ranges).scope.value).allowedDomains == [d]
  {
    var w := "www." + d;
    assert Plain(w) by {
      assert forall i :: 4 <= i < |w| ==> w[i] == d[i - 4];
    }
    assert "www.www." + d == "www." + w;
    NormalizeStripsOneWww(w);
    NormalizeStripsOneWww(d);
  }

  /** The validation loop of `initialize_audit`, lines 306-310. */
  method CollectInvalidDomains(domains: seq<string>) returns (invalid: seq<string>)
    ensures invalid == InvalidDomains(domains)
  {
    invalid := [];
    var i := 0;
    while i < |domains|
      invariant 0 <= i <= |domains|
      invariant invalid == InvalidDomains(domains[..i])
    {
      assert domains[..i + 1][..i] == domains[..i];
      if !DomainPatternMatches(domains[i]) {
        invalid := invalid + [domains[i]];
      }
      i := i + 1;
    }
    assert domains[..|domains|] == domains;
  }

  /** The filtering loop of `analyze_results`, lines 523-544. */
  method SelectFollowUps(scope: TargetScope, seen: set<string>, queue: seq<Task>, followUps: seq<Task>, ip: IpOracle)
    returns (filtered: seq<Task>)
    ensures filtered == FilterFollowUps(scope, seen, queue, followUps, ip)
  {
    filtered := [];
    var i := 0;
    while i < |followUps|
      invariant 0 <= i <= |followUps|
      invariant filtered == FilterFollowUps(scope, seen, queue, followUps[..i], ip)
    {
      FilterStep(scope, seen, queue, followUps, i, ip);
      var task := followUps[i];
      if KeepFollowUp(scope, seen, queue, task, ip) {
        filtered := filtered + [task];
      }
      i := i + 1;
    }
    assert followUps[..|followUps|] == followUps;
  }

  /** Lines 546-551: keep the first five survivors, then sort them by priority. */
  method TruncateAndSort(filtered: seq<Task>) returns (batch: seq<Task>)
    ensures batch == FollowUpBatch(filtered)
  {
    batch := filtered;
    if |batch| > MAX_FOLLOW_UPS {
      batch := batch[..MAX_FOLLOW_UPS];
    } else {
      assert batch[..|batch|] == batch;
    }
    batch := SortByPriority(batch);
  }

  // ---------------------------------------------------------------------
  // The state dictionary, updated in place
  // ---------------------------------------------------------------------

  class AuditState {
    var scope: Option<ScopeDict>
    var queue: seq<Task>
    var completed: seq<Task>
    var results: map<string, TaskResult>
    var report: string
    var taskComplete: bool
    var remainingSteps: int
    var seen: set<string>

    function Snapshot(): Audit
      reads this
    {
      Audit(scope, queue, completed, results, report, taskComplete, remainingSteps, seen)
    }

    /** `run_security_audit`, lines 688-704: the initial state. */
    constructor (domains: seq<string>, ranges: seq<string>)
      ensures Snapshot() == InitialAudit(domains, ranges)
    {
      scope := Some(ScopeDict(NormalizeAll(domains), ranges));
      queue, completed, results := [], [], map[];
      report, taskComplete := "", false;
      remainingSteps, seen := INITIAL_STEPS, {};
    }

    method InitializeAudit(planned: seq<Task>)
      modifies this
      ensures Snapshot() == Initialized(old(Snapshot()), planned)
    {
      ghost var a := Snapshot();
      remainingSteps := INITIAL_STEPS;
      seen := {};
      if scope.None? {
        taskComplete := true;
        report := NO_SCOPE_REPORT;
        return;
      }
      var invalid := CollectInvalidDomains(ScopeOf(scope.value).allowedDomains);
      if invalid != [] {
        taskComplete := true;
        report := InvalidDomainsReport(invalid);
        assert Snapshot() == a.(remainingSteps := INITIAL_STEPS, seen := {}, taskComplete := true, report := InvalidDomainsReport(invalid));
        return;
      }
      queue := SortByPriority(planned);
      completed := [];
      results := map[];
      assert Snapshot() == a.(remainingSteps := INITIAL_STEPS, seen := {}, queue := SortByPriority(planned), completed := [], results := map[]);
    }

    /** Returns whether the step raised (a task was taken with no scope to check it against). */
    method ExecuteNextTask(ip: IpOracle, scanSucceeds: bool) returns (raised: bool)
      modifies this
      ensures Snapshot() == Executed(old(Snapshot()), ip, scanSucceeds)
      ensures raised == ExecuteRaises(old(Snapshot()))
    {
      raised := false;
      if queue == [] {
        return;
      }
      var task := queue[0];
      queue := queue[1..];
      if scope.None? {
        raised := true;
        return;
      }
      var targetScope := ScopeOf(scope.value);
      var signature := Signature(task);
      if signature in seen {
        return;
      }
      var success := Succeeds(targetScope, task, ip, scanSucceeds);
      if success {
        seen := seen + {signature};
        completed := completed + [task];
        results := results[signature := TaskResult(task, true)];
      } else {
        queue := queue + [task];
      }
    }

    /** Returns whether the analysis raised (a result was found but there is no scope). */
    method AnalyzeResults(followUps: seq<Task>, ip: IpOracle) returns (raised: bool)
      modifies this
      ensures Snapshot() == Analyzed(old(Snapshot()), followUps, ip)
      ensures raised == AnalyzeRaises(old(Snapshot()))
    {
      ghost var a := Snapshot();
      raised := false;
      if completed == [] {
        return;
      }
      var lastTask := completed[|completed| - 1];
      var key := RawKey(lastTask);
      if key !in results || !results[key].success {
        assert !LastResultFound(a, RawKey(a.completed[|a.completed| - 1]));
        return;
      }
      assert LastResultFound(a, RawKey(a.completed[|a.completed| - 1]));
      if scope.None? {
        raised := true;
        return;
      }
      var filtered := SelectFollowUps(ScopeOf(scope.value), seen, queue, followUps, ip);
      var batch := TruncateAndSort(filtered);
      queue := queue + batch;
      AnalysisRuns(a, followUps, ip);
      assert Snapshot() == a.(queue := a.queue + batch);
    }
  }
}
