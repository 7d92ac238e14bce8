/**
 * The `POST /compare-code` endpoint of `code-similarity/app/main_api.py`:
 * how the score is read out of the evaluator's answer, the path and the
 * text of the markdown report, and the fields of the reply.
 *
 * The two language-model calls are oracles: the endpoint receives the
 * generated reference solution and the evaluator's answer as parameters,
 * `None` standing for a call that raised. The clock is the parameter
 * `generatedOn`; the file write is represented by the path and content it
 * would write.
 */
module ComparisonApi {
  import opened Wrappers
  import opened Strings

  // ---------------------------------------------------------------------
  // Score extraction, lines 157-173
  // ---------------------------------------------------------------------

  /**
   * The regular expression `\*\*(\d+)/10\*\*` tried at position `i`: two
   * stars, a run of digits, then `/10**`. Since `/` is not a digit, the
   * greedy digit run is the whole run.
   */
  function BoldScoreAt(content: string, i: nat): Option<nat> {
    if i + 2 <= |content| && content[i..i + 2] == "**" then
      var d := DigitPrefix(content[i + 2..]);
      if d != [] && "/10**" <= content[i + 2 + |d|..] then Some(DecimalValue(d)) else None
    else None
  }

  /** `re.search` from position `from`: the leftmost match, if any. */
  function FirstBoldScore(content: string, from: nat): Option<nat>
    decreases |content| - from
  {
    if from >= |content| then None
    else if BoldScoreAt(content, from).Some? then BoldScoreAt(content, from)
    else FirstBoldScore(content, from + 1)
  }

  /** The search finds a match exactly when there is one. */
  lemma {:induction false} FirstBoldScoreNone(content: string, from: nat)
    ensures FirstBoldScore(content, from).None? <==> forall i :: from <= i < |content| ==> BoldScoreAt(content, i).None?
    decreases |content| - from
  {
    if from < |content| && BoldScoreAt(content, from).None? {
      FirstBoldScoreNone(content, from + 1);
    }
  }

  /** A match it finds is the leftmost one. */
  lemma {:induction false} FirstBoldScoreLeftmost(content: string, from: nat)
    ensures var r := FirstBoldScore(content, from);
      r.Some? ==> exists i :: from <= i < |content| && BoldScoreAt(content, i) == r
                              && forall j :: from <= j < i ==> BoldScoreAt(content, j).None?
    decreases |content| - from
  {
    if from < |content| {
      if BoldScoreAt(content, from).None? {
        FirstBoldScoreLeftmost(content, from + 1);
        var r := FirstBoldScore(content, from + 1);
        assert FirstBoldScore(content, from) == r;
        if r.Some? {
          var i :| from + 1 <= i < |content| && BoldScoreAt(content, i) == r
                   && forall j :: from + 1 <= j < i ==> BoldScoreAt(content, j).None?;
          assert forall j :: from <= j < i ==> BoldScoreAt(content, j).None?;
        }
      }
    }
  }

  /**
   * The score as the code computes it. With `**` in the answer, the first
   * `**N/10**` gives N, and the initial 0 stays when there is none. Without
   * `**`, the other branch always raises and the handler falls back to 5:
   * either no line mentions "score" and `next` raises, or `re` is read
   * before assignment, because the `import re` of line 161 makes `re` a
   * local name of the whole function.
   */
  function ExtractScore(content: string): nat {
    if Contains(content, "**") then
      match FirstBoldScore(content, 0)
      case Some(n) => n
      case None => 0
    else 5
  }

  /** The leading `**N/10**` of an answer is its score, whatever N is: it is not clamped to 0..10. */
  lemma {:induction false} BoldScoreRead(n: nat, rest: string)
    ensures ExtractScore("**" + NatToDecimal(n) + "/10**" + rest) == n
  {
    var d := NatToDecimal(n);
    var content := "**" + d + "/10**" + rest;
    assert content[0..2] == "**";
    assert "**" <= content;
    assert content[2..] == d + ("/10**" + rest);
    DigitPrefixConcat(d, "/10**" + rest);
    assert content[2 + |d|..] == "/10**" + rest;
    DecimalRoundTrip(n);
    assert BoldScoreAt(content, 0) == Some(n);
  }

  /** A score above ten is passed on as it is. */
  lemma ScoreNotClamped()
    ensures exists content :: ExtractScore(content) > 10
  {
    BoldScoreRead(42, []);
    assert ExtractScore("**" + NatToDecimal(42) + "/10**" + []) == 42;
  }

  /** Bold text without a `/` holds no `**N/10**`: the score stays 0. */
  lemma BoldWithoutFractionIsZero(content: string)
    requires Contains(content, "**") && '/' !in content
    ensures ExtractScore(content) == 0
  {
    FirstBoldScoreNone(content, 0);
    forall i | 0 <= i < |content| ensures BoldScoreAt(content, i).None? {
      if i + 2 <= |content| && content[i..i + 2] == "**" {
        var k := i + 2 + |DigitPrefix(content[i + 2..])|;
        assert k < |content| ==> content[k..][0] == content[k] != '/';
      }
    }
  }

  /** An answer without a star anywhere has no `**` in it. */
  lemma {:induction false} NoStarNoBold(content: string)
    requires '*' !in content
    ensures !Contains(content, "**")
    decreases |content|
  {
    if content != [] {
      assert !("**" <= content) by { if |content| >= 2 { assert content[0] in content; } }
      NoStarNoBold(content[1..]);
    }
  }

  // --- The score line, as the else branch evidently intends it ---------

  /** Python `s.split("\n")`. */
  function SplitLines(s: string): (r: seq<string>)
    ensures |r| >= 1
  {
    if s == [] then [[]]
    else
      var t := SplitLines(s[1..]);
      if s[0] == '\n' then [[]] + t else [[s[0]] + t[0]] + t[1..]
  }

  /** A line ended by a newline, or by the end of the text, is the first piece of the split. */
  lemma {:induction false} FirstLineOf(line: string, rest: string)
    requires '\n' !in line && (rest == [] || rest[0] == '\n')
    ensures SplitLines(line + rest)[0] == line
    decreases |line|
  {
    if line == [] {
      assert line + rest == rest;
    } else {
      assert (line + rest)[1..] == line[1..] + rest;
      assert line[0] in line;
      FirstLineOf(line[1..], rest);
      assert line == [line[0]] + line[1..];
    }
  }

  /** `next(line for line in lines if "score" in line.lower())`, or `None` where `next` raises. */
  function ScoreLine(lines: seq<string>): (r: Option<string>)
    ensures r.Some? ==> r.value in lines && Contains(AsciiLower(r.value), "score")
    ensures r.None? ==> forall l :: l in lines ==> !Contains(AsciiLower(l), "score")
  {
    if lines == [] then None
    else if Contains(AsciiLower(lines[0]), "score") then Some(lines[0])
    else ScoreLine(lines[1..])
  }

  /** `re.search(r'(\d+)(?:/10)?', line)`: the value of the first run of digits. */
  function FirstNumber(line: string): Option<nat> {
    if line == [] then None
    else if IsDigit(line[0]) then Some(DecimalValue(DigitPrefix(line)))
    else FirstNumber(line[1..])
  }

  lemma {:induction false} FirstNumberSkips(p: string, s: string)
    requires forall i :: 0 <= i < |p| ==> !IsDigit(p[i])
    ensures FirstNumber(p + s) == FirstNumber(s)
    decreases |p|
  {
    if p != [] {
      var ps := p + s;
      assert ps[0] == p[0] && !IsDigit(ps[0]);
      assert ps[1..] == p[1..] + s;
      assert FirstNumber(ps) == FirstNumber(ps[1..]);
      assert forall i :: 0 <= i < |p[1..]| ==> p[1..][i] == p[i + 1];
      FirstNumberSkips(p[1..], s);
    } else {
      assert p + s == s;
    }
  }

  /**
   * The extraction once the local-import slip is repaired: the `**` branch
   * is unchanged; otherwise the first line mentioning "score" yields its
   * first number (0 when it has none), and 5 is left for an answer with no
   * such line.
   */
  function ExtractScoreCorrected(content: string): nat {
    if Contains(content, "**") then ExtractScore(content)
    else match ScoreLine(SplitLines(content))
      case None => 5
      case Some(line) =>
        match FirstNumber(line)
        case Some(n) => n
        case None => 0
  }

  lemma {:induction false} AsciiLowerConcat(a: string, b: string)
    ensures AsciiLower(a + b) == AsciiLower(a) + AsciiLower(b)
    decreases |a|
  {
    if a != [] {
      var ab := a + b;
      assert ab[0] == a[0] && ab[1..] == a[1..] + b;
      assert AsciiLower(ab) == [AsciiLowerChar(a[0])] + AsciiLower(a[1..] + b);
      assert AsciiLower(a) == [AsciiLowerChar(a[0])] + AsciiLower(a[1..]);
      AsciiLowerConcat(a[1..], b);
    } else {
      assert a + b == b && AsciiLower(a) == [];
    }
  }

  lemma {:induction false} ContainsPrefix(a: string, b: string, needle: string)
    requires Contains(a, needle)
    ensures Contains(a + b, needle)
    decreases |a|
  {
    if !(needle <= a) {
      assert (a + b)[1..] == a[1..] + b;
      ContainsPrefix(a[1..], b, needle);
    }
  }

  /**
   * The score line the evaluator is told to start with (`Similarity Score:
   * N/10`): as written, it is never read, and an answer without `**` gets
   * 5 whatever N is.
   */
  lemma ScoreLineIgnored(header: string, n: nat, suffix: string, rest: string)
    requires '*' !in header + (NatToDecimal(n) + suffix) + rest
    ensures ExtractScore(header + (NatToDecimal(n) + suffix) + rest) == 5
  {
    NoStarNoBold(header + (NatToDecimal(n) + suffix) + rest);
  }

  /**
   * With the repair, the same answer gives N: a first line made of a header
   * that mentions "score" and has no digit, then N, then text that does not
   * continue the number, is read as N.
   */
  lemma ScoreLineRead(header: string, n: nat, suffix: string, rest: string)
    requires Contains(AsciiLower(header), "score") && forall i :: 0 <= i < |header| ==> !IsDigit(header[i])
    requires suffix == [] || !IsDigit(suffix[0])
    requires '\n' !in header + (NatToDecimal(n) + suffix) && (rest == [] || rest[0] == '\n')
    requires '*' !in header + (NatToDecimal(n) + suffix) + rest
    ensures ExtractScoreCorrected(header + (NatToDecimal(n) + suffix) + rest) == n
  {
    var d := NatToDecimal(n);
    var line := header + (d + suffix);
    NoStarNoBold(line + rest);
    MentionKept(header, d + suffix);
    FirstLineIsScoreLine(line, rest);
    NumberAfterHeader(header, n, suffix);
  }

  lemma MentionKept(header: string, x: string)
    requires Contains(AsciiLower(header), "score")
    ensures Contains(AsciiLower(header + x), "score")
  {
    AsciiLowerConcat(header, x);
    ContainsPrefix(AsciiLower(header), AsciiLower(x), "score");
  }

  lemma FirstLineIsScoreLine(line: string, rest: string)
    requires Contains(AsciiLower(line), "score") && '\n' !in line && (rest == [] || rest[0] == '\n')
    ensures ScoreLine(SplitLines(line + rest)) == Some(line)
  {
    FirstLineOf(line, rest);
  }

  lemma NumberAfterHeader(header: string, n: nat, suffix: string)
    requires forall i :: 0 <= i < |header| ==> !IsDigit(header[i])
    requires suffix == [] || !IsDigit(suffix[0])
    ensures FirstNumber(header + (NatToDecimal(n) + suffix)) == Some(n)
  {
    var d := NatToDecimal(n);
    FirstNumberSkips(header, d + suffix);
    DigitPrefixConcat(d, suffix);
    DecimalRoundTrip(n);
    assert (d + suffix)[0] == d[0];
  }

  // ---------------------------------------------------------------------
  // generate_report, lines 89-127
  // ---------------------------------------------------------------------

  /** Line 102 as written: a plain string, so `{timestamp}` stays literally in the name. */
  const REPORT_PATH := "./reports/comparison_report_{timestamp}.md"

  /** The path `generate_report` returns and writes to. */
  function ReportPath(timestamp: string): (path: string)
    ensures path == REPORT_PATH
  {
    REPORT_PATH
  }

  /** Every report goes to the same file, so each request overwrites the previous report. */
  lemma ReportsShareOnePath(t1: string, t2: string)
    ensures ReportPath(t1) == ReportPath(t2)
  {
  }

  /** The path the f-string evidently intended, one file per timestamp. */
  function ReportPathCorrected(timestamp: string): string {
    "./reports/comparison_report_" + timestamp + ".md"
  }

  /** Distinct timestamps give distinct report files. */
  lemma ReportPathCorrectedInjective(t1: string, t2: string)
    requires ReportPathCorrected(t1) == ReportPathCorrected(t2)
    ensures t1 == t2
  {
    var p := "./reports/comparison_report_";
    var a, b := ReportPathCorrected(t1), ReportPathCorrected(t2);
    assert |a| == |p| + |t1| + 3 && |b| == |p| + |t2| + 3;
    assert a[|p|..|p| + |t1|] == t1;
    assert b[|p|..|p| + |t2|] == t2;
  }

  /** The markdown text of lines 104-122; `generatedOn` is the formatted clock reading. */
  function ReportContent(question: string, candidateCode: string, llmSolution: string, analysis: string, language: string, generatedOn: string): string {
    var fence1 := "```" + language + "\n" + candidateCode + "\n```";
    var fence2 := "```\n" + llmSolution + "\n```";
    "# Code Comparison Report\n\n## Problem Statement\n"
    + (question
    + ("\n## Candidate Solution (" + language + ")\n"
    + (fence1
    + ("\n\n## Reference Solution (" + language + ")\n"
    + (fence2
    + ("\n\n## Analysis\n"
    + (analysis
    + ("\n\n## Generated on: " + generatedOn + "\n"))))))))
  }

  /** The file `generate_report` writes: its path and its text. */
  datatype ReportFile = ReportFile(path: string, content: string)

  /** `generate_report`; the `similarity_score` argument is accepted but not used. */
  function GenerateReport(question: string, candidateCode: string, llmSolution: string, score: nat, analysis: string, language: string, timestamp: string, generatedOn: string): ReportFile {
    ReportFile(ReportPath(timestamp), ReportContent(question, candidateCode, llmSolution, analysis, language, generatedOn))
  }

  /**
   * The report holds the question, the candidate code fenced with its
   * language, the reference solution in a plain fence, and the analysis.
   */
  lemma ReportIncludes(question: string, candidateCode: string, llmSolution: string, analysis: string, language: string, generatedOn: string)
    ensures var c := ReportContent(question, candidateCode, llmSolution, analysis, language, generatedOn);
      && Contains(c, question)
      && Contains(c, "```" + language + "\n" + candidateCode + "\n```")
      && Contains(c, "```\n" + llmSolution + "\n```")
      && Contains(c, analysis)
  {
    var h := "# Code Comparison Report\n\n## Problem Statement\n";
    var c1 := "\n## Candidate Solution (" + language + ")\n";
    var fence1 := "```" + language + "\n" + candidateCode + "\n```";
    var c2 := "\n\n## Reference Solution (" + language + ")\n";
    var fence2 := "```\n" + llmSolution + "\n```";
    var c3 := "\n\n## Analysis\n";
    var tail := "\n\n## Generated on: " + generatedOn + "\n";
    var r4 := analysis + tail;
    var r3 := fence2 + (c3 + r4);
    var r2 := fence1 + (c2 + r3);
    var r1 := question + (c1 + r2);
    assert ReportContent(question, candidateCode, llmSolution, analysis, language, generatedOn) == h + r1;
    assert Contains(r4, analysis) && Contains(r3, fence2) && Contains(r2, fence1) && Contains(r1, question);
    ContainsWithin(c3, r4, analysis);
    ContainsWithin(fence2, c3 + r4, analysis);
    ContainsWithin(c2, r3, analysis);
    ContainsWithin(c2, r3, fence2);
    ContainsWithin(fence1, c2 + r3, analysis);
    ContainsWithin(fence1, c2 + r3, fence2);
    ContainsWithin(c1, r2, analysis);
    ContainsWithin(c1, r2, fence2);
    ContainsWithin(c1, r2, fence1);
    ContainsWithin(question, c1 + r2, analysis);
    ContainsWithin(question, c1 + r2, fence2);
    ContainsWithin(question, c1 + r2, fence1);
    ContainsWithin(h, r1, analysis);
    ContainsWithin(h, r1, fence2);
    ContainsWithin(h, r1, fence1);
    ContainsWithin(h, r1, question);
  }

  /** The score passed to `generate_report` changes neither the path nor the text. */
  lemma ReportIgnoresScore(question: string, candidateCode: string, llmSolution: string, s1: nat, s2: nat, analysis: string, language: string, timestamp: string, generatedOn: string)
    ensures GenerateReport(question, candidateCode, llmSolution, s1, analysis, language, timestamp, generatedOn)
         == GenerateReport(question, candidateCode, llmSolution, s2, analysis, language, timestamp, generatedOn)
  {
  }

  // ---------------------------------------------------------------------
  // compare_code, lines 129-201
  // ---------------------------------------------------------------------

  /** `CodeComparisonRequest`, lines 37-41; an absent `language` is `None`. */
  datatype CompareRequest = CompareRequest(questionText: string, candidateCode: string, language: Option<string>, constraints: Option<string>)

  /** `CodeComparisonResponse`, lines 43-46. */
  datatype CompareResponse = CompareResponse(reportPath: string, similarityScore: nat, llmSolution: string)

  /** The reply, and the file written on success; any exception becomes a 500. */
  datatype CompareOutcome = Compared(response: CompareResponse, written: ReportFile) | ServerError500

  /** The language of a request: pydantic's default is `"Python"`. */
  function RequestLanguage(request: CompareRequest): string {
    request.language.GetOr("Python")
  }

  /**
   * The handler: `solution` is the generated reference solution and
   * `answer` the evaluator's text, `None` when that call raised.
   */
  function CompareCode(request: CompareRequest, solution: Option<string>, answer: Option<string>, timestamp: string, generatedOn: string): CompareOutcome {
    if solution.None? || answer.None? then ServerError500
    else
      var score := ExtractScore(answer.value);
      var report := GenerateReport(request.questionText, request.candidateCode, solution.value, score, answer.value, RequestLanguage(request), timestamp, generatedOn);
      Compared(CompareResponse(report.path, score, solution.value), report)
  }

  /**
   * A reply carries exactly the report path, the extracted score and the
   * generated solution; the report it wrote holds the candidate's code and
   * the whole analysis; a failing model call gives 500 and writes nothing.
   */
  lemma CompareCodeOutcome(request: CompareRequest, solution: Option<string>, answer: Option<string>, timestamp: string, generatedOn: string)
    ensures var r := CompareCode(request, solution, answer, timestamp, generatedOn);
      && (r.ServerError500? <==> solution.None? || answer.None?)
      && (r.Compared? ==>
            && r.response == CompareResponse(REPORT_PATH, ExtractScore(answer.value), solution.value)
            && r.written.path == REPORT_PATH
            && Contains(r.written.content, "```" + RequestLanguage(request) + "\n" + request.candidateCode + "\n```")
            && Contains(r.written.content, answer.value))
  {
    if solution.Some? && answer.Some? {
      ReportIncludes(request.questionText, request.candidateCode, solution.value, answer.value, RequestLanguage(request), generatedOn);
    }
  }

  /** Two successful requests write to the same file, whatever their timestamps. */
  lemma RequestsOverwriteReport(r1: CompareRequest, s1: string, a1: string, t1: string, g1: string,
                                r2: CompareRequest, s2: string, a2: string, t2: string, g2: string)
    ensures CompareCode(r1, Some(s1), Some(a1), t1, g1).written.path == CompareCode(r2, Some(s2), Some(a2), t2, g2).written.path
  {
  }
}
