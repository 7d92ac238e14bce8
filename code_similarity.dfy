/**
 * The code-comparison pipeline of `code-similarity/app/main.py`: the
 * character-set Jaccard score of two code snippets, the loop that scores
 * the candidate against every generated solution, and the gate that runs
 * the comparison only once every model of the toolkit has answered.
 *
 * The language models are oracles: a generation step receives its outcome
 * (a solution, or the failure message) as a parameter. Scores are exact
 * reals where Python computes a float quotient.
 */
module CodeSimilarity {
  import opened Wrappers

  /** The names of the toolkit built by `create_llm_toolkit`, lines 122-136. */
  const TOOLKIT: set<string> := {"gpt-4-turbo", "gpt-3.5-turbo"}

  lemma ToolkitSize()
    ensures |TOOLKIT| == 2
  {
    assert "gpt-4-turbo" != "gpt-3.5-turbo" by { assert "gpt-4-turbo"[4] != "gpt-3.5-turbo"[4]; }
  }

  // ---------------------------------------------------------------------
  // calculate_code_similarity
  // ---------------------------------------------------------------------

  /** Python `s.replace(c, "")` for a one-character `c`. */
  function RemoveAll(s: string, c: char): string {
    if s == [] then [] else (if s[0] == c then [] else [s[0]]) + RemoveAll(s[1..], c)
  }

  lemma {:induction false} RemoveAllChars(s: string, c: char, x: char)
    ensures x in RemoveAll(s, c) <==> x in s && x != c
  {
    if s != [] {
      RemoveAllChars(s[1..], c, x);
      assert s == [s[0]] + s[1..];
    }
  }

  /** Line 193: only spaces and newlines are removed; tabs and carriage returns stay. */
  function Stripped(code: string): string {
    RemoveAll(RemoveAll(code, ' '), '\n')
  }

  /** Python `set(s)`: the distinct characters. */
  function CharSet(s: string): set<char> {
    set c | c in s
  }

  /** The set compared for a snippet: every character of it except space and newline. */
  lemma StrippedCharSet(code: string)
    ensures CharSet(Stripped(code)) == set c | c in code && c != ' ' && c != '\n'
  {
    forall x ensures x in Stripped(code) <==> x in code && x != ' ' && x != '\n' {
      RemoveAllChars(RemoveAll(code, ' '), '\n', x);
      RemoveAllChars(code, ' ', x);
    }
  }

  /** `calculate_code_similarity`, lines 188-202: |A ∩ B| / |A ∪ B|, and 0 when both sets are empty. */
  function Similarity(code1: string, code2: string): real {
    var a, b := CharSet(Stripped(code1)), CharSet(Stripped(code2));
    if |a + b| == 0 then 0.0 else (|a * b| as real) / (|a + b| as real)
  }

  lemma IntersectionBound(a: set<char>, b: set<char>)
    ensures |a * b| <= |a + b|
  {
    assert a * b <= a + b;
    SubsetCard(a * b, a + b);
  }

  lemma {:induction false} SubsetCard(x: set<char>, y: set<char>)
    requires x <= y
    ensures |x| <= |y|
    decreases |y|
  {
    if x != {} {
      var c :| c in x;
      SubsetCard(x - {c}, y - {c});
    }
  }

  /** The score is a ratio between 0 and 1. */
  lemma SimilarityBounds(code1: string, code2: string)
    ensures 0.0 <= Similarity(code1, code2) <= 1.0
  {
    var a, b := CharSet(Stripped(code1)), CharSet(Stripped(code2));
    IntersectionBound(a, b);
    if |a + b| != 0 {
      RatioBounds(|a * b|, |a + b|);
    }
  }

  lemma RatioBounds(i: int, u: int)
    requires 0 <= i <= u && u > 0
    ensures 0.0 <= (i as real) / (u as real) <= 1.0
    ensures i < u ==> (i as real) / (u as real) < 1.0
  {
    var q := (i as real) / (u as real);
    assert q * (u as real) == i as real;
  }

  /** The score does not depend on which snippet comes first. */
  lemma SimilaritySymmetric(code1: string, code2: string)
    ensures Similarity(code1, code2) == Similarity(code2, code1)
  {
    var a, b := CharSet(Stripped(code1)), CharSet(Stripped(code2));
    assert a * b == b * a && a + b == b + a;
  }

  /** Two snippets with the same non-empty set of characters score exactly 1. */
  lemma SameCharactersScoreOne(code1: string, code2: string)
    requires CharSet(Stripped(code1)) == CharSet(Stripped(code2)) != {}
    ensures Similarity(code1, code2) == 1.0
  {
    var a := CharSet(Stripped(code1));
    assert a * a == a && a + a == a;
  }

  /** Two snippets that share no character score exactly 0. */
  lemma DisjointCharactersScoreZero(code1: string, code2: string)
    requires CharSet(Stripped(code1)) !! CharSet(Stripped(code2))
    ensures Similarity(code1, code2) == 0.0
  {
    var a, b := CharSet(Stripped(code1)), CharSet(Stripped(code2));
    assert a * b == {};
  }

  /** Snippets made only of spaces and newlines compare as empty: the score is 0, not 1. */
  lemma BlankSnippetsScoreZero(code1: string, code2: string)
    requires forall i :: 0 <= i < |code1| ==> code1[i] in {' ', '\n'}
    requires forall i :: 0 <= i < |code2| ==> code2[i] in {' ', '\n'}
    ensures Similarity(code1, code2) == 0.0
  {
    StrippedCharSet(code1);
    StrippedCharSet(code2);
    var a, b := CharSet(Stripped(code1)), CharSet(Stripped(code2));
    assert a == {} by {
      forall c | c in code1 ensures c == ' ' || c == '\n' {
        var i :| 0 <= i < |code1| && code1[i] == c;
      }
    }
    assert b == {} by {
      forall c | c in code2 ensures c == ' ' || c == '\n' {
        var i :| 0 <= i < |code2| && code2[i] == c;
      }
    }
    assert a + b == {};
  }

  /**
   * Spacing is ignored but tabs are not: indenting with tabs instead of
   * spaces makes a snippet differ from an otherwise equal one.
   */
  lemma TabsCount(code: string)
    requires code != [] && ' ' !in code && '\n' !in code && '\t' !in code
    ensures Similarity(code, code + " \n") == 1.0
    ensures Similarity(code, code + "\t") < 1.0
  {
    var a := CharSet(Stripped(code));
    assert a != {} && '\t' !in a by {
      StrippedCharSet(code);
      assert code[0] in a;
    }
    StrippedSpacesIgnored(code);
    SameCharactersScoreOne(code, code + " \n");
    TabIsKept(code);
    var b := CharSet(Stripped(code + "\t"));
    assert |b| == |a| + 1;
    assert Similarity(code, code + "\t") == (|a| as real) / (|b| as real) by {
      assert a * b == a && a + b == b;
    }
    RatioBounds(|a|, |b|);
  }

  /** A trailing space and newline leave the character set alone. */
  lemma StrippedSpacesIgnored(code: string)
    ensures CharSet(Stripped(code + " \n")) == CharSet(Stripped(code))
  {
    StrippedCharSet(code);
    StrippedCharSet(code + " \n");
  }

  /** A trailing tab adds the tab to the character set. */
  lemma TabIsKept(code: string)
    ensures CharSet(Stripped(code + "\t")) == CharSet(Stripped(code)) + {'\t'}
  {
    StrippedCharSet(code);
    StrippedCharSet(code + "\t");
  }

  // ---------------------------------------------------------------------
  // compare_solutions and the pipeline state
  // ---------------------------------------------------------------------

  /** What `compare_solutions` computes: one score per generated solution, under the same name. */
  function Scores(candidate: string, solutions: map<string, string>): map<string, real> {
    map name | name in solutions :: Similarity(candidate, solutions[name])
  }

  /** The loop of lines 211-215, over the names in any order. */
  method ScoreAll(candidate: string, solutions: map<string, string>) returns (scores: map<string, real>)
    ensures scores.Keys == solutions.Keys
    ensures forall name :: name in solutions ==> scores[name] == Similarity(candidate, solutions[name])
  {
    scores := map[];
    var pending := solutions.Keys;
    while pending != {}
      invariant pending <= solutions.Keys
      invariant scores.Keys == solutions.Keys - pending
      invariant forall name :: name in scores ==> scores[name] == Similarity(candidate, solutions[name])
      decreases |pending|
    {
      var name :| name in pending;
      scores := scores[name := Similarity(candidate, solutions[name])];
      pending := pending - {name};
    }
  }

  /** Every score `compare_solutions` stores lies between 0 and 1. */
  lemma ScoresBounded(candidate: string, solutions: map<string, string>)
    ensures Scores(candidate, solutions).Keys == solutions.Keys
    ensures forall name :: name in solutions ==> 0.0 <= Scores(candidate, solutions)[name] <= 1.0
  {
    forall name | name in solutions ensures 0.0 <= Scores(candidate, solutions)[name] <= 1.0 {
      SimilarityBounds(candidate, solutions[name]);
    }
  }

  /** The row `store_comparison_result` writes, lines 105-117 (the timestamp is left out). */
  datatype ComparisonRecord = ComparisonRecord(questionId: int, candidateId: string, candidateSolution: string, similarityScores: map<string, real>)

  /** The reducer on `llm_solutions`, line 50: a generator's answer is merged in; a failure adds nothing. */
  function Merged(solutions: map<string, string>, name: string, outcome: Option<string>): map<string, string> {
    match outcome
    case Some(solution) => solutions[name := solution]
    case None => solutions
  }

  /**
   * Starting from the empty map of `initialize_state`, the comparison gate
   * opens exactly when both generators of the toolkit produced a solution,
   * whichever finished first.
   */
  lemma GateOpensIffAllGenerated(first: Option<string>, second: Option<string>)
    ensures var s := Merged(Merged(map[], "gpt-4-turbo", first), "gpt-3.5-turbo", second);
      (|s| == |TOOLKIT|) <==> first.Some? && second.Some?
    ensures var s := Merged(Merged(map[], "gpt-3.5-turbo", second), "gpt-4-turbo", first);
      (|s| == |TOOLKIT|) <==> first.Some? && second.Some?
  {
    ToolkitSize();
    assert "gpt-4-turbo" != "gpt-3.5-turbo" by { assert "gpt-4-turbo"[4] != "gpt-3.5-turbo"[4]; }
    var s1 := Merged(Merged(map[], "gpt-4-turbo", first), "gpt-3.5-turbo", second);
    var s2 := Merged(Merged(map[], "gpt-3.5-turbo", second), "gpt-4-turbo", first);
    assert s1.Keys == s2.Keys;
    if first.Some? && second.Some? {
      assert s1.Keys == TOOLKIT;
    } else {
      assert |s1.Keys| <= 1 by {
        if first.Some? { assert s1.Keys == {"gpt-4-turbo"}; }
        else if second.Some? { assert s1.Keys == {"gpt-3.5-turbo"}; }
        else { assert s1.Keys == {}; }
      }
    }
  }

  /** The `PipelineState` dictionary, lines 48-55, which the nodes update in place. */
  class Pipeline {
    var questionId: int
    var llmSolutions: map<string, string>
    var candidateSolution: string
    var candidateId: string
    var similarityScores: map<string, real>
    var error: string

    /** `initialize_state`, lines 233-249, once the question has been fetched. */
    constructor(questionId: int, candidateId: string, candidateSolution: string)
      ensures this.questionId == questionId && this.candidateId == candidateId && this.candidateSolution == candidateSolution
      ensures llmSolutions == map[] && similarityScores == map[] && error == ""
    {
      this.questionId := questionId;
      this.candidateId := candidateId;
      this.candidateSolution := candidateSolution;
      llmSolutions := map[];
      similarityScores := map[];
      error := "";
    }

    /**
     * One generation node, `generate_solution`, lines 153-183: the model's
     * answer is merged under its name; a failure sets `error` instead.
     */
    method Generate(name: string, outcome: Option<string>, failure: string)
      modifies this
      ensures llmSolutions == Merged(old(llmSolutions), name, outcome)
      ensures error == (if outcome.None? then "Error generating solution with " + name + ": " + failure else old(error))
      ensures questionId == old(questionId) && candidateSolution == old(candidateSolution)
      ensures candidateId == old(candidateId) && similarityScores == old(similarityScores)
    {
      if outcome.Some? {
        llmSolutions := llmSolutions[name := outcome.value];
      } else {
        error := "Error generating solution with " + name + ": " + failure;
      }
    }

    /** `compare_solutions`, lines 205-228: the scores replace `similarity_scores` and are stored. */
    method CompareSolutions() returns (stored: ComparisonRecord)
      modifies this
      ensures similarityScores == Scores(candidateSolution, llmSolutions)
      ensures stored == ComparisonRecord(questionId, candidateId, candidateSolution, similarityScores)
      ensures questionId == old(questionId) && llmSolutions == old(llmSolutions) && candidateSolution == old(candidateSolution)
      ensures candidateId == old(candidateId) && error == old(error)
    {
      similarityScores := ScoreAll(candidateSolution, llmSolutions);
      stored := ComparisonRecord(questionId, candidateId, candidateSolution, similarityScores);
    }

    /**
     * `compare_wrapper`, lines 271-274: the comparison runs only when every
     * model of the toolkit has answered; otherwise nothing changes and
     * nothing is stored.
     */
    method CompareWrapper() returns (stored: Option<ComparisonRecord>)
      modifies this
      ensures stored.Some? <==> |old(llmSolutions)| == |TOOLKIT|
      ensures stored.Some? ==>
        && similarityScores == Scores(candidateSolution, llmSolutions)
        && stored.value == ComparisonRecord(questionId, candidateId, candidateSolution, similarityScores)
      ensures stored.None? ==> similarityScores == old(similarityScores)
      ensures questionId == old(questionId) && llmSolutions == old(llmSolutions) && candidateSolution == old(candidateSolution)
      ensures candidateId == old(candidateId) && error == old(error)
    {
      ToolkitSize();
      if |llmSolutions| == 2 {
        var record := CompareSolutions();
        stored := Some(record);
      } else {
        stored := None;
      }
    }
  }
}
