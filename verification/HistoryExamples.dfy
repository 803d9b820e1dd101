/**
  Worked results of the generator on the example inputs the input panel
  offers. They show the effect of index 1 never being scanned: the
  as-written trace can end with a best substring that repeats a character,
  where the corrected trace ends with the expected answer.
*/
module HistoryExamples {
  import opened Types
  import opened History
  import opened CorrectedHistory

  /** The last snapshot of a trace: the one the player stops on. */
  function Last(t: seq<AlgorithmState>): (s: AlgorithmState)
    requires |t| > 0
    ensures s in t
  {
    t[|t| - 1]
  }

  /** The best substring the as-written trace ends with: the run from index 2 with index 0 recorded. */
  function AsWrittenAnswer(input: string): string
    requires |input| > 0
  {
    FinalBest(input, 0, 2, 1, input[..1], map[input[0] := 0])
  }

  /** The best substring the corrected trace ends with: the run from index 1 with index 0 recorded. */
  function CorrectedAnswer(input: string): string
    requires |input| > 0
  {
    FinalBest(input, 0, 1, 1, input[..1], map[input[0] := 0])
  }

  /** The last snapshot of the as-written trace holds AsWrittenAnswer and its length. */
  lemma TraceEndsWithAnswer(input: string)
    requires |input| > 0
    ensures Last(Trace(input)).maxSubstring == AsWrittenAnswer(input)
    ensures Last(Trace(input)).maxLength == |AsWrittenAnswer(input)|
  {
    var start := map[input[0] := 0];
    var rest := Run(input, 0, 2, 1, input[..1], start);
    RunEndsWithFinalBest(input, 0, 2, 1, input[..1], start);
    if |rest| > 0 {
      assert Last(Trace(input)) == rest[|rest| - 1];
    }
  }

  /** The last snapshot of the corrected trace holds CorrectedAnswer and its length. */
  lemma CorrectedTraceEndsWithAnswer(input: string)
    requires |input| > 0
    ensures Last(CorrectedTrace(input)).maxSubstring == CorrectedAnswer(input)
    ensures Last(CorrectedTrace(input)).maxLength == |CorrectedAnswer(input)|
  {
    var start := map[input[0] := 0];
    var rest := Run(input, 0, 1, 1, input[..1], start);
    RunEndsWithFinalBest(input, 0, 1, 1, input[..1], start);
    if |rest| > 0 {
      assert Last(CorrectedTrace(input)) == rest[|rest| - 1];
    }
  }

  /** A one-character input yields only the INITIALIZE snapshot, already holding the answer. */
  lemma SingleCharacter()
    ensures Trace("a") == [InitialSnapshot("a")]
    ensures Last(Trace("a")).maxSubstring == "a" && Last(Trace("a")).maxLength == 1
  {
  }

  /**
    The as-written answers for the example inputs: each of them repeats a
    character ("aab" repeats 'a', "bcab" repeats 'b', "bb" repeats 'b',
    "pwwke" repeats 'w').
  */
  lemma AsWrittenExamples()
    ensures AsWrittenAnswer("aab") == "aab" && !NoRepeat("aab")
    ensures AsWrittenAnswer("abcabcbb") == "bcab" && !NoRepeat("bcab")
    ensures AsWrittenAnswer("bbbbb") == "bb" && !NoRepeat("bb")
    ensures AsWrittenAnswer("pwwkew") == "pwwke" && !NoRepeat("pwwke")
  {
    assert "aab"[0] == "aab"[1];
    assert "bcab"[0] == "bcab"[3];
    assert "bb"[0] == "bb"[1];
    assert "pwwke"[1] == "pwwke"[2];
  }

  /** The corrected answers for the same inputs are the expected ones. */
  lemma CorrectedExamples()
    ensures CorrectedAnswer("aab") == "ab"
    ensures CorrectedAnswer("abcabcbb") == "abc"
    ensures CorrectedAnswer("bbbbb") == "b"
    ensures CorrectedAnswer("pwwkew") == "wke"
  {
  }

  /**
    Some input makes the as-written trace end on a best substring with a
    repeated character, so the as-written trace does not always find a
    substring without repeating characters.
  */
  lemma AsWrittenCanEndOnRepeat()
    ensures exists input: string :: |input| > 0 && !NoRepeat(Last(Trace(input)).maxSubstring)
  {
    var input := "aab";
    TraceEndsWithAnswer(input);
    AsWrittenExamples();
    assert !NoRepeat(Last(Trace(input)).maxSubstring);
  }
}
