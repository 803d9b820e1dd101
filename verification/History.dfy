/**
  The trace engine: runs the "longest substring without repeating
  characters" sliding window over an input string and records one
  snapshot per step.

  The functions ScanStep, Run and Trace are the reference definition of
  the trace; the method GenerateStateHistory is the loop the hook runs,
  proved to produce exactly Trace(input).

  The loop is modelled as written, including its start: the first pass
  records index 0 and moves `right` from 0 to 1 without scanning, and the
  next pass increments `right` again before scanning, so index 1 is never
  scanned and never entered into the last-seen map. Trace therefore starts
  its scan at index 2.
*/
module History {
  import opened Options
  import opened Types

  /** The set of characters among input[lo], ..., input[hi - 1], collected from the front. */
  function CharsIn(input: string, lo: int, hi: int): set<char>
    requires 0 <= lo <= hi <= |input|
    decreases hi - lo
  {
    if lo == hi then {} else CharsIn(input, lo, hi - 1) + {input[hi - 1]}
  }

  /** CharsIn holds exactly the characters of the slice input[lo..hi]. */
  lemma {:induction false} CharsInContents(input: string, lo: int, hi: int)
    requires 0 <= lo <= hi <= |input|
    ensures forall c :: c in CharsIn(input, lo, hi) <==> c in input[lo..hi]
    decreases hi - lo
  {
    if lo < hi {
      CharsInContents(input, lo, hi - 1);
      assert input[lo..hi] == input[lo..hi - 1] + [input[hi - 1]];
    }
  }

  /** The step kinds of a sequence of snapshots, in order. */
  function Steps(t: seq<AlgorithmState>): (r: seq<AlgorithmStep>)
    ensures |r| == |t| && forall i :: 0 <= i < |t| ==> r[i] == t[i].step
  {
    seq(|t|, i requires 0 <= i < |t| => t[i].step)
  }

  /**
    A snapshot of the window input[left..right] (both ends inclusive), with
    the window text and its character set derived from the two pointers.
  */
  function Snap(input: string, left: int, right: int, maxLength: int, maxSubstring: string,
                step: AlgorithmStep, duplicateFound: bool, duplicateChar: Option<char>): (s: AlgorithmState)
    requires 0 <= left <= right < |input|
  {
    AlgorithmState(input, left, right, input[left..right + 1], CharsIn(input, left, right + 1), maxLength, maxSubstring,
                   step, duplicateFound, duplicateChar)
  }

  /**
    The INITIALIZE snapshot: both pointers at 0, and window and best result
    already holding the first character (both empty for the empty input).
  */
  function InitialSnapshot(input: string): (s: AlgorithmState)
    ensures s.step == Initialize && s.leftPointer == 0 && s.rightPointer == 0 && !s.duplicateFound
    ensures |input| == 0 ==> s.currentWindow == "" && s.charSet == {} && s.maxLength == 0 && s.maxSubstring == ""
    ensures |input| > 0 ==> s.currentWindow == input[..1] && s.charSet == {input[0]}
                            && s.maxLength == 1 && s.maxSubstring == input[..1]
  {
    var end := if |input| > 0 then 1 else 0;
    AlgorithmState(input, 0, 0, input[..end], CharsIn(input, 0, end), end, input[..end], Initialize, false, None)
  }

  /** What one scan step emits, and the loop state it leaves behind. */
  datatype ScanResult = ScanResult(snapshots: seq<AlgorithmState>, left: int, maxLength: int, maxSubstring: string)

  /** The last-seen map holds only indices already passed by `right`. */
  predicate MapBelow(charMap: map<char, int>, right: int)
  {
    forall c :: c in charMap ==> 0 <= charMap[c] < right
  }

  /**
    One scan of the character at `right`: a MOVE_RIGHT snapshot; then, when
    that character was last seen at an index >= left, a DETECT_DUPLICATE
    snapshot and a MOVE_LEFT snapshot with `left` one past that index; then,
    when the window is longer than the best so far, an UPDATE_RESULT snapshot.
  */
  function ScanStep(input: string, left: int, right: int, maxLength: int, maxSubstring: string,
                    charMap: map<char, int>): (r: ScanResult)
    requires 0 <= left <= right < |input|
    requires MapBelow(charMap, right)
    ensures left <= r.left <= right && |r.snapshots| > 0
  {
    var c := input[right];
    var duplicate := c in charMap && charMap[c] >= left;
    var newLeft := if duplicate then charMap[c] + 1 else left;
    var currentLength := right - newLeft + 1;
    var moved := Snap(input, left, right, maxLength, maxSubstring, MoveRightPointer, false, None);
    var detected := Snap(input, left, right, maxLength, maxSubstring, DetectDuplicate, true, Some(c));
    var shifted := Snap(input, newLeft, right, maxLength, maxSubstring, MoveLeftPointer, false, None);
    if currentLength > maxLength then
      var best := input[newLeft..right + 1];
      var updated := Snap(input, newLeft, right, currentLength, best, UpdateResult, false, None);
      ScanResult(if duplicate then [moved, detected, shifted, updated] else [moved, updated],
                 newLeft, currentLength, best)
    else
      ScanResult(if duplicate then [moved, detected, shifted] else [moved], newLeft, maxLength, maxSubstring)
  }

  /** The snapshots of all scan steps from index `right` to the end of the input. */
  function Run(input: string, left: int, right: int, maxLength: int, maxSubstring: string,
               charMap: map<char, int>): (t: seq<AlgorithmState>)
    requires 0 <= left <= right
    requires MapBelow(charMap, right)
    ensures |t| > 0 <==> right < |input|
    decreases |input| - right
  {
    if right >= |input| then []
    else
      var scan := ScanStep(input, left, right, maxLength, maxSubstring, charMap);
      scan.snapshots + Run(input, scan.left, right + 1, scan.maxLength, scan.maxSubstring, charMap[input[right] := right])
  }

  /**
    The whole trace: the INITIALIZE snapshot, then (for non-empty input) the
    scan steps from index 2 on, with index 0 already in the last-seen map.
  */
  function Trace(input: string): (t: seq<AlgorithmState>)
    ensures |t| >= 1 && t[0] == InitialSnapshot(input) && t[0].step == Initialize
    ensures input == "" ==> t == [AlgorithmState("", 0, 0, "", {}, 0, "", Initialize, false, None)]
  {
    if |input| == 0 then [InitialSnapshot(input)]
    else [InitialSnapshot(input)] + Run(input, 0, 2, 1, input[..1], map[input[0] := 0])
  }

  /**
    Appending what one scan step emits to a prefix of the trace, and moving
    to the loop state it leaves behind, leaves the rest of the run to do.
  */
  lemma TraceAdvances(input: string, before: seq<AlgorithmState>, left: int, right: int, maxLength: int,
                      maxSubstring: string, charMap: map<char, int>,
                      emitted: seq<AlgorithmState>, newLeft: int, newMaxLength: int, newMaxSubstring: string)
    requires 0 <= left <= right < |input|
    requires MapBelow(charMap, right)
    requires ScanResult(emitted, newLeft, newMaxLength, newMaxSubstring)
             == ScanStep(input, left, right, maxLength, maxSubstring, charMap)
    requires before + Run(input, left, right, maxLength, maxSubstring, charMap) == Trace(input)
    ensures 0 <= newLeft <= right + 1 && MapBelow(charMap[input[right] := right], right + 1)
    ensures (before + emitted) + Run(input, newLeft, right + 1, newMaxLength, newMaxSubstring, charMap[input[right] := right])
            == Trace(input)
  {
    RunStep(input, left, right, maxLength, maxSubstring, charMap, emitted, newLeft, newMaxLength, newMaxSubstring);
    var rest := Run(input, newLeft, right + 1, newMaxLength, newMaxSubstring, charMap[input[right] := right]);
    assert (before + emitted) + rest == before + (emitted + rest);
  }

  /** The scan from `right` is what one scan step emits followed by the scan from `right + 1`. */
  lemma RunStep(input: string, left: int, right: int, maxLength: int, maxSubstring: string,
                charMap: map<char, int>,
                emitted: seq<AlgorithmState>, newLeft: int, newMaxLength: int, newMaxSubstring: string)
    requires 0 <= left <= right < |input|
    requires MapBelow(charMap, right)
    requires ScanResult(emitted, newLeft, newMaxLength, newMaxSubstring)
             == ScanStep(input, left, right, maxLength, maxSubstring, charMap)
    ensures 0 <= newLeft <= right + 1 && MapBelow(charMap[input[right] := right], right + 1)
    ensures Run(input, left, right, maxLength, maxSubstring, charMap)
            == emitted + Run(input, newLeft, right + 1, newMaxLength, newMaxSubstring, charMap[input[right] := right])
  {
  }

  /** Collects the characters input[left..right] into a set, one index at a time. */
  method CollectCharSet(input: string, left: int, right: int) returns (charSet: set<char>)
    requires 0 <= left <= right < |input|
    ensures charSet == CharsIn(input, left, right + 1)
  {
    charSet := {};
    for i := left to right + 1
      invariant charSet == CharsIn(input, left, i)
    {
      charSet := charSet + {input[i]};
    }
  }

  /**
    One pass of the loop body for the character at `right`, after `right`
    has been advanced: pushes the MOVE_RIGHT snapshot, handles a duplicate,
    and records a longer window.
  */
  method ScanCharacter(input: string, left: int, right: int, maxLength: int, maxSubstring: string,
                       charMap: map<char, int>)
    returns (snapshots: seq<AlgorithmState>, newLeft: int, newMaxLength: int, newMaxSubstring: string)
    requires 0 <= left <= right < |input|
    requires MapBelow(charMap, right)
    ensures ScanResult(snapshots, newLeft, newMaxLength, newMaxSubstring)
            == ScanStep(input, left, right, maxLength, maxSubstring, charMap)
  {
    newLeft, newMaxLength, newMaxSubstring := left, maxLength, maxSubstring;
    var currentChar := input[right];
    var duplicateFound := currentChar in charMap && charMap[currentChar] >= left;
    var currentWindow := input[left..right + 1];
    var charSet := CollectCharSet(input, left, right);
    snapshots := [AlgorithmState(input, left, right, currentWindow, charSet, maxLength,
                                 maxSubstring, MoveRightPointer, false, None)];
    if duplicateFound {
      snapshots := snapshots + [AlgorithmState(input, left, right, currentWindow, charSet, maxLength,
                                               maxSubstring, DetectDuplicate, true, Some(currentChar))];
      var prevIndex := charMap[currentChar];
      newLeft := prevIndex + 1;
      var newCharSet := CollectCharSet(input, newLeft, right);
      snapshots := snapshots + [AlgorithmState(input, newLeft, right, input[newLeft..right + 1], newCharSet,
                                               maxLength, maxSubstring, MoveLeftPointer, false, None)];
    }
    var currentLength := right - newLeft + 1;
    if currentLength > newMaxLength {
      newMaxLength := currentLength;
      newMaxSubstring := input[newLeft..right + 1];
      var resultCharSet := CollectCharSet(input, newLeft, right);
      snapshots := snapshots + [AlgorithmState(input, newLeft, right, input[newLeft..right + 1], resultCharSet,
                                               newMaxLength, newMaxSubstring, UpdateResult, false, None)];
    }
  }

  /** The hook's history generator, as written. */
  method GenerateStateHistory(input: string) returns (history: seq<AlgorithmState>)
    ensures history == Trace(input)
  {
    history := [InitialSnapshot(input)];
    if |input| == 0 {
      return;
    }
    var left, right := 0, 0;
    var maxLength := 1;
    var maxSubstring := input[..1];
    var charMap: map<char, int> := map[];
    charMap := charMap[input[0] := 0];

    // The index the next scan step will look at: 2 on the first pass, right + 1 after it.
    ghost var next := 2;
    while right < |input|
      invariant 0 <= left <= right <= |input|
      invariant MapBelow(charMap, right + 1)
      invariant right == 0 ==> left == 0 && input[0] in charMap && charMap[input[0]] == 0
      invariant next == if right == 0 then 2 else right + 1
      invariant history + Run(input, left, next, maxLength, maxSubstring, charMap) == Trace(input)
      decreases |input| - right
    {
      if right > 0 || left > 0 {
        right := right + 1;
        if right >= |input| {
          break;
        }
        var emitted, newLeft, newMaxLength, newMaxSubstring :=
          ScanCharacter(input, left, right, maxLength, maxSubstring, charMap);
        TraceAdvances(input, history, left, right, maxLength, maxSubstring, charMap,
                      emitted, newLeft, newMaxLength, newMaxSubstring);
        history := history + emitted;
        left, maxLength, maxSubstring := newLeft, newMaxLength, newMaxSubstring;
      } else {
        assert charMap[input[right] := right] == charMap;
      }
      charMap := charMap[input[right] := right];
      if right == 0 && left == 0 {
        right := right + 1;
      }
      next := right + 1;
    }
  }
}
