/**
  What the trace engine promises about every trace it produces: the
  snapshot fields derived from the pointers agree with them, the best
  result is a slice of the input whose length is recorded, consecutive
  snapshots follow the MOVE_RIGHT / DETECT_DUPLICATE / MOVE_LEFT /
  UPDATE_RESULT cycle, the pointers and the best length never decrease, and
  the right pointer visits every index from 2 to the end exactly once.
*/
module HistoryProperties {
  import opened Options
  import opened Types
  import opened History

  /** `w` is input[i..j] for some bounds i <= j. */
  ghost predicate IsSlice(w: string, input: string)
  {
    exists i, j :: 0 <= i <= j <= |input| && input[i..j] == w
  }

  /**
    The per-snapshot invariant for a non-empty input: pointers in range,
    window and character set derived from them, best length equal to the
    length of a best substring taken from the input, and the duplicate
    flag and character present exactly on DETECT_DUPLICATE snapshots.
  */
  ghost predicate WellFormed(input: string, s: AlgorithmState)
  {
    && s.inputString == input
    && 0 <= s.leftPointer <= s.rightPointer < |input|
    && s.currentWindow == input[s.leftPointer..s.rightPointer + 1]
    && s.charSet == CharsIn(input, s.leftPointer, s.rightPointer + 1)
    && s.maxLength == |s.maxSubstring|
    && IsSlice(s.maxSubstring, input)
    && (s.duplicateFound <==> s.step == DetectDuplicate)
    && s.duplicateChar == (if s.step == DetectDuplicate then Some(input[s.rightPointer]) else None)
  }

  /**
    The one-step relation between consecutive snapshots. Pointers and the
    best length never decrease; MOVE_RIGHT advances `right` by one (to 2
    right after INITIALIZE) and follows anything but DETECT_DUPLICATE;
    DETECT_DUPLICATE follows MOVE_RIGHT; MOVE_LEFT follows DETECT_DUPLICATE and
    moves `left` strictly right; UPDATE_RESULT follows MOVE_RIGHT or
    MOVE_LEFT and is the only step that changes the best result, which it
    sets to the current, strictly longer window.
  */
  predicate Successor(p: AlgorithmState, n: AlgorithmState)
  {
    && p.leftPointer <= n.leftPointer
    && p.rightPointer <= n.rightPointer
    && p.maxLength <= n.maxLength
    && n.step != Initialize
    && (n.step != UpdateResult ==> n.maxLength == p.maxLength && n.maxSubstring == p.maxSubstring)
    && (n.step != MoveRightPointer ==> n.rightPointer == p.rightPointer)
    && (n.step == MoveRightPointer ==>
          && p.step != DetectDuplicate
          && n.rightPointer == (if p.step == Initialize then 2 else p.rightPointer + 1)
          && n.leftPointer == p.leftPointer)
    && (n.step == DetectDuplicate ==> p.step == MoveRightPointer && n.leftPointer == p.leftPointer)
    && (n.step == MoveLeftPointer ==> p.step == DetectDuplicate && p.leftPointer < n.leftPointer)
    && (n.step == UpdateResult ==>
          && (p.step == MoveRightPointer || p.step == MoveLeftPointer)
          && n.leftPointer == p.leftPointer
          && p.maxLength < n.maxLength == n.rightPointer - n.leftPointer + 1
          && n.maxSubstring == n.currentWindow)
  }

  /** Every pair of consecutive snapshots is related by Successor. */
  predicate Chain(t: seq<AlgorithmState>)
  {
    forall i :: 0 < i < |t| ==> Successor(t[i - 1], t[i])
  }

  /** The right pointers of the MOVE_RIGHT snapshots, in order. */
  function MoveRightPositions(t: seq<AlgorithmState>): seq<int>
  {
    if t == [] then []
    else (if t[0].step == MoveRightPointer then [t[0].rightPointer] else []) + MoveRightPositions(t[1..])
  }

  /** The integers lo, lo + 1, ..., hi - 1. */
  function Range(lo: int, hi: int): seq<int>
    decreases hi - lo
  {
    if lo >= hi then [] else [lo] + Range(lo + 1, hi)
  }

  /**
    The shape of one scan step: MOVE_RIGHT first; DETECT_DUPLICATE and
    MOVE_LEFT exactly when the character was last seen at an index >= left,
    with `left` then one past that index; UPDATE_RESULT last, exactly when
    the resulting window is longer than the best so far.
  */
  lemma ScanStepShape(input: string, left: int, right: int, maxLength: int, maxSubstring: string,
                      charMap: map<char, int>)
    requires 0 <= left <= right < |input|
    requires MapBelow(charMap, right)
    ensures var r := ScanStep(input, left, right, maxLength, maxSubstring, charMap);
            var c := input[right];
            var duplicate := c in charMap && charMap[c] >= left;
            var grows := right - r.left + 1 > maxLength;
            && r.left == (if duplicate then charMap[c] + 1 else left)
            && (duplicate ==> left < r.left)
            && Steps(r.snapshots) == [MoveRightPointer]
                                     + (if duplicate then [DetectDuplicate, MoveLeftPointer] else [])
                                     + (if grows then [UpdateResult] else [])
            && r.maxLength == (if grows then right - r.left + 1 else maxLength)
            && r.maxSubstring == (if grows then input[r.left..right + 1] else maxSubstring)
            && (forall i :: 0 <= i < |r.snapshots| ==> r.snapshots[i].rightPointer == right)
            && r.snapshots[0].step == MoveRightPointer
            && (forall i :: 0 < i < |r.snapshots| ==> r.snapshots[i].step != MoveRightPointer)
  {
  }

  /** The last snapshot of a scan step carries the best result the step leaves behind. */
  lemma ScanCarriesBest(input: string, left: int, right: int, maxLength: int, maxSubstring: string,
                        charMap: map<char, int>)
    requires 0 <= left <= right < |input|
    requires MapBelow(charMap, right)
    ensures var r := ScanStep(input, left, right, maxLength, maxSubstring, charMap);
            && |r.snapshots| > 0
            && r.snapshots[|r.snapshots| - 1].maxLength == r.maxLength
            && r.snapshots[|r.snapshots| - 1].maxSubstring == r.maxSubstring
  {
  }

  /** Every snapshot is well formed and has its right pointer at `from` or later. */
  ghost predicate AllWellFormed(input: string, t: seq<AlgorithmState>, from: int)
  {
    forall i :: 0 <= i < |t| ==> WellFormed(input, t[i]) && from <= t[i].rightPointer
  }

  lemma AllWellFormedConcat(input: string, a: seq<AlgorithmState>, b: seq<AlgorithmState>, from: int)
    requires AllWellFormed(input, a, from) && AllWellFormed(input, b, from)
    ensures AllWellFormed(input, a + b, from)
  {
    forall i | 0 <= i < |a + b| ensures WellFormed(input, (a + b)[i]) && from <= (a + b)[i].rightPointer {
      if i >= |a| {
        assert (a + b)[i] == b[i - |a|];
      }
    }
  }

  /** A snapshot built from in-range pointers, a recorded best slice and a consistent duplicate flag is well formed. */
  lemma SnapWellFormed(input: string, left: int, right: int, maxLength: int, maxSubstring: string,
                       step: AlgorithmStep, duplicateFound: bool, duplicateChar: Option<char>)
    requires 0 <= left <= right < |input|
    requires maxLength == |maxSubstring| && IsSlice(maxSubstring, input)
    requires duplicateFound <==> step == DetectDuplicate
    requires duplicateChar == (if step == DetectDuplicate then Some(input[right]) else None)
    ensures WellFormed(input, Snap(input, left, right, maxLength, maxSubstring, step, duplicateFound, duplicateChar))
  {
  }

  /** Every snapshot of one scan step is well formed, and so is the best result it leaves. */
  lemma ScanWellFormed(input: string, left: int, right: int, maxLength: int, maxSubstring: string,
                       charMap: map<char, int>)
    requires 0 <= left <= right < |input|
    requires MapBelow(charMap, right)
    requires maxLength == |maxSubstring| && IsSlice(maxSubstring, input)
    ensures var r := ScanStep(input, left, right, maxLength, maxSubstring, charMap);
            && AllWellFormed(input, r.snapshots, right)
            && r.maxLength == |r.maxSubstring| && IsSlice(r.maxSubstring, input)
  {
    var r := ScanStep(input, left, right, maxLength, maxSubstring, charMap);
    var c := input[right];
    var newLeft := r.left;
    var best := input[newLeft..right + 1];
    assert IsSlice(best, input);
    SnapWellFormed(input, left, right, maxLength, maxSubstring, MoveRightPointer, false, None);
    SnapWellFormed(input, left, right, maxLength, maxSubstring, DetectDuplicate, true, Some(c));
    SnapWellFormed(input, newLeft, right, maxLength, maxSubstring, MoveLeftPointer, false, None);
    SnapWellFormed(input, newLeft, right, right - newLeft + 1, best, UpdateResult, false, None);
  }

  /** Every snapshot of a run is well formed and has its right pointer at or past the run's start. */
  lemma {:induction false} RunWellFormed(input: string, left: int, right: int, maxLength: int,
                                         maxSubstring: string, charMap: map<char, int>)
    requires 0 <= left <= right
    requires MapBelow(charMap, right)
    requires maxLength == |maxSubstring| && IsSlice(maxSubstring, input)
    ensures AllWellFormed(input, Run(input, left, right, maxLength, maxSubstring, charMap), right)
    decreases |input| - right
  {
    if right < |input| {
      var scan := ScanStep(input, left, right, maxLength, maxSubstring, charMap);
      var nextMap := charMap[input[right] := right];
      var rest := Run(input, scan.left, right + 1, scan.maxLength, scan.maxSubstring, nextMap);
      ScanWellFormed(input, left, right, maxLength, maxSubstring, charMap);
      assert AllWellFormed(input, rest, right) by {
        RunWellFormed(input, scan.left, right + 1, scan.maxLength, scan.maxSubstring, nextMap);
      }
      AllWellFormedConcat(input, scan.snapshots, rest, right);
    }
  }

  /**
    For non-empty input every snapshot of the trace is well formed: window
    and character set match the pointers, and the best length is the length
    of a slice of the input. No snapshot has its right pointer at index 1.
  */
  lemma TraceWellFormed(input: string)
    requires |input| > 0
    ensures var t := Trace(input);
            forall i :: 0 <= i < |t| ==> WellFormed(input, t[i]) && t[i].rightPointer != 1
  {
    var t := Trace(input);
    assert input[0..1] == input[..1];
    assert IsSlice(input[..1], input);
    var rest := Run(input, 0, 2, 1, input[..1], map[input[0] := 0]);
    RunWellFormed(input, 0, 2, 1, input[..1], map[input[0] := 0]);
    assert WellFormed(input, t[0]);
    forall i | 0 < i < |t| ensures WellFormed(input, t[i]) && t[i].rightPointer != 1 {
      assert t[i] == rest[i - 1];
    }
  }

  /** A chain followed by a chain that starts with its last element is a chain. */
  lemma ChainConcat(a: seq<AlgorithmState>, b: seq<AlgorithmState>)
    requires |a| > 0
    requires Chain(a) && Chain([a[|a| - 1]] + b)
    ensures Chain(a + b)
  {
    var t := a + b;
    forall i | 0 < i < |t| ensures Successor(t[i - 1], t[i]) {
      if i >= |a| {
        var c := [a[|a| - 1]] + b;
        assert t[i - 1] == c[i - |a|] && t[i] == c[i - |a| + 1];
      }
    }
  }

  /**
    One scan step continues a chain ending in `prev` when `prev` holds the
    loop state the step starts from; its last snapshot holds the loop state
    it leaves behind.
  */
  lemma ScanChain(input: string, prev: AlgorithmState, left: int, right: int,
                  maxLength: int, maxSubstring: string, charMap: map<char, int>)
    requires 0 <= left <= right < |input|
    requires MapBelow(charMap, right)
    requires prev.leftPointer == left && prev.maxLength == maxLength && prev.maxSubstring == maxSubstring
    requires prev.step != DetectDuplicate && prev.rightPointer < right
    requires right == (if prev.step == Initialize then 2 else prev.rightPointer + 1)
    ensures var r := ScanStep(input, left, right, maxLength, maxSubstring, charMap);
            var s := r.snapshots;
            && |s| > 0 && Chain([prev] + s)
            && s[|s| - 1].leftPointer == r.left && s[|s| - 1].rightPointer == right
            && s[|s| - 1].maxLength == r.maxLength && s[|s| - 1].maxSubstring == r.maxSubstring
            && s[|s| - 1].step != DetectDuplicate && s[|s| - 1].step != Initialize
  {
    if input[right] in charMap && charMap[input[right]] >= left {
      DuplicateScanChain(input, prev, left, right, maxLength, maxSubstring, charMap);
    } else {
      FreshScanChain(input, prev, left, right, maxLength, maxSubstring, charMap);
    }
  }

  /** ScanChain when the character at `right` repeats one inside the window. */
  lemma DuplicateScanChain(input: string, prev: AlgorithmState, left: int, right: int,
                  maxLength: int, maxSubstring: string, charMap: map<char, int>)
    requires 0 <= left <= right < |input|
    requires MapBelow(charMap, right)
    requires prev.leftPointer == left && prev.maxLength == maxLength && prev.maxSubstring == maxSubstring
    requires prev.step != DetectDuplicate && prev.rightPointer < right
    requires right == (if prev.step == Initialize then 2 else prev.rightPointer + 1)
    requires input[right] in charMap && charMap[input[right]] >= left
    ensures var r := ScanStep(input, left, right, maxLength, maxSubstring, charMap);
            var s := r.snapshots;
            && |s| > 0 && Chain([prev] + s)
            && s[|s| - 1].leftPointer == r.left && s[|s| - 1].rightPointer == right
            && s[|s| - 1].maxLength == r.maxLength && s[|s| - 1].maxSubstring == r.maxSubstring
            && s[|s| - 1].step != DetectDuplicate && s[|s| - 1].step != Initialize
  {
    var r := ScanStep(input, left, right, maxLength, maxSubstring, charMap);
    var c := input[right];
    var newLeft := charMap[c] + 1;
    var moved := Snap(input, left, right, maxLength, maxSubstring, MoveRightPointer, false, None);
    var detected := Snap(input, left, right, maxLength, maxSubstring, DetectDuplicate, true, Some(c));
    var shifted := Snap(input, newLeft, right, maxLength, maxSubstring, MoveLeftPointer, false, None);
    var updated := Snap(input, newLeft, right, right - newLeft + 1, input[newLeft..right + 1], UpdateResult, false, None);
    var tail := if right - newLeft + 1 > maxLength then [updated] else [];
    if tail != [] {
      ChainCons(shifted, tail);
    }
    ChainCons(detected, [shifted] + tail);
    ChainCons(moved, [detected] + ([shifted] + tail));
    assert r.snapshots == [moved] + ([detected] + ([shifted] + tail));
    ChainCons(prev, r.snapshots);
  }

  /** ScanChain when the character at `right` is not inside the window. */
  lemma FreshScanChain(input: string, prev: AlgorithmState, left: int, right: int,
                  maxLength: int, maxSubstring: string, charMap: map<char, int>)
    requires 0 <= left <= right < |input|
    requires MapBelow(charMap, right)
    requires prev.leftPointer == left && prev.maxLength == maxLength && prev.maxSubstring == maxSubstring
    requires prev.step != DetectDuplicate && prev.rightPointer < right
    requires right == (if prev.step == Initialize then 2 else prev.rightPointer + 1)
    requires !(input[right] in charMap && charMap[input[right]] >= left)
    ensures var r := ScanStep(input, left, right, maxLength, maxSubstring, charMap);
            var s := r.snapshots;
            && |s| > 0 && Chain([prev] + s)
            && s[|s| - 1].leftPointer == r.left && s[|s| - 1].rightPointer == right
            && s[|s| - 1].maxLength == r.maxLength && s[|s| - 1].maxSubstring == r.maxSubstring
            && s[|s| - 1].step != DetectDuplicate && s[|s| - 1].step != Initialize
  {
    var r := ScanStep(input, left, right, maxLength, maxSubstring, charMap);
    var moved := Snap(input, left, right, maxLength, maxSubstring, MoveRightPointer, false, None);
    var updated := Snap(input, left, right, right - left + 1, input[left..right + 1], UpdateResult, false, None);
    var tail := if right - left + 1 > maxLength then [updated] else [];
    if tail != [] {
      ChainCons(moved, tail);
    }
    assert r.snapshots == [moved] + tail;
    ChainCons(prev, r.snapshots);
  }

  /** Prepending a snapshot whose successor is the head of a chain gives a chain. */
  lemma ChainCons(a: AlgorithmState, t: seq<AlgorithmState>)
    requires |t| > 0 && Successor(a, t[0]) && Chain(t)
    ensures Chain([a] + t)
  {
    var at := [a] + t;
    forall i | 0 < i < |at| ensures Successor(at[i - 1], at[i]) {
      if i > 1 {
        assert at[i - 1] == t[i - 2] && at[i] == t[i - 1];
      }
    }
  }

  /**
    A run continues a chain ending in `prev` when `prev` holds the run's
    starting loop state.
  */
  lemma {:induction false} RunChain(input: string, prev: AlgorithmState, left: int, right: int,
                                    maxLength: int, maxSubstring: string, charMap: map<char, int>)
    requires 0 <= left <= right
    requires MapBelow(charMap, right)
    requires prev.leftPointer == left && prev.maxLength == maxLength && prev.maxSubstring == maxSubstring
    requires prev.step != DetectDuplicate && prev.rightPointer < right
    requires right == (if prev.step == Initialize then 2 else prev.rightPointer + 1)
    ensures Chain([prev] + Run(input, left, right, maxLength, maxSubstring, charMap))
    decreases |input| - right
  {
    if right < |input| {
      var scan := ScanStep(input, left, right, maxLength, maxSubstring, charMap);
      ScanChain(input, prev, left, right, maxLength, maxSubstring, charMap);
      var s := scan.snapshots;
      var head := [prev] + s;
      var last := s[|s| - 1];
      var nextMap := charMap[input[right] := right];
      RunChain(input, last, scan.left, right + 1, scan.maxLength, scan.maxSubstring, nextMap);
      var rest := Run(input, scan.left, right + 1, scan.maxLength, scan.maxSubstring, nextMap);
      ChainConcat(head, rest);
      assert Run(input, left, right, maxLength, maxSubstring, charMap) == s + rest;
      assert [prev] + (s + rest) == head + rest;
    }
  }

  /**
    Consecutive snapshots of every trace follow the step cycle: MOVE_RIGHT
    starts each scan step, DETECT_DUPLICATE is immediately followed by
    MOVE_LEFT, MOVE_LEFT moves `left` strictly right, and only UPDATE_RESULT
    changes the best result, to the current and strictly longer window.
  */
  lemma TraceChain(input: string)
    ensures Chain(Trace(input))
  {
    if |input| > 0 {
      RunChain(input, InitialSnapshot(input), 0, 2, 1, input[..1], map[input[0] := 0]);
    }
  }

  /** Along a chain the pointers and the best length never decrease. */
  lemma {:induction false} ChainMonotone(t: seq<AlgorithmState>)
    requires Chain(t)
    ensures forall i, j :: 0 <= i <= j < |t| ==>
              && t[i].leftPointer <= t[j].leftPointer
              && t[i].rightPointer <= t[j].rightPointer
              && t[i].maxLength <= t[j].maxLength
  {
    if |t| > 1 {
      var init := t[..|t| - 1];
      assert Chain(init) by {
        forall i | 0 < i < |init| ensures Successor(init[i - 1], init[i]) {
          assert init[i - 1] == t[i - 1] && init[i] == t[i];
        }
      }
      ChainMonotone(init);
      forall i, j | 0 <= i <= j < |t|
        ensures && t[i].leftPointer <= t[j].leftPointer
                && t[i].rightPointer <= t[j].rightPointer
                && t[i].maxLength <= t[j].maxLength
      {
        if j == |t| - 1 && i < j {
          assert init[i] == t[i] && init[j - 1] == t[j - 1];
          assert Successor(t[j - 1], t[j]);
        } else if i < j {
          assert init[i] == t[i] && init[j] == t[j];
        }
      }
    }
  }

  /** In every trace the pointers and the best length never decrease. */
  lemma TraceMonotone(input: string)
    ensures var t := Trace(input);
            forall i, j :: 0 <= i <= j < |t| ==>
              && t[i].leftPointer <= t[j].leftPointer
              && t[i].rightPointer <= t[j].rightPointer
              && t[i].maxLength <= t[j].maxLength
  {
    TraceChain(input);
    ChainMonotone(Trace(input));
  }

  /** MoveRightPositions distributes over concatenation. */
  lemma {:induction false} MoveRightPositionsConcat(a: seq<AlgorithmState>, b: seq<AlgorithmState>)
    ensures MoveRightPositions(a + b) == MoveRightPositions(a) + MoveRightPositions(b)
  {
    if a == [] {
      assert a + b == b;
    } else {
      assert (a + b)[0] == a[0] && (a + b)[1..] == a[1..] + b;
      MoveRightPositionsConcat(a[1..], b);
      var head := if a[0].step == MoveRightPointer then [a[0].rightPointer] else [];
      assert MoveRightPositions(a + b) == head + MoveRightPositions(a[1..] + b);
      assert MoveRightPositions(a) == head + MoveRightPositions(a[1..]);
    }
  }

  /** The scan steps of a run start at indices right, right + 1, ..., |input| - 1, in order. */
  lemma {:induction false} RunMoveRightPositions(input: string, left: int, right: int, maxLength: int,
                                                 maxSubstring: string, charMap: map<char, int>)
    requires 0 <= left <= right
    requires MapBelow(charMap, right)
    ensures MoveRightPositions(Run(input, left, right, maxLength, maxSubstring, charMap)) == Range(right, |input|)
    decreases |input| - right
  {
    if right < |input| {
      var scan := ScanStep(input, left, right, maxLength, maxSubstring, charMap);
      var nextMap := charMap[input[right] := right];
      var rest := Run(input, scan.left, right + 1, scan.maxLength, scan.maxSubstring, nextMap);
      ScanMoveRightPositions(input, left, right, maxLength, maxSubstring, charMap);
      assert MoveRightPositions(rest) == Range(right + 1, |input|) by {
        RunMoveRightPositions(input, scan.left, right + 1, scan.maxLength, scan.maxSubstring, nextMap);
      }
      MoveRightPositionsConcat(scan.snapshots, rest);
    }
  }

  /** One scan step has exactly one MOVE_RIGHT snapshot, at `right`. */
  lemma ScanMoveRightPositions(input: string, left: int, right: int, maxLength: int, maxSubstring: string,
                               charMap: map<char, int>)
    requires 0 <= left <= right < |input|
    requires MapBelow(charMap, right)
    ensures MoveRightPositions(ScanStep(input, left, right, maxLength, maxSubstring, charMap).snapshots) == [right]
  {
    var s := ScanStep(input, left, right, maxLength, maxSubstring, charMap).snapshots;
    assert s[0].step == MoveRightPointer && s[0].rightPointer == right;
    assert forall k :: 1 <= k < |s| ==> s[k].step != MoveRightPointer;
    MoveRightPositionsNone(s[1..]);
  }

  /** A sequence without MOVE_RIGHT snapshots has no MOVE_RIGHT positions. */
  lemma {:induction false} MoveRightPositionsNone(t: seq<AlgorithmState>)
    requires forall k :: 0 <= k < |t| ==> t[k].step != MoveRightPointer
    ensures MoveRightPositions(t) == []
  {
    if t != [] {
      MoveRightPositionsNone(t[1..]);
    }
  }

  /**
    Scan steps start at indices 2, 3, ..., |input| - 1, once each and in
    order: index 1 is never scanned.
  */
  lemma TraceScansFromIndexTwo(input: string)
    ensures MoveRightPositions(Trace(input)) == Range(2, |input|)
  {
    var t := Trace(input);
    if |input| == 0 {
      assert MoveRightPositions(t) == [];
    } else {
      var rest := Run(input, 0, 2, 1, input[..1], map[input[0] := 0]);
      RunMoveRightPositions(input, 0, 2, 1, input[..1], map[input[0] := 0]);
      MoveRightPositionsConcat([InitialSnapshot(input)], rest);
    }
  }
}
