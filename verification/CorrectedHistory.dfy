/**
  The trace the generator evidently intends: the same scan steps, started
  at index 1 instead of 2, so that every index after the first is scanned
  and entered into the last-seen map. For this trace the final best
  substring is proved to be a longest substring without repeated
  characters, which the as-written trace is not (see HistoryExamples).
*/
module CorrectedHistory {
  import opened Types
  import opened History
  import opened HistoryProperties

  /** The INITIALIZE snapshot followed by the scan steps from index 1 on. */
  function CorrectedTrace(input: string): (t: seq<AlgorithmState>)
    ensures |t| >= 1 && t[0] == InitialSnapshot(input)
  {
    if |input| == 0 then [InitialSnapshot(input)]
    else [InitialSnapshot(input)] + Run(input, 0, 1, 1, input[..1], map[input[0] := 0])
  }

  /** No character occurs twice in `w`. */
  predicate NoRepeat(w: string)
  {
    forall i, j :: 0 <= i < j < |w| ==> w[i] != w[j]
  }

  /** The slice input[a..b] has no repeated character. */
  predicate UniqueSlice(input: string, a: int, b: int)
    requires 0 <= a <= b <= |input|
  {
    NoRepeat(input[a..b])
  }

  /** No repeat-free slice input[a..b] with b <= hi is longer than n. */
  ghost predicate UniqueSlicesAtMost(input: string, hi: int, n: int)
    requires hi <= |input|
  {
    forall a, b :: 0 <= a <= b <= hi && UniqueSlice(input, a, b) ==> b - a <= n
  }

  /** `best` is a slice of `input` without repeats, and no such slice is longer. */
  ghost predicate IsLongestUnique(input: string, best: string)
  {
    && IsSlice(best, input)
    && NoRepeat(best)
    && UniqueSlicesAtMost(input, |input|, |best|)
  }

  /** `charMap` maps exactly the characters of input[..right] to their last index there. */
  ghost predicate LastSeen(input: string, right: int, charMap: map<char, int>)
    requires 0 <= right <= |input|
  {
    && (forall c :: c in charMap <==> c in input[..right])
    && (forall c :: c in charMap ==> 0 <= charMap[c] < right && input[charMap[c]] == c)
    && (forall c, k :: c in charMap && charMap[c] < k < right ==> input[k] != c)
  }

  /**
    The sliding-window invariant before scanning index `right`: the map is
    the last-seen map of input[..right]; the window input[left..right] has
    no repeats and cannot be extended to the left; the best result has no
    repeats and is at least as long as every repeat-free slice ending at or
    before `right`.
  */
  ghost predicate SlidingInv(input: string, left: int, right: int, maxLength: int, maxSubstring: string,
                             charMap: map<char, int>)
  {
    && 1 <= right <= |input|
    && 0 <= left <= right
    && LastSeen(input, right, charMap)
    && NoRepeat(input[left..right])
    && (left == 0 || input[left - 1] in input[left..right])
    && maxLength == |maxSubstring| && IsSlice(maxSubstring, input) && NoRepeat(maxSubstring)
    && UniqueSlicesAtMost(input, right, maxLength)
  }

  /** A slice of a repeat-free slice is repeat-free. */
  lemma NoRepeatInside(input: string, a: int, b: int, a': int, b': int)
    requires 0 <= a <= a' <= b' <= b <= |input|
    requires NoRepeat(input[a..b])
    ensures NoRepeat(input[a'..b'])
  {
    forall i, j | 0 <= i < j < b' - a' ensures input[a'..b'][i] != input[a'..b'][j] {
      assert input[a'..b'][i] == input[a..b][i + a' - a];
      assert input[a'..b'][j] == input[a..b][j + a' - a];
    }
  }

  /** If input[l - 1] occurs again in input[l..r], no slice input[a..r] with a < l is repeat-free. */
  lemma RepeatReachesLeft(input: string, a: int, l: int, r: int)
    requires 0 <= a < l <= r <= |input|
    requires input[l - 1] in input[l..r]
    ensures !NoRepeat(input[a..r])
  {
    var k :| 0 <= k < r - l && input[l..r][k] == input[l - 1];
    var w := input[a..r];
    assert w[l - 1 - a] == input[l - 1];
    assert w[k + l - a] == input[l..r][k];
  }

  /** The sliding-window invariant holds after the first character is recorded. */
  lemma SlidingInvAtStart(input: string)
    requires |input| > 0
    ensures SlidingInv(input, 0, 1, 1, input[..1], map[input[0] := 0])
  {
    var m := map[input[0] := 0];
    assert input[..1] == [input[0]];
    assert input[0..1] == input[..1];
    assert IsSlice(input[..1], input);
    forall a, b | 0 <= a <= b <= 1 && UniqueSlice(input, a, b) ensures b - a <= 1 {
    }
    forall c ensures c in m <==> c in input[..1] {
    }
  }

  /** Recording index `right` turns the last-seen map of input[..right] into that of input[..right + 1]. */
  lemma LastSeenAdvances(input: string, right: int, charMap: map<char, int>)
    requires 0 <= right < |input|
    requires LastSeen(input, right, charMap)
    ensures LastSeen(input, right + 1, charMap[input[right] := right])
  {
    var c := input[right];
    var m := charMap[c := right];
    assert input[..right + 1] == input[..right] + [c];
    forall d, k | d in m && m[d] < k < right + 1 ensures input[k] != d {
      if d != c && k == right {
        assert input[charMap[d]] == d;
      }
    }
  }

  /**
    Where the scan moves `left` to: past the last occurrence of input[right]
    when that occurrence is inside the window, otherwise nowhere.
  */
  function NewLeft(input: string, left: int, right: int, charMap: map<char, int>): (nl: int)
    requires 0 <= left <= right < |input|
    requires MapBelow(charMap, right)
    ensures left <= nl <= right
  {
    var c := input[right];
    if c in charMap && charMap[c] >= left then charMap[c] + 1 else left
  }

  /**
    After the scan at `right`, the window input[NewLeft..right + 1] has no
    repeats and cannot be extended to the left.
  */
  lemma WindowStaysUnique(input: string, left: int, right: int, charMap: map<char, int>)
    requires 0 <= left <= right < |input|
    requires LastSeen(input, right, charMap)
    requires NoRepeat(input[left..right])
    requires left == 0 || input[left - 1] in input[left..right]
    ensures var nl := NewLeft(input, left, right, charMap);
            && left <= nl <= right
            && NoRepeat(input[nl..right + 1])
            && (nl == 0 || input[nl - 1] in input[nl..right + 1])
  {
    var c := input[right];
    var nl := NewLeft(input, left, right, charMap);
    var duplicate := c in charMap && charMap[c] >= left;
    forall k | nl <= k < right ensures input[k] != c {
      if c !in charMap {
        assert input[..right][k] == input[k];
      }
    }
    NoRepeatInside(input, left, right, nl, right);
    var w := input[nl..right + 1];
    forall i, j | 0 <= i < j < |w| ensures w[i] != w[j] {
      assert w[i] == input[nl + i];
      if j < |w| - 1 {
        assert w[i] == input[nl..right][i] && w[j] == input[nl..right][j];
      }
    }
    if nl > 0 {
      if duplicate {
        assert input[nl - 1] == c == w[|w| - 1];
      } else {
        var k :| 0 <= k < right - left && input[left..right][k] == input[left - 1];
        assert w[k] == input[left..right][k];
      }
    }
  }

  /**
    A best length that bounds every repeat-free slice ending at or before
    `right`, raised to at least the new window's length, bounds every one
    ending at or before `right + 1`.
  */
  lemma BestStaysLongest(input: string, nl: int, right: int, maxLength: int, newMax: int)
    requires 0 <= nl <= right < |input|
    requires nl == 0 || input[nl - 1] in input[nl..right + 1]
    requires UniqueSlicesAtMost(input, right, maxLength)
    requires maxLength <= newMax && right + 1 - nl <= newMax
    ensures UniqueSlicesAtMost(input, right + 1, newMax)
  {
    forall a, b | 0 <= a <= b <= right + 1 && UniqueSlice(input, a, b) ensures b - a <= newMax {
      if b == right + 1 && a < nl {
        RepeatReachesLeft(input, a, nl, right + 1);
      }
    }
  }

  /** The loop state a scan step leaves behind, in terms of NewLeft. */
  lemma ScanStepResult(input: string, left: int, right: int, maxLength: int, maxSubstring: string,
                       charMap: map<char, int>)
    requires 0 <= left <= right < |input|
    requires MapBelow(charMap, right)
    ensures var r := ScanStep(input, left, right, maxLength, maxSubstring, charMap);
            var nl := NewLeft(input, left, right, charMap);
            && r.left == nl
            && r.maxLength == (if right - nl + 1 > maxLength then right - nl + 1 else maxLength)
            && r.maxSubstring == (if right - nl + 1 > maxLength then input[nl..right + 1] else maxSubstring)
  {
  }

  /**
    The sliding-window invariant carried over one index: `nl` is where the
    scan moves `left` to, and the best result is replaced by the new window
    exactly when the window is longer.
  */
  lemma SlidingStep(input: string, left: int, right: int, maxLength: int, maxSubstring: string,
                    charMap: map<char, int>, newMax: int, newBest: string)
    requires SlidingInv(input, left, right, maxLength, maxSubstring, charMap)
    requires right < |input|
    requires var nl := NewLeft(input, left, right, charMap);
             && newMax == (if right - nl + 1 > maxLength then right - nl + 1 else maxLength)
             && newBest == (if right - nl + 1 > maxLength then input[nl..right + 1] else maxSubstring)
    ensures SlidingInv(input, NewLeft(input, left, right, charMap), right + 1, newMax, newBest,
                       charMap[input[right] := right])
  {
    var nl := NewLeft(input, left, right, charMap);
    WindowStaysUnique(input, left, right, charMap);
    BestStaysLongest(input, nl, right, maxLength, newMax);
    LastSeenAdvances(input, right, charMap);
    if right - nl + 1 > maxLength {
      assert IsSlice(input[nl..right + 1], input);
    }
  }

  /** One scan step preserves the sliding-window invariant. */
  lemma ScanKeepsSlidingInv(input: string, left: int, right: int, maxLength: int, maxSubstring: string,
                            charMap: map<char, int>)
    requires SlidingInv(input, left, right, maxLength, maxSubstring, charMap)
    requires right < |input|
    ensures MapBelow(charMap, right)
    ensures var r := ScanStep(input, left, right, maxLength, maxSubstring, charMap);
            SlidingInv(input, r.left, right + 1, r.maxLength, r.maxSubstring, charMap[input[right] := right])
  {
    assert MapBelow(charMap, right);
    var r := ScanStep(input, left, right, maxLength, maxSubstring, charMap);
    ScanStepResult(input, left, right, maxLength, maxSubstring, charMap);
    SlidingStep(input, left, right, maxLength, maxSubstring, charMap, r.maxLength, r.maxSubstring);
  }

  /** The best substring a run from `right` leaves behind once the input is exhausted. */
  function FinalBest(input: string, left: int, right: int, maxLength: int, maxSubstring: string,
                     charMap: map<char, int>): string
    requires 0 <= left <= right
    requires MapBelow(charMap, right)
    decreases |input| - right
  {
    if right >= |input| then maxSubstring
    else
      var nl := NewLeft(input, left, right, charMap);
      var grows := right - nl + 1 > maxLength;
      FinalBest(input, nl, right + 1, if grows then right - nl + 1 else maxLength,
                if grows then input[nl..right + 1] else maxSubstring, charMap[input[right] := right])
  }

  /** FinalBest from index `right` is FinalBest from the next index, after the scan at `right`. */
  lemma FinalBestStep(input: string, left: int, right: int, maxLength: int, maxSubstring: string,
                      charMap: map<char, int>)
    requires 0 <= left <= right < |input|
    requires MapBelow(charMap, right)
    ensures var nl := NewLeft(input, left, right, charMap);
            var grows := right - nl + 1 > maxLength;
            FinalBest(input, left, right, maxLength, maxSubstring, charMap)
            == FinalBest(input, nl, right + 1, if grows then right - nl + 1 else maxLength,
                         if grows then input[nl..right + 1] else maxSubstring, charMap[input[right] := right])
  {
  }

  /** Once the whole input has been scanned, the sliding-window invariant says the best result is a longest one. */
  lemma SlidingInvAtEnd(input: string, left: int, maxLength: int, maxSubstring: string, charMap: map<char, int>)
    requires SlidingInv(input, left, |input|, maxLength, maxSubstring, charMap)
    ensures IsLongestUnique(input, maxSubstring)
  {
  }

  /** Under the sliding-window invariant, the best substring a run leaves behind is a longest repeat-free slice. */
  lemma {:induction false} RunFindsLongest(input: string, left: int, right: int, maxLength: int,
                                           maxSubstring: string, charMap: map<char, int>)
    requires SlidingInv(input, left, right, maxLength, maxSubstring, charMap)
    ensures MapBelow(charMap, right)
    ensures IsLongestUnique(input, FinalBest(input, left, right, maxLength, maxSubstring, charMap))
    decreases |input| - right, 1
  {
    assert MapBelow(charMap, right);
    if right < |input| {
      ScanFindsLongest(input, left, right, maxLength, maxSubstring, charMap);
    } else {
      SlidingInvAtEnd(input, left, maxLength, maxSubstring, charMap);
    }
  }

  /** The induction step of RunFindsLongest: scan index `right`, then run from the next index. */
  lemma {:induction false} ScanFindsLongest(input: string, left: int, right: int, maxLength: int,
                                            maxSubstring: string, charMap: map<char, int>)
    requires SlidingInv(input, left, right, maxLength, maxSubstring, charMap)
    requires right < |input|
    ensures MapBelow(charMap, right)
    ensures IsLongestUnique(input, FinalBest(input, left, right, maxLength, maxSubstring, charMap))
    decreases |input| - right, 0
  {
    assert MapBelow(charMap, right);
    var nl := NewLeft(input, left, right, charMap);
    var grows := right - nl + 1 > maxLength;
    var newMax := if grows then right - nl + 1 else maxLength;
    var newBest := if grows then input[nl..right + 1] else maxSubstring;
    var nextMap := charMap[input[right] := right];
    assert SlidingInv(input, nl, right + 1, newMax, newBest, nextMap) by {
      SlidingStep(input, left, right, maxLength, maxSubstring, charMap, newMax, newBest);
    }
    assert IsLongestUnique(input, FinalBest(input, nl, right + 1, newMax, newBest, nextMap)) by {
      RunFindsLongest(input, nl, right + 1, newMax, newBest, nextMap);
    }
    FinalBestStep(input, left, right, maxLength, maxSubstring, charMap);
  }

  /** A non-empty sequence of snapshots ends with `best` as its best result, recorded with its length. */
  predicate EndsWithBest(t: seq<AlgorithmState>, best: string)
  {
    |t| > 0 ==> t[|t| - 1].maxSubstring == best && t[|t| - 1].maxLength == |best|
  }

  /**
    The last snapshot of a non-empty run holds the best substring the run
    leaves behind, together with its length.
  */
  lemma {:induction false} RunEndsWithFinalBest(input: string, left: int, right: int, maxLength: int,
                                                maxSubstring: string, charMap: map<char, int>)
    requires 0 <= left <= right
    requires MapBelow(charMap, right)
    requires maxLength == |maxSubstring|
    ensures EndsWithBest(Run(input, left, right, maxLength, maxSubstring, charMap),
                         FinalBest(input, left, right, maxLength, maxSubstring, charMap))
    decreases |input| - right
  {
    if right < |input| {
      var scan := ScanStep(input, left, right, maxLength, maxSubstring, charMap);
      ScanStepResult(input, left, right, maxLength, maxSubstring, charMap);
      RunEndsWithFinalBest(input, scan.left, right + 1, scan.maxLength, scan.maxSubstring,
                           charMap[input[right] := right]);
      ScanEndsWithFinalBest(input, left, right, maxLength, maxSubstring, charMap);
    }
  }

  /** The step of RunEndsWithFinalBest: one scan step in front of a run that ends with its final best. */
  lemma ScanEndsWithFinalBest(input: string, left: int, right: int, maxLength: int,
                              maxSubstring: string, charMap: map<char, int>)
    requires 0 <= left <= right < |input|
    requires MapBelow(charMap, right)
    requires maxLength == |maxSubstring|
    requires var scan := ScanStep(input, left, right, maxLength, maxSubstring, charMap);
             var nextMap := charMap[input[right] := right];
             EndsWithBest(Run(input, scan.left, right + 1, scan.maxLength, scan.maxSubstring, nextMap),
                          FinalBest(input, scan.left, right + 1, scan.maxLength, scan.maxSubstring, nextMap))
    ensures EndsWithBest(Run(input, left, right, maxLength, maxSubstring, charMap),
                         FinalBest(input, left, right, maxLength, maxSubstring, charMap))
  {
    var scan := ScanStep(input, left, right, maxLength, maxSubstring, charMap);
    var nextMap := charMap[input[right] := right];
    ScanStepResult(input, left, right, maxLength, maxSubstring, charMap);
    ScanCarriesBest(input, left, right, maxLength, maxSubstring, charMap);
    var rest := Run(input, scan.left, right + 1, scan.maxLength, scan.maxSubstring, nextMap);
    var best := FinalBest(input, left, right, maxLength, maxSubstring, charMap);
    assert Run(input, left, right, maxLength, maxSubstring, charMap) == scan.snapshots + rest;
    assert best == FinalBest(input, scan.left, right + 1, scan.maxLength, scan.maxSubstring, nextMap);
    LastCarriesBest(scan.snapshots, rest, best);
  }

  /** A sequence followed by one ending with `best` ends with `best`; so does a sequence followed by nothing. */
  lemma LastCarriesBest(s: seq<AlgorithmState>, rest: seq<AlgorithmState>, best: string)
    requires EndsWithBest(rest, best)
    requires |rest| == 0 ==> EndsWithBest(s, best)
    ensures EndsWithBest(s + rest, best)
  {
    if |rest| > 0 {
      assert (s + rest)[|s + rest| - 1] == rest[|rest| - 1];
    } else {
      assert s + rest == s;
    }
  }

  /**
    The corrected trace ends with a longest substring without repeated
    characters, and its recorded length.
  */
  lemma CorrectedTraceFindsLongest(input: string)
    ensures var t := CorrectedTrace(input);
            && t[|t| - 1].maxLength == |t[|t| - 1].maxSubstring|
            && IsLongestUnique(input, t[|t| - 1].maxSubstring)
  {
    var t := CorrectedTrace(input);
    if |input| == 0 {
      assert input[0..0] == "";
      assert IsSlice("", input);
    } else {
      var start := map[input[0] := 0];
      SlidingInvAtStart(input);
      RunFindsLongest(input, 0, 1, 1, input[..1], start);
      RunEndsWithFinalBest(input, 0, 1, 1, input[..1], start);
      var rest := Run(input, 0, 1, 1, input[..1], start);
      if |rest| > 0 {
        assert t[|t| - 1] == rest[|rest| - 1];
      } else {
        assert input[1..] == [] && input == input[..1];
      }
    }
  }
}
