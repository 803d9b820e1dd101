# Sliding-window visualiser: a verified model of its core

The visualiser animates the "longest substring without repeating
characters" sliding window (LeetCode problem 3) over a string of lowercase
letters. This project models the parts of it that are not drawing code:

- **The trace engine** (`History`): the loop that runs the sliding window
  and records one snapshot (`AlgorithmState`) per step. Each snapshot is
  tagged with one of five step kinds: INITIALIZE, MOVE_RIGHT_POINTER,
  DETECT_DUPLICATE, MOVE_LEFT_POINTER and UPDATE_RESULT.
  - The loop is the method `GenerateStateHistory`. It is proved to produce
    exactly the reference trace `Trace(input)`.
  - `HistoryProperties` proves what every trace satisfies: the window, the
    character set and the best result agree with the pointers and the
    input; consecutive snapshots follow the step cycle; the pointers and the
    best length never decrease; and the right pointer visits the indices
    2, 3, ... once each.
  - The loop is modelled as written. Index 1 is never scanned (see
    Findings). `CorrectedHistory` defines the trace that scans from index 1
    and proves that it ends with a longest repeat-free substring.
    `HistoryExamples` works both out on four of the built-in examples.
- **The step vocabulary** (`Types`): the step enumeration with its numeric
  codes, the snapshot record, and the two tables of step titles and
  explanations.
- **The timeline controller** (`AlgorithmStateHook.Controller`): the input,
  the recorded history, a cursor into it (-1 when nothing is shown), and
  the playing, speed and running flags.
  - Each callback is one atomic method.
  - `StartAlgorithm` takes the input of the render that created the start
    callback as a parameter. The callback is memoised over the input, so
    after a change it can be an older input than the one shown.
  - The ghost field `tracedInput` records the input the last start traced.
    It has no counterpart in the hook.
  - `Valid()` is kept by every method. The cursor is -1 or on a snapshot.
    While a run is shown, the history is the trace of `tracedInput`.
- **The auto-play gate** (`PlaybackControls.Playback`): the timer ref, and
  the set of interval handles still registered.
  - `RunEffect` is one run of the effect, including the cleanup of the run
    before it.
  - `Tick` is one firing of the interval.
  - `PlayToEnd` is proved to reach the end in exactly
    `|history| - 1 - cursor` ticks, after which playback is off and no
    interval is live.
- **Keyboard dispatch** (`KeyboardControls`): `HandleKeyDown` is a pure map
  from a key and the controller's flags to at most one command.
  `OnKeyDown` carries that command out on the controller.
- **The input panel** (`InputPanel`): `ValidateInput` runs three checks in a
  fixed order: blank, then longer than 50 UTF-16 code units, then not only
  `a`-`z`. The panel class keeps the field text and the error on display.
  Submitting a valid string resets the controller to it and starts a run.
  The start callback it calls comes from the render before the submit, so
  that run traces the previous input (see Findings).

Some behaviours of the code that the model keeps as they are:
- `startAlgorithm` (src/components/hooks/useAlgorithmState.ts:35-41) leaves
  `isPlaying` as it was.
- `resetAlgorithm` (src/components/hooks/useAlgorithmState.ts:44-48) keeps
  the recorded history.
- The INITIALIZE snapshot (src/components/hooks/useAlgorithmHistory.ts:18-28)
  already holds the first character as window and best result.
- A one-character input yields only the INITIALIZE snapshot: the loop
  (src/components/hooks/useAlgorithmHistory.ts:44-50, 141-146) moves `right`
  past the end without scanning.
- `playAlgorithm` (src/components/hooks/useAlgorithmState.ts:71-73) sets
  `isPlaying` even at the end. The playback effect
  (src/components/hooks/usePlaybackControls.ts:41-47) then clears it through
  the end-of-playback callback.
- Stepping by hand (src/components/hooks/useAlgorithmState.ts:51-68) does not
  change `isPlaying`.

## Model

| member | source | states |
|---|---|---|
| Types.StepCode | src/components/algorithm/types.ts:2-8 | each step kind has a code below 5; code 0 is exactly INITIALIZE and code 4 exactly UPDATE_RESULT |
| Types.StepFromCode | src/components/algorithm/types.ts:2-8 | a code names a step exactly when it is in 0..4, and the step named has that code |
| Types.StepCodesAreABijection | src/components/algorithm/types.ts:2-8 | code and step kind are in one-to-one correspondence over exactly five steps, and code 4 is UPDATE_RESULT |
| Types.TablesCoverEveryStep | src/components/algorithm/types.ts:24-40 | the description and explanation tables have a non-empty entry for every step kind, and no two step kinds share a description |
| History.CharsInContents | src/components/hooks/useAlgorithmHistory.ts:57-60 | the character set built for a window holds exactly the characters of that slice of the input |
| History.InitialSnapshot | src/components/hooks/useAlgorithmHistory.ts:18-28 | the INITIALIZE snapshot has both pointers at 0 and no duplicate; for an empty input its window, set and best result are empty with best length 0, otherwise they hold the first character with best length 1 |
| History.ScanStep | src/components/hooks/useAlgorithmHistory.ts:52-137 | one scan step emits at least one snapshot and leaves `left` between its old value and `right` |
| History.Run | src/components/hooks/useAlgorithmHistory.ts:44-147 | the scan from `right` emits snapshots exactly when `right` is still inside the input |
| History.Trace | src/components/hooks/useAlgorithmHistory.ts:14-32 | a trace is never empty and starts with the INITIALIZE snapshot; for the empty input it is that single default snapshot |
| History.TraceAdvances | src/components/hooks/useAlgorithmHistory.ts:44-147 | appending what one scan step emits and moving to its new loop state leaves exactly the rest of the trace to produce, with the last-seen map still holding only passed indices |
| History.CollectCharSet | src/components/hooks/useAlgorithmHistory.ts:57-60 | the `for` loop collects exactly the characters input[left..right] |
| History.ScanCharacter | src/components/hooks/useAlgorithmHistory.ts:52-137 | one pass of the loop body emits the snapshots and leaves the loop state that ScanStep defines |
| History.GenerateStateHistory | src/components/hooks/useAlgorithmHistory.ts:14-150 | the generator's loop returns exactly Trace(input) |
| HistoryProperties.ScanStepShape | src/components/hooks/useAlgorithmHistory.ts:52-137 | a scan step emits MOVE_RIGHT first; then DETECT_DUPLICATE and MOVE_LEFT exactly when the character was last seen at an index >= left, with `left` moved strictly right to one past that index; then UPDATE_RESULT exactly when the window beats the best length, the best becoming that window; all its snapshots share the scanned `right` |
| HistoryProperties.ScanCarriesBest | src/components/hooks/useAlgorithmHistory.ts:114-136 | the last snapshot of a scan step carries the best length and substring the step leaves behind |
| HistoryProperties.SnapWellFormed | src/components/hooks/useAlgorithmHistory.ts:62-111 | every snapshot `Snap` builds from in-range pointers and a recorded best slice is well formed: its window is exactly the input between the pointers, its character set exactly the characters of that window, its best length that of the best slice, and its duplicate flag and character agree with its step |
| HistoryProperties.ScanWellFormed | src/components/hooks/useAlgorithmHistory.ts:52-137 | every snapshot of a scan step is well formed, and the best length stays the length of a slice of the input |
| HistoryProperties.RunWellFormed | src/components/hooks/useAlgorithmHistory.ts:44-147 | every snapshot of the scan from `right` on is well formed |
| HistoryProperties.TraceWellFormed | src/components/hooks/useAlgorithmHistory.ts:14-150 | for a non-empty input every snapshot has 0 <= left <= right < length, window and character set equal to input[left..right] and its characters, best length equal to the length of a best substring sliced from the input, the duplicate flag and character only on DETECT_DUPLICATE (the character being input[right]), and a right pointer never equal to 1 |
| HistoryProperties.ScanChain | src/components/hooks/useAlgorithmHistory.ts:62-137 | the snapshots of a scan step follow their predecessor by the step cycle, and the last one carries the new loop state and is neither INITIALIZE nor DETECT_DUPLICATE |
| HistoryProperties.DuplicateScanChain | src/components/hooks/useAlgorithmHistory.ts:75-112 | the same, for a character last seen inside the window |
| HistoryProperties.FreshScanChain | src/components/hooks/useAlgorithmHistory.ts:114-137 | the same, for a character not seen inside the window |
| HistoryProperties.RunChain | src/components/hooks/useAlgorithmHistory.ts:44-147 | the scan from `right` on continues its predecessor by the step cycle |
| HistoryProperties.TraceChain | src/components/hooks/useAlgorithmHistory.ts:14-150 | consecutive snapshots of a trace follow the step cycle: MOVE_RIGHT advances right by one (to 2 after INITIALIZE), DETECT_DUPLICATE follows MOVE_RIGHT, MOVE_LEFT follows DETECT_DUPLICATE and moves left strictly right, and only UPDATE_RESULT changes the best, to the current strictly longer window |
| HistoryProperties.ChainMonotone | src/components/hooks/useAlgorithmHistory.ts:91-118 | along any chain of snapshots left, right and the best length never decrease |
| HistoryProperties.TraceMonotone | src/components/hooks/useAlgorithmHistory.ts:91-118 | along a trace left, right and the best length never decrease |
| HistoryProperties.MoveRightPositionsConcat | src/components/hooks/useAlgorithmHistory.ts:62-72 | the MOVE_RIGHT positions of two joined pieces of a trace are those of the first followed by those of the second |
| HistoryProperties.ScanMoveRightPositions | src/components/hooks/useAlgorithmHistory.ts:62-72 | a scan step emits exactly one MOVE_RIGHT, at the scanned index |
| HistoryProperties.RunMoveRightPositions | src/components/hooks/useAlgorithmHistory.ts:44-50 | the scan from `right` emits MOVE_RIGHT at right, right + 1, ..., length - 1, in order, each once |
| HistoryProperties.TraceScansFromIndexTwo | src/components/hooks/useAlgorithmHistory.ts:141-146 | the MOVE_RIGHT positions of a trace are exactly 2, 3, ..., length - 1: index 1 is never scanned |
| CorrectedHistory.CorrectedTrace | src/components/hooks/useAlgorithmHistory.ts:14-32 | the corrected trace also starts with the INITIALIZE snapshot |
| CorrectedHistory.NoRepeatInside | src/components/hooks/useAlgorithmHistory.ts:91-92 | a slice inside a repeat-free slice is repeat-free |
| CorrectedHistory.RepeatReachesLeft | src/components/hooks/useAlgorithmHistory.ts:91-92 | a slice reaching left of `left` repeats the character that moved `left` |
| CorrectedHistory.SlidingInvAtStart | src/components/hooks/useAlgorithmHistory.ts:34-42 | the loop state after recording index 0 satisfies the sliding-window invariant at index 1 |
| CorrectedHistory.LastSeenAdvances | src/components/hooks/useAlgorithmHistory.ts:141 | recording input[right] at `right` keeps the map the last-seen map of the scanned prefix |
| CorrectedHistory.NewLeft | src/components/hooks/useAlgorithmHistory.ts:53-92 | the new left stays between the old left and right |
| CorrectedHistory.WindowStaysUnique | src/components/hooks/useAlgorithmHistory.ts:53-92 | with the last-seen map complete, the window after the duplicate check has no repeated character and cannot be extended to the left |
| CorrectedHistory.BestStaysLongest | src/components/hooks/useAlgorithmHistory.ts:115-118 | keeping the larger of the best length and the window length bounds every repeat-free slice ending at the next index |
| CorrectedHistory.ScanStepResult | src/components/hooks/useAlgorithmHistory.ts:91-118 | one scan step leaves `left` at NewLeft and the best as the longer of the old best and the window, keeping the old one on ties |
| CorrectedHistory.SlidingStep | src/components/hooks/useAlgorithmHistory.ts:52-141 | one scan step keeps the sliding-window invariant |
| CorrectedHistory.ScanKeepsSlidingInv | src/components/hooks/useAlgorithmHistory.ts:52-141 | one scan step, as the engine defines it, keeps the sliding-window invariant |
| CorrectedHistory.FinalBestStep | src/components/hooks/useAlgorithmHistory.ts:44-147 | the final best of a scan is the final best of the scan after its first step |
| CorrectedHistory.SlidingInvAtEnd | src/components/hooks/useAlgorithmHistory.ts:44-50 | once every index is scanned the invariant makes the best a longest repeat-free substring |
| CorrectedHistory.RunFindsLongest | src/components/hooks/useAlgorithmHistory.ts:44-147 | from any state satisfying the invariant the scan ends with a longest repeat-free substring |
| CorrectedHistory.ScanFindsLongest | src/components/hooks/useAlgorithmHistory.ts:52-141 | the same, for a state with an index left to scan |
| CorrectedHistory.RunEndsWithFinalBest | src/components/hooks/useAlgorithmHistory.ts:114-136 | the last snapshot of a non-empty scan holds the final best and its length |
| CorrectedHistory.ScanEndsWithFinalBest | src/components/hooks/useAlgorithmHistory.ts:114-136 | the same, for a state with an index left to scan |
| CorrectedHistory.LastCarriesBest | src/components/hooks/useAlgorithmHistory.ts:114-136 | a best carried by the last snapshot of the remaining scan (or of this step when nothing remains) is carried by the last snapshot of the whole |
| CorrectedHistory.CorrectedTraceFindsLongest | src/components/hooks/useAlgorithmHistory.ts:14-150 | the corrected trace ends with a best substring that is a slice of the input without repeated characters, as long as any such slice, and whose length is the recorded best length |
| HistoryExamples.TraceEndsWithAnswer | src/components/hooks/useAlgorithmHistory.ts:114-136 | the as-written trace ends with AsWrittenAnswer and its length |
| HistoryExamples.CorrectedTraceEndsWithAnswer | src/components/hooks/useAlgorithmHistory.ts:114-136 | the corrected trace ends with CorrectedAnswer and its length |
| HistoryExamples.SingleCharacter | src/components/hooks/useAlgorithmHistory.ts:40-50 | a one-character input yields only the INITIALIZE snapshot, which already holds the answer |
| HistoryExamples.AsWrittenExamples | src/components/hooks/useAlgorithmHistory.ts:44-50 | on "aab", "abcabcbb", "bbbbb" and "pwwkew" the as-written trace ends with "aab", "bcab", "bb" and "pwwke", each of which repeats a character |
| HistoryExamples.CorrectedExamples | src/components/hooks/useAlgorithmHistory.ts:44-50 | on the same inputs the corrected trace ends with "ab", "abc", "b" and "wke" |
| HistoryExamples.AsWrittenCanEndOnRepeat | src/components/hooks/useAlgorithmHistory.ts:44-50 | some non-empty input makes the as-written trace end on a best substring with a repeated character |
| AlgorithmStateHook.Controller.CanGoBack | src/components/hooks/useAlgorithmState.ts:104 | true exactly when a snapshot precedes the shown one |
| AlgorithmStateHook.Controller.CanGoForward | src/components/hooks/useAlgorithmState.ts:105 | true exactly when a snapshot follows the shown one, the first one when none is shown |
| AlgorithmStateHook.Controller.IsAtEnd | src/components/hooks/useAlgorithmState.ts:106 | true exactly when the cursor cannot go forward; at the end of a non-empty history the last snapshot is shown |
| AlgorithmStateHook.Controller.CurrentState | src/components/hooks/useAlgorithmState.ts:22-32 | the shown snapshot is one of the history or the default snapshot |
| AlgorithmStateHook.Controller.constructor | src/components/hooks/useAlgorithmState.ts:14-19 | the controller starts on "abcabcbb" with an empty history, cursor -1, not playing, speed 1 and not running; it shows the default snapshot, cannot step, and counts as at the end |
| AlgorithmStateHook.Controller.StartAlgorithm | src/components/hooks/useAlgorithmState.ts:35-41 | the history becomes the trace of the input the callback was created with, which is recorded as the traced input; the cursor becomes 0 and the run is shown, on the INITIALIZE snapshot of that input; the input, playing flag and speed are unchanged |
| AlgorithmStateHook.Controller.ResetAlgorithm | src/components/hooks/useAlgorithmState.ts:44-48 | the cursor becomes -1 and playing and running false, showing the default snapshot; the history is kept |
| AlgorithmStateHook.Controller.StepForward | src/components/hooks/useAlgorithmState.ts:51-58 | reports true exactly when the cursor could go forward, and then moves it by one; otherwise nothing changes |
| AlgorithmStateHook.Controller.StepBackward | src/components/hooks/useAlgorithmState.ts:61-68 | reports true exactly when the cursor was past the first snapshot, and then moves it back by one; otherwise nothing changes |
| AlgorithmStateHook.Controller.SetIsPlaying | src/components/hooks/useAlgorithmState.ts:116 | sets the playing flag to the given value and nothing else |
| AlgorithmStateHook.Controller.PlayAlgorithm | src/components/hooks/useAlgorithmState.ts:71-73 | playing becomes true whatever the cursor; nothing else changes |
| AlgorithmStateHook.Controller.PauseAlgorithm | src/components/hooks/useAlgorithmState.ts:76-78 | playing becomes false; nothing else changes |
| AlgorithmStateHook.Controller.TogglePlayPause | src/components/hooks/useAlgorithmState.ts:81-83 | playing is negated; nothing else changes |
| AlgorithmStateHook.Controller.HandleInputChange | src/components/hooks/useAlgorithmState.ts:86-89 | the input is replaced and the controller reset: cursor -1, not playing, not running, history and speed kept |
| AlgorithmStateHook.Controller.HandleSpeedChange | src/components/hooks/useAlgorithmState.ts:92-94 | the speed is stored as given; nothing else changes |
| AlgorithmStateHook.NavigationFlags | src/components/hooks/useAlgorithmState.ts:104-106 | while a run is shown: at the end exactly when the cursor cannot go forward, able to go back exactly when not on the first snapshot, and able to step at all exactly when the history has more than one snapshot |
| AlgorithmStateHook.ShownSnapshot | src/components/hooks/useAlgorithmState.ts:22-32 | while a run is shown, the displayed snapshot is the snapshot at the cursor of the trace of the input the last start traced, and it names that input; it is the default snapshot for the empty input, well formed otherwise, and holds the trace's final best at the end |
| PlaybackControls.Playback.constructor | src/components/hooks/usePlaybackControls.ts:23 | the timer ref starts empty with no interval live |
| PlaybackControls.Playback.ClearPlaybackTimer | src/components/hooks/usePlaybackControls.ts:26-31 | afterwards the ref is empty and no interval is live; when the ref was already empty nothing changes, so a second call does nothing |
| PlaybackControls.Playback.RunEffect | src/components/hooks/usePlaybackControls.ts:34-50 | afterwards an interval is installed exactly when playing and not at the end; it is a fresh one and the previous one is cleared, so at most one is live; playing ends exactly when the effect ran at the end while playing; the cursor and history are untouched |
| PlaybackControls.Playback.Tick | src/components/hooks/usePlaybackControls.ts:38-40 | one firing steps the cursor forward by exactly one, after which the interval is live exactly when not at the end and playing is on exactly when not at the end |
| PlaybackControls.Playback.PlayToEnd | src/components/hooks/usePlaybackControls.ts:35-47 | from cursor k with the interval installed, exactly |history| - 1 - k ticks bring the cursor to the end, after which playing is off and no interval is live |
| PlaybackControls.Playback.ChangeSpeed | src/components/hooks/usePlaybackControls.ts:34-50 | a new speed is stored and the effect re-runs: the old interval is cleared and any new one is fresh; playing stays on exactly when it was on and the cursor is not at the end; the cursor, history, input and running flag are unchanged |
| KeyboardControls.HandleKeyDown | src/components/hooks/useKeyboardControls.ts:29-48 | nothing while not running; StepBack exactly for ArrowLeft when it can go back; StepForward exactly for ArrowRight when it can go forward; PlayPause exactly for space; Reset exactly for 'r' or 'R'; the default action is suppressed exactly for space while running |
| KeyboardControls.OtherKeysDoNothing | src/components/hooks/useKeyboardControls.ts:32-47 | a key other than the five shortcut keys selects nothing, and an arrow whose step is impossible selects nothing |
| KeyboardControls.OnKeyDown | src/components/hooks/useKeyboardControls.ts:29-48 | the selected command is carried out on the controller: one step back or forward, or playing toggled, each leaving the other flags as they were, or a reset; nothing changes without a command |
| InputPanel.IsJsWhitespace | src/components/input/InputPanel.tsx:53 | every character trim removes lies in the Basic Multilingual Plane, and no ASCII letter is one of them |
| InputPanel.TrimStart | src/components/input/InputPanel.tsx:53 | the result is a suffix of the string; the prefix removed is all white space; the result is empty exactly when the string is blank and otherwise starts with a non-white-space character |
| InputPanel.TrimEnd | src/components/input/InputPanel.tsx:53 | the result is a prefix of the string; the suffix removed is all white space; the result is empty exactly when the string is blank and otherwise ends with a non-white-space character |
| InputPanel.Trim | src/components/input/InputPanel.tsx:53 | the result is a slice of the string with only white space before and after it; it is empty exactly when the string is blank and otherwise neither starts nor ends with white space |
| InputPanel.TrimOfTrimmedStart | src/components/input/InputPanel.tsx:53 | trimming the end of a string whose leading white space is already removed leaves a slice of the original with only white space on either side, empty exactly when the original is blank |
| InputPanel.Utf16Length | src/components/input/InputPanel.tsx:58 | the UTF-16 length lies between the number of code points and twice that |
| InputPanel.Utf16LengthOfBmp | src/components/input/InputPanel.tsx:58 | a string of Basic Multilingual Plane characters has one code unit per character |
| InputPanel.Utf16LengthOfAstral | src/components/input/InputPanel.tsx:58 | a string of characters above U+FFFF has two code units per character |
| InputPanel.IsLowercaseWord | src/components/input/InputPanel.tsx:63 | a string matching ^[a-z]+$ is non-empty and has no white space at either end |
| InputPanel.ErrorMessage | src/components/input/InputPanel.tsx:54-64 | every error has a non-empty message |
| InputPanel.ErrorText | src/components/input/InputPanel.tsx:52-70 | the displayed error is empty exactly when validation passed |
| InputPanel.ValidateInput | src/components/input/InputPanel.tsx:52-70 | the blank error exactly for blank input; the too-long error exactly for non-blank input of more than 50 UTF-16 code units; the lowercase error exactly for non-blank input within the limit that is not one or more letters a-z |
| InputPanel.AcceptedExactly | src/components/input/InputPanel.tsx:63-69 | a string passes exactly when it is 1 to 50 letters a-z; such a string has nothing to trim and one code unit per letter |
| InputPanel.LowercaseWordShape | src/components/input/InputPanel.tsx:53-63 | a string of one or more letters a-z is not blank, is its own trim and has one code unit per letter |
| InputPanel.CheckOrderExamples | src/components/input/InputPanel.tsx:53-66 | sixty spaces give the blank error rather than too long; sixty capitals give too long rather than not lowercase; " abc " gives not lowercase |
| InputPanel.LengthCountsCodeUnits | src/components/input/InputPanel.tsx:58-61 | twenty-six characters above U+FFFF count as fifty-two code units and are rejected as too long |
| InputPanel.Panel.constructor | src/components/input/InputPanel.tsx:48-49 | the panel starts with its initial text and no error |
| InputPanel.Panel.Validate | src/components/input/InputPanel.tsx:52-70 | reports success exactly when validation passes and shows that validation's error text; the field text is kept |
| InputPanel.Panel.HandleChange | src/components/input/InputPanel.tsx:117-123 | the field takes the new text; an error on display is re-checked against it, and no error stays no error |
| InputPanel.Panel.HandleSubmit | src/components/input/InputPanel.tsx:126-133 | a valid field text resets the controller to it and starts a run through the previous render's callback: the controller shows the text, running from cursor 0, not playing, at the same speed, but its history is the trace of the input it held before the submit; an invalid text only shows its error and leaves the controller unchanged |
| InputPanel.Panel.HandleSubmitIntended | src/components/input/InputPanel.tsx:126-133 | the intended submit: a valid text is both the input shown and the input traced, so the controller runs the trace of that text from its INITIALIZE snapshot; an invalid text leaves the controller unchanged |
| InputPanel.StaleSubmitExample | src/components/input/InputPanel.tsx:126-133 | submitting any valid text to a new controller shows that text, while the input traced is the controller's initial "abcabcbb" and the history is its trace; whenever the text differs from "abcabcbb", such as "bbbbb", that history is not the trace of the text shown and its snapshots name "abcabcbb" |
| InputPanel.Panel.HandleExampleSelect | src/components/input/InputPanel.tsx:85-99 | the example becomes the field text and is submitted as above: when valid, the controller shows the example, running from cursor 0, not playing, at the same speed, with the trace of the input it held before; when invalid the controller is unchanged |

## Left out

- Rendering, animation and layout (the SVG views, the control widgets and the pixel geometry) are not part of this model.
- Real time is not modelled: the interval period of 1000 / speed milliseconds, the scheduling of `setInterval` and `setTimeout`, and the 10, 100 and 500 millisecond start delays. A tick is a call of `Tick`.
- React's asynchronous state updates and effect ordering are not modelled. Each callback is one atomic method, and the playback effect runs when `RunEffect` is called.
- Registering the key-down handler on the window, and removing it, is not modelled. `OnKeyDown` stands for one event reaching the handler. The `isPlaying` option the keyboard hook receives is unused by it and is left out.
- The end-of-playback callback is optional in the playback hook. The model uses the one the runner passes, which sets playing to false.
- The random initial string, the random-string button and the mount effect that validates and starts on it depend on a random source and are not part of this model. The panel's constructor takes the initial text as a parameter. On mount the panel's effect does what `HandleSubmit` does with the initial text. Its delayed start callback, and the one the runner's own mount effect calls, come from the first render, so both trace "abcabcbb".
- The disabled state of the panel's form is a rendering concern and is left out.
- The speed is any real number, stored as given. A zero or negative speed only affects the interval period, which is not modelled.
- Strings are sequences of Unicode code points. Surrogate code units on their own cannot be represented, so the UTF-16 length is computed from code points.

## Findings

| source | as written | input that shows it | evidently intended | confidence | as-written member | corrected member |
|---|---|---|---|---|---|---|
| src/components/hooks/useAlgorithmHistory.ts:44-50 | after the first pass sets `right` to 1 (line 145), the next pass increments it to 2 before scanning, so index 1 is never scanned or recorded in the last-seen map | "aab": the trace ends with best substring "aab", which repeats 'a' ("abcabcbb" ends with "bcab") | every index after the first is scanned, and the trace ends with a longest substring without repeated characters ("ab" for "aab", "abc" for "abcabcbb") | high; not executed | HistoryExamples.AsWrittenCanEndOnRepeat | CorrectedHistory.CorrectedTraceFindsLongest |
| src/components/input/InputPanel.tsx:126-133 | the start callback `onStart` is `startAlgorithm` from the render before the new text (src/components/AlgorithmRunner.tsx:92, src/components/hooks/useAlgorithmState.ts:35-41), so the run traces the previous input; the example choice (lines 85-99) does the same | a new controller holds "abcabcbb"; submitting "bbbbb" shows the text "bbbbb" but the history is the trace of "abcabcbb" | the run shown is the trace of the submitted text | high; not executed | InputPanel.StaleSubmitExample | InputPanel.Panel.HandleSubmitIntended |
