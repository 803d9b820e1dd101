/**
  The timeline controller: the state the visualiser keeps about one run of
  the trace engine (the input, the recorded history, a cursor into it and
  the playback flags) and the callbacks that move the cursor and switch
  playback on and off.

  Each callback is one atomic method: the asynchronous batching of React
  state updates is not modelled.
*/
module AlgorithmStateHook {
  import opened Options
  import opened Types
  import opened History
  import opened HistoryProperties
  import opened HistoryExamples

  /** The snapshot shown when the cursor is not on a recorded snapshot. */
  const DefaultState: AlgorithmState := AlgorithmState("", 0, 0, "", {}, 0, "", Initialize, false, None)

  /** The example input the controller starts with. */
  const InitialInput: string := "abcabcbb"

  class Controller {
    var inputString: string
    var stateHistory: seq<AlgorithmState>
    /** The index of the shown snapshot; -1 when none is shown. */
    var currentStateIndex: int
    var isPlaying: bool
    var playbackSpeed: real
    var isRunning: bool
    /**
      The input the last start traced. The start callback reads the input of
      the render that created it, so this can be an older input than
      `inputString`; it has no counterpart among the hook's state variables.
    */
    ghost var tracedInput: string

    /**
      The cursor is -1 or on a recorded snapshot; while a run is shown the
      cursor is on a snapshot and the history is the trace of the input the
      last start traced.
    */
    ghost predicate Valid()
      reads this
    {
      && -1 <= currentStateIndex < |stateHistory|
      && (isRunning ==> 0 <= currentStateIndex && stateHistory == Trace(tracedInput))
    }

    /** The snapshot on display: the one under the cursor, or DefaultState. */
    function CurrentState(): (s: AlgorithmState)
      reads this
      ensures s in stateHistory || s == DefaultState
    {
      if 0 <= currentStateIndex < |stateHistory| then stateHistory[currentStateIndex] else DefaultState
    }

    /** Some snapshot precedes the shown one. */
    function CanGoBack(): (b: bool)
      requires Valid()
      reads this
      ensures b <==> 0 <= currentStateIndex - 1 < |stateHistory|
    {
      currentStateIndex > 0
    }

    /** Some snapshot follows the shown one (the first one, when none is shown). */
    function CanGoForward(): (b: bool)
      requires Valid()
      reads this
      ensures b <==> 0 <= currentStateIndex + 1 < |stateHistory|
    {
      currentStateIndex < |stateHistory| - 1
    }

    /**
      No snapshot follows the shown one; at the end of a non-empty history
      the last snapshot is shown.
    */
    function IsAtEnd(): (b: bool)
      requires Valid()
      reads this
      ensures b <==> !CanGoForward()
      ensures b && |stateHistory| > 0 ==> CurrentState() == stateHistory[|stateHistory| - 1]
    {
      currentStateIndex == |stateHistory| - 1
    }

    /**
      The initial state. With an empty history the cursor -1 counts as being
      at the end, so the controller starts with IsAtEnd() true.
    */
    constructor ()
      ensures Valid()
      ensures inputString == InitialInput && stateHistory == [] && currentStateIndex == -1
      ensures !isPlaying && playbackSpeed == 1.0 && !isRunning
      ensures CurrentState() == DefaultState && IsAtEnd() && !CanGoBack() && !CanGoForward()
    {
      inputString := InitialInput;
      stateHistory := [];
      currentStateIndex := -1;
      isPlaying := false;
      playbackSpeed := 1.0;
      isRunning := false;
      tracedInput := InitialInput;
    }

    /**
      Records the trace of `renderedInput` and shows its first snapshot. The
      callback is memoised over the input, so `renderedInput` is the input
      of the render that created the callback being called: the current
      input for a fresh callback, an earlier one for a callback held since
      before the input changed.
    */
    method StartAlgorithm(renderedInput: string)
      requires Valid()
      modifies this
      ensures Valid()
      ensures tracedInput == renderedInput && stateHistory == Trace(renderedInput)
      ensures currentStateIndex == 0 && isRunning
      ensures CurrentState() == InitialSnapshot(renderedInput)
      ensures inputString == old(inputString) && isPlaying == old(isPlaying) && playbackSpeed == old(playbackSpeed)
    {
      var history := GenerateStateHistory(renderedInput);
      stateHistory := history;
      currentStateIndex := 0;
      isRunning := true;
      tracedInput := renderedInput;
    }

    /** Hides the run and stops playback; the recorded history is kept. */
    method ResetAlgorithm()
      requires Valid()
      modifies this
      ensures Valid()
      ensures currentStateIndex == -1 && !isPlaying && !isRunning
      ensures CurrentState() == DefaultState
      ensures inputString == old(inputString) && stateHistory == old(stateHistory) && tracedInput == old(tracedInput)
      ensures playbackSpeed == old(playbackSpeed)
    {
      currentStateIndex := -1;
      isPlaying := false;
      isRunning := false;
    }

    /** Moves the cursor one snapshot on, when there is one; reports whether it moved. */
    method StepForward() returns (moved: bool)
      requires Valid()
      modifies this
      ensures Valid()
      ensures moved == old(CanGoForward())
      ensures currentStateIndex == if moved then old(currentStateIndex) + 1 else old(currentStateIndex)
      ensures moved ==> CurrentState() == stateHistory[currentStateIndex]
      ensures inputString == old(inputString) && stateHistory == old(stateHistory) && tracedInput == old(tracedInput)
      ensures isPlaying == old(isPlaying) && playbackSpeed == old(playbackSpeed) && isRunning == old(isRunning)
    {
      if currentStateIndex < |stateHistory| - 1 {
        currentStateIndex := currentStateIndex + 1;
        moved := true;
      } else {
        moved := false;
      }
    }

    /** Moves the cursor one snapshot back, when it is past the first; reports whether it moved. */
    method StepBackward() returns (moved: bool)
      requires Valid()
      modifies this
      ensures Valid()
      ensures moved == old(CanGoBack())
      ensures currentStateIndex == if moved then old(currentStateIndex) - 1 else old(currentStateIndex)
      ensures moved ==> CurrentState() == stateHistory[currentStateIndex]
      ensures inputString == old(inputString) && stateHistory == old(stateHistory) && tracedInput == old(tracedInput)
      ensures isPlaying == old(isPlaying) && playbackSpeed == old(playbackSpeed) && isRunning == old(isRunning)
    {
      if currentStateIndex > 0 {
        currentStateIndex := currentStateIndex - 1;
        moved := true;
      } else {
        moved := false;
      }
    }

    /** Sets the playing flag; the runner's end-of-playback callback calls it with false. */
    method SetIsPlaying(playing: bool)
      requires Valid()
      modifies this
      ensures Valid()
      ensures isPlaying == playing
      ensures inputString == old(inputString) && stateHistory == old(stateHistory) && tracedInput == old(tracedInput)
      ensures currentStateIndex == old(currentStateIndex)
      ensures playbackSpeed == old(playbackSpeed) && isRunning == old(isRunning)
    {
      isPlaying := playing;
    }

    method PlayAlgorithm()
      requires Valid()
      modifies this
      ensures Valid()
      ensures isPlaying
      ensures inputString == old(inputString) && stateHistory == old(stateHistory) && tracedInput == old(tracedInput)
      ensures currentStateIndex == old(currentStateIndex)
      ensures playbackSpeed == old(playbackSpeed) && isRunning == old(isRunning)
    {
      SetIsPlaying(true);
    }

    method PauseAlgorithm()
      requires Valid()
      modifies this
      ensures Valid()
      ensures !isPlaying
      ensures inputString == old(inputString) && stateHistory == old(stateHistory) && tracedInput == old(tracedInput)
      ensures currentStateIndex == old(currentStateIndex)
      ensures playbackSpeed == old(playbackSpeed) && isRunning == old(isRunning)
    {
      SetIsPlaying(false);
    }

    method TogglePlayPause()
      requires Valid()
      modifies this
      ensures Valid()
      ensures isPlaying == !old(isPlaying)
      ensures inputString == old(inputString) && stateHistory == old(stateHistory) && tracedInput == old(tracedInput)
      ensures currentStateIndex == old(currentStateIndex)
      ensures playbackSpeed == old(playbackSpeed) && isRunning == old(isRunning)
    {
      isPlaying := !isPlaying;
    }

    /** Takes a new input and resets; the old history stays until the next start. */
    method HandleInputChange(input: string)
      requires Valid()
      modifies this
      ensures Valid()
      ensures inputString == input && currentStateIndex == -1 && !isPlaying && !isRunning
      ensures stateHistory == old(stateHistory) && tracedInput == old(tracedInput)
      ensures playbackSpeed == old(playbackSpeed)
    {
      inputString := input;
      currentStateIndex, isPlaying, isRunning := -1, false, false;
    }

    /** Stores the speed as given. */
    method HandleSpeedChange(speed: real)
      requires Valid()
      modifies this
      ensures Valid()
      ensures playbackSpeed == speed
      ensures inputString == old(inputString) && stateHistory == old(stateHistory) && tracedInput == old(tracedInput)
      ensures currentStateIndex == old(currentStateIndex)
      ensures isPlaying == old(isPlaying) && isRunning == old(isRunning)
    {
      playbackSpeed := speed;
    }
  }

  /**
    While a run is shown the three navigation flags partition the cursor's
    positions: it can go back unless it is on the first snapshot, and it is
    at the end exactly when it cannot go forward.
  */
  lemma NavigationFlags(c: Controller)
    requires c.Valid() && c.isRunning
    ensures c.IsAtEnd() <==> !c.CanGoForward()
    ensures c.CanGoBack() <==> c.currentStateIndex != 0
    ensures c.CanGoBack() || c.CanGoForward() <==> |c.stateHistory| > 1
  {
  }

  /**
    While a run is shown the displayed snapshot is a snapshot of the trace
    of the input the last start traced, and it names that input. It is well
    formed for a non-empty input (the empty input's only snapshot is
    DefaultState itself), and at the end it holds the trace's final best
    substring. The input on display may be a later one.
  */
  lemma ShownSnapshot(c: Controller)
    requires c.Valid() && c.isRunning
    ensures c.CurrentState() == Trace(c.tracedInput)[c.currentStateIndex]
    ensures c.CurrentState().inputString == c.tracedInput
    ensures c.tracedInput == "" ==> c.CurrentState() == DefaultState
    ensures c.tracedInput != "" ==> WellFormed(c.tracedInput, c.CurrentState())
    ensures c.tracedInput != "" && c.IsAtEnd() ==>
              c.CurrentState().maxSubstring == AsWrittenAnswer(c.tracedInput)
  {
    var input := c.tracedInput;
    if input != "" {
      TraceWellFormed(input);
      TraceEndsWithAnswer(input);
    }
  }
}
