/**
  Keyboard shortcuts: the key-down handler maps a key and the controller's
  flags to at most one controller command. Registering the handler on the
  window is not modelled; OnKeyDown stands for one key-down event reaching
  the registered handler.
*/
module KeyboardControls {
  import opened Options
  import opened AlgorithmStateHook

  datatype Command = StepBack | StepForward | PlayPause | Reset

  /** The command a key selects, and whether the browser's default action is suppressed. */
  datatype KeyOutcome = KeyOutcome(command: Option<Command>, preventDefault: bool)

  /**
    The dispatch: nothing while no run is shown; the arrow keys step only
    when a step is possible; space always toggles playback (and keeps the
    page from scrolling); 'r' and 'R' reset; every other key does nothing.
  */
  function HandleKeyDown(key: string, isRunning: bool, canGoBack: bool, canGoForward: bool): (r: KeyOutcome)
    ensures !isRunning ==> r == KeyOutcome(None, false)
    ensures r.command == Some(StepBack) <==> isRunning && key == "ArrowLeft" && canGoBack
    ensures r.command == Some(StepForward) <==> isRunning && key == "ArrowRight" && canGoForward
    ensures r.command == Some(PlayPause) <==> isRunning && key == " "
    ensures r.command == Some(Reset) <==> isRunning && (key == "r" || key == "R")
    ensures r.preventDefault <==> isRunning && key == " "
  {
    if !isRunning then KeyOutcome(None, false)
    else if key == "ArrowLeft" then KeyOutcome(if canGoBack then Some(StepBack) else None, false)
    else if key == "ArrowRight" then KeyOutcome(if canGoForward then Some(StepForward) else None, false)
    else if key == " " then KeyOutcome(Some(PlayPause), true)
    else if key == "r" || key == "R" then KeyOutcome(Some(Reset), false)
    else KeyOutcome(None, false)
  }

  /**
    A key that is none of the five shortcut keys selects nothing, whatever
    the flags; an arrow key whose step is impossible selects nothing either.
  */
  lemma OtherKeysDoNothing(key: string, isRunning: bool, canGoBack: bool, canGoForward: bool)
    ensures key !in {"ArrowLeft", "ArrowRight", " ", "r", "R"} ==>
              HandleKeyDown(key, isRunning, canGoBack, canGoForward) == KeyOutcome(None, false)
    ensures key == "ArrowLeft" && !canGoBack ==>
              HandleKeyDown(key, isRunning, canGoBack, canGoForward).command == None
    ensures key == "ArrowRight" && !canGoForward ==>
              HandleKeyDown(key, isRunning, canGoBack, canGoForward).command == None
  {
  }

  /**
    One key-down event with the controller's current flags: the selected
    command is carried out on the controller, and nothing happens without
    one.
  */
  method OnKeyDown(c: Controller, key: string) returns (outcome: KeyOutcome)
    requires c.Valid()
    modifies c
    ensures c.Valid()
    ensures outcome == HandleKeyDown(key, old(c.isRunning), old(c.CanGoBack()), old(c.CanGoForward()))
    ensures outcome.command == None ==> unchanged(c)
    ensures outcome.command == Some(StepBack) ==>
              c.currentStateIndex == old(c.currentStateIndex) - 1 && c.isPlaying == old(c.isPlaying)
              && c.isRunning == old(c.isRunning)
    ensures outcome.command == Some(StepForward) ==>
              c.currentStateIndex == old(c.currentStateIndex) + 1 && c.isPlaying == old(c.isPlaying)
              && c.isRunning == old(c.isRunning)
    ensures outcome.command == Some(PlayPause) ==>
              c.isPlaying == !old(c.isPlaying) && c.currentStateIndex == old(c.currentStateIndex)
              && c.isRunning == old(c.isRunning)
    ensures outcome.command == Some(Reset) ==>
              c.currentStateIndex == -1 && !c.isPlaying && !c.isRunning
    ensures c.inputString == old(c.inputString) && c.stateHistory == old(c.stateHistory) && c.tracedInput == old(c.tracedInput)
    ensures c.playbackSpeed == old(c.playbackSpeed)
  {
    outcome := HandleKeyDown(key, c.isRunning, c.CanGoBack(), c.CanGoForward());
    match outcome.command {
      case None =>
      case Some(StepBack) =>
        var _ := c.StepBackward();
      case Some(StepForward) =>
        var _ := c.StepForward();
      case Some(PlayPause) =>
        c.TogglePlayPause();
      case Some(Reset) =>
        c.ResetAlgorithm();
    }
  }
}
