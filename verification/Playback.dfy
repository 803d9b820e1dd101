/**
  The auto-play gate: the effect that installs or clears the interval timer
  that steps the controller forward, and the end-of-playback callback.

  Timers are identified by the handles the timer service hands out; the
  model keeps the set of handles still registered, so that "at most one
  timer is live" can be stated. Real time (the interval period of
  1000 / playbackSpeed milliseconds) is not modelled: a tick is a call of
  Tick.

  The end-of-playback callback is the one the runner installs, which stops
  playback on the controller.
*/
module PlaybackControls {
  import opened Options
  import opened AlgorithmStateHook

  class Playback {
    /** The handle held by the timer ref, if any. */
    var playbackTimer: Option<nat>
    /** The interval handles installed and not yet cleared. */
    var liveTimers: set<nat>
    /** The handle the timer service gives out next. */
    var nextHandle: nat

    /** At most one interval is live, and it is the one the ref holds. */
    ghost predicate Valid()
      reads this
    {
      && liveTimers == (if playbackTimer.Some? then {playbackTimer.value} else {})
      && (playbackTimer.Some? ==> playbackTimer.value < nextHandle)
    }

    /** A timer is installed exactly when the controller is playing and not at the end. */
    ghost predicate InStepWith(c: Controller)
      requires c.Valid()
      reads this, c
    {
      playbackTimer.Some? <==> c.isPlaying && !c.IsAtEnd()
    }

    constructor ()
      ensures Valid() && playbackTimer == None && liveTimers == {}
    {
      playbackTimer := None;
      liveTimers := {};
      nextHandle := 0;
    }

    /** Clears the interval the ref holds, if any, and empties the ref. A second call changes nothing. */
    method ClearPlaybackTimer()
      requires Valid()
      modifies this
      ensures Valid() && playbackTimer == None && liveTimers == {}
      ensures nextHandle == old(nextHandle)
      ensures old(playbackTimer) == None ==> unchanged(this)
    {
      if playbackTimer.Some? {
        liveTimers := liveTimers - {playbackTimer.value};
        playbackTimer := None;
      }
    }

    /**
      One run of the effect, preceded by the cleanup of the previous run:
      while playing and not at the end, any old interval is cleared and a
      fresh one installed (installing adds to the live intervals and
      cancels none); otherwise the interval is cleared, and reaching
      the end while playing stops playback.
    */
    method RunEffect(c: Controller)
      requires Valid() && c.Valid()
      modifies this, c
      ensures Valid() && c.Valid() && InStepWith(c)
      ensures old(playbackTimer).Some? ==> old(playbackTimer).value !in liveTimers
      ensures playbackTimer.Some? ==> playbackTimer.value !in old(liveTimers)
      ensures c.isPlaying == (old(c.isPlaying) && !old(c.IsAtEnd()))
      ensures c.inputString == old(c.inputString) && c.stateHistory == old(c.stateHistory) && c.tracedInput == old(c.tracedInput)
      ensures c.currentStateIndex == old(c.currentStateIndex)
      ensures c.playbackSpeed == old(c.playbackSpeed) && c.isRunning == old(c.isRunning)
    {
      ClearPlaybackTimer();
      if c.isPlaying && !c.IsAtEnd() {
        ClearPlaybackTimer();
        playbackTimer := Some(nextHandle);
        liveTimers := liveTimers + {nextHandle};
        nextHandle := nextHandle + 1;
      } else {
        ClearPlaybackTimer();
        if c.IsAtEnd() && c.isPlaying {
          c.SetIsPlaying(false);
        }
      }
    }

    /**
      One firing of the interval: one step forward. A step that moves the
      cursor gives the controller a new step callback, so the effect runs
      again.
    */
    method Tick(c: Controller) returns (moved: bool)
      requires Valid() && c.Valid() && InStepWith(c) && playbackTimer.Some?
      modifies this, c
      ensures Valid() && c.Valid() && InStepWith(c)
      ensures moved && c.currentStateIndex == old(c.currentStateIndex) + 1
      ensures c.isPlaying == !c.IsAtEnd()
      ensures c.inputString == old(c.inputString) && c.stateHistory == old(c.stateHistory) && c.tracedInput == old(c.tracedInput)
      ensures c.playbackSpeed == old(c.playbackSpeed) && c.isRunning == old(c.isRunning)
    {
      moved := c.StepForward();
      if moved {
        RunEffect(c);
      }
    }

    /**
      Plays from the current snapshot to the last one: starting with the
      interval installed, exactly |history| - 1 - cursor ticks bring the
      cursor to the end, after which playback has stopped and no interval
      is live.
    */
    method PlayToEnd(c: Controller) returns (ticks: nat)
      requires Valid() && c.Valid() && InStepWith(c) && playbackTimer.Some?
      modifies this, c
      ensures Valid() && c.Valid()
      ensures ticks == old(|c.stateHistory| - 1 - c.currentStateIndex)
      ensures c.IsAtEnd() && !c.isPlaying && playbackTimer == None && liveTimers == {}
      ensures c.inputString == old(c.inputString) && c.stateHistory == old(c.stateHistory) && c.tracedInput == old(c.tracedInput)
      ensures c.playbackSpeed == old(c.playbackSpeed) && c.isRunning == old(c.isRunning)
    {
      ticks := 0;
      while playbackTimer.Some?
        invariant Valid() && c.Valid() && InStepWith(c)
        invariant c.isPlaying == !c.IsAtEnd()
        invariant c.currentStateIndex == old(c.currentStateIndex) + ticks
        invariant c.inputString == old(c.inputString) && c.stateHistory == old(c.stateHistory) && c.tracedInput == old(c.tracedInput)
        invariant c.playbackSpeed == old(c.playbackSpeed) && c.isRunning == old(c.isRunning)
        decreases |c.stateHistory| - c.currentStateIndex
      {
        var _ := Tick(c);
        ticks := ticks + 1;
      }
    }

    /** A new speed re-runs the effect: the old interval is cleared before a new one is installed. */
    method ChangeSpeed(c: Controller, speed: real)
      requires Valid() && c.Valid()
      modifies this, c
      ensures Valid() && c.Valid() && InStepWith(c)
      ensures c.playbackSpeed == speed
      ensures old(playbackTimer).Some? ==> old(playbackTimer).value !in liveTimers
      ensures playbackTimer.Some? ==> playbackTimer.value !in old(liveTimers)
      ensures c.isPlaying == (old(c.isPlaying) && !c.IsAtEnd())
      ensures c.currentStateIndex == old(c.currentStateIndex) && c.stateHistory == old(c.stateHistory) && c.tracedInput == old(c.tracedInput)
      ensures c.inputString == old(c.inputString) && c.isRunning == old(c.isRunning)
    {
      c.HandleSpeedChange(speed);
      RunEffect(c);
    }
  }
}
