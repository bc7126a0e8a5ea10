/**
 * `TimerControls`: two toggle buttons, Countdown and Stopwatch, each of which turns its own
 * mode off when it is on and switches to it otherwise, and the line showing the time.
 */
module TimerControls {
  import opened Wrappers
  import opened Game
  import Text

  /** The Countdown button is drawn selected exactly under a countdown. */
  predicate CountdownSelected(timerMode: TimerMode) {
    timerMode == Countdown
  }

  /** The Stopwatch button is drawn selected exactly under a stopwatch. */
  predicate StopwatchSelected(timerMode: TimerMode) {
    timerMode == Stopwatch
  }

  /** The mode the Countdown button asks for: off when a countdown runs, a countdown otherwise. */
  function CountdownPressed(timerMode: TimerMode): (next: TimerMode)
    ensures next != timerMode
    ensures next == NoTimer <==> timerMode == Countdown
    ensures next == Countdown <==> timerMode != Countdown
  {
    if timerMode == Countdown then NoTimer else Countdown
  }

  /** The mode the Stopwatch button asks for: off when a stopwatch runs, a stopwatch otherwise. */
  function StopwatchPressed(timerMode: TimerMode): (next: TimerMode)
    ensures next != timerMode
    ensures next == NoTimer <==> timerMode == Stopwatch
    ensures next == Stopwatch <==> timerMode != Stopwatch
  {
    if timerMode == Stopwatch then NoTimer else Stopwatch
  }

  /** Pressing a button twice from any mode but its own ends with no timer; from its own mode, back where it was. */
  lemma PressTwice(timerMode: TimerMode)
    ensures timerMode != Countdown ==> CountdownPressed(CountdownPressed(timerMode)) == NoTimer
    ensures timerMode != Stopwatch ==> StopwatchPressed(StopwatchPressed(timerMode)) == NoTimer
    ensures CountdownPressed(CountdownPressed(Countdown)) == Countdown
    ensures StopwatchPressed(StopwatchPressed(Stopwatch)) == Stopwatch
  {
  }

  /** At most one button is drawn selected, and one is whenever a timer mode is set. */
  lemma OneSelected(timerMode: TimerMode)
    ensures !(CountdownSelected(timerMode) && StopwatchSelected(timerMode))
    ensures CountdownSelected(timerMode) || StopwatchSelected(timerMode) <==> timerMode != NoTimer
  {
  }

  /** "remaining" under a countdown, "elapsed" otherwise. */
  function TimeLabel(timerMode: TimerMode): (word: string)
    ensures word == "remaining" <==> timerMode == Countdown
    ensures word == "elapsed" <==> timerMode != Countdown
  {
    if timerMode == Countdown then "remaining" else "elapsed"
  }

  /**
   * The time line: shown only with a timer mode and a non-empty display text, and then
   * reading "Time remaining: …" or "Time elapsed: …".
   */
  function TimeLine(timerMode: TimerMode, timeDisplay: Option<string>): (line: Option<string>)
    ensures line.Some? <==> timerMode != NoTimer && timeDisplay.Some? && timeDisplay.value != ""
    ensures line.Some? ==> line.value == "Time " + TimeLabel(timerMode) + ": " + timeDisplay.value
  {
    if timerMode != NoTimer && timeDisplay.Some? && timeDisplay.value != "" then
      Some("Time " + TimeLabel(timerMode) + ": " + timeDisplay.value)
    else
      None
  }

  /** The game passes `formatTime` of the timer, never empty, so the line shows exactly when a timer mode is set. */
  lemma ShownWithTimer(timerMode: TimerMode, seconds: nat)
    ensures TimeLine(timerMode, Some(FormatTime(seconds))).Some? <==> timerMode != NoTimer
  {
    assert FormatTime(seconds) != "" by {
      assert |FormatTime(seconds)| >= |Text.NatToString(seconds / 60)|;
    }
  }
}
