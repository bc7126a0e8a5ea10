/**
 * The vocabulary both revisions of the quiz share: the game and timer modes, the timer
 * record and its one-second tick, lazy arming, the points a correct match earns, the
 * status messages, the typed-answer comparison of hard mode and `formatTime`.
 */
module Game {
  import opened Text
  import opened Wrappers

  datatype GameMode = Easy | Hard

  /** The timer modes "none", "countdown" and "stopwatch". */
  datatype TimerMode = NoTimer | Countdown | Stopwatch

  /** `timer`: its mode, the whole seconds shown, and whether the interval runs. */
  datatype Timer = Timer(mode: TimerMode, time: nat, isActive: bool)

  /** The state picked in the list and the state picked on the map; "" is no pick. */
  datatype Selections = Selections(fromList: string, fromMap: string)

  datatype StatusKind = Success | Error | Info

  /** `status`: the message line and its `type`. */
  datatype Status = Status(message: string, kind: StatusKind)

  /** Screen coordinates of a map click, where the hard-mode input opens. */
  datatype Position = Position(x: int, y: int)

  const NoSelections := Selections("", "")

  /** Seconds a countdown starts from after a reset or a timer-mode change. */
  const CountdownStart: nat := 300

  const StartMessage := "Select a state to begin!"
  const MismatchMessage := "Try again! Selections don't match."
  const WrongNameMessage := "Incorrect state name. Try again!"
  const TimeUpMessage := "Time's up! Game Over"

  function ModeName(mode: GameMode): string {
    match mode
    case Easy => "easy"
    case Hard => "hard"
  }

  /** The status a correct match shows when states are left. */
  function CorrectMessage(points: nat): string {
    "Correct! +" + NatToString(points) + " points"
  }

  /** The status a correct match shows when it completes the game. */
  function FinalMessage(score: nat): string {
    "Game Complete! Final Score: " + NatToString(score)
  }

  /** The completion message is never the ordinary one, and it tells the score apart. */
  lemma {:induction false} MessagesDistinguish(points: nat, score: nat, score': nat)
    ensures CorrectMessage(points) != FinalMessage(score)
    ensures FinalMessage(score) == FinalMessage(score') ==> score == score'
  {
    assert CorrectMessage(points)[0] == 'C';
    assert FinalMessage(score)[0] == 'G';
    var prefix := "Game Complete! Final Score: ";
    if FinalMessage(score) == FinalMessage(score') {
      assert NatToString(score) == FinalMessage(score)[|prefix|..];
      assert NatToString(score') == FinalMessage(score')[|prefix|..];
      NatToStringInjective(score, score');
    }
  }

  /** Whether the interval effect runs: the timer is active and has a mode. */
  predicate Ticking(t: Timer) {
    t.isActive && t.mode != NoTimer
  }

  /** A countdown tick whose new time would be zero or less ends the countdown. */
  predicate ExpiresOnTick(t: Timer) {
    t.mode == Countdown && t.time <= 1
  }

  /** The timer after one run of the tick updater. */
  function TickedTimer(t: Timer): (r: Timer)
    ensures r.mode == t.mode
    ensures t.mode == Countdown ==> r.time == if t.time <= 1 then 0 else t.time - 1
    ensures t.mode != Countdown ==> r.time == t.time + 1
    ensures r.isActive <==> t.isActive && !ExpiresOnTick(t)
  {
    if t.mode == Countdown then
      if t.time <= 1 then t.(time := 0, isActive := false) else t.(time := t.time - 1)
    else
      t.(time := t.time + 1)
  }

  /** `n` seconds of the interval: ticks while the effect's guard holds. */
  function Ticks(t: Timer, n: nat): Timer
    decreases n
  {
    if n == 0 || !Ticking(t) then t else Ticks(TickedTimer(t), n - 1)
  }

  /** A running countdown from `time` counts down one per second and stops at zero after `time` seconds. */
  lemma {:induction false} CountdownRuns(t: Timer, n: nat)
    requires t.mode == Countdown && t.isActive && t.time >= 1
    ensures n < t.time ==> Ticks(t, n) == t.(time := t.time - n)
    ensures n >= t.time ==> Ticks(t, n) == Timer(Countdown, 0, false)
    decreases n
  {
    if n > 0 {
      if t.time == 1 {
        assert Ticks(TickedTimer(t), n - 1) == Timer(Countdown, 0, false);
      } else {
        CountdownRuns(TickedTimer(t), n - 1);
      }
    }
  }

  /** A running stopwatch gains one second per tick and never stops by itself. */
  lemma {:induction false} StopwatchRuns(t: Timer, n: nat)
    requires t.mode == Stopwatch && t.isActive
    ensures Ticks(t, n) == t.(time := t.time + n)
    decreases n
  {
    if n > 0 {
      StopwatchRuns(TickedTimer(t), n - 1);
    }
  }

  /** `startTimerIfNeeded` on the timer: an idle timer with a mode starts running. */
  function ArmIfNeeded(t: Timer): (r: Timer)
    ensures r.mode == t.mode && r.time == t.time
    ensures r.isActive <==> t.isActive || t.mode != NoTimer
  {
    if !t.isActive && t.mode != NoTimer then t.(isActive := true) else t
  }

  /** The time a reset or a timer-mode change starts from. */
  function StartTime(mode: TimerMode): (time: nat)
    ensures mode == Countdown ==> time == CountdownStart
    ensures mode != Countdown ==> time == 0
  {
    if mode == Countdown then CountdownStart else 0
  }

  /** The timer `handleTimerModeChange` installs: the new mode, its start time, idle. */
  function TimerForMode(mode: TimerMode): (r: Timer)
    ensures r.mode == mode && r.time == StartTime(mode) && !r.isActive
  {
    Timer(mode, StartTime(mode), false)
  }

  /** Points for a correct match: 10, plus a tenth of the seconds left under a countdown. */
  function Points(t: Timer): (points: nat)
    ensures 10 <= points <= 10 + t.time / 10
    ensures t.mode == Countdown ==> points == 10 + t.time / 10
    ensures t.mode != Countdown ==> points == 10
  {
    10 + (if t.mode == Countdown then t.time / 10 else 0)
  }

  /**
   * Hard mode's check: the trimmed, lower-cased input against the lower-cased name. Trimming
   * and lower-casing may be taken in either order.
   */
  predicate AnswerMatches(input: string, stateName: string) {
    ToLower(Trim(input)) == ToLower(stateName)
  }

  /** The check holds exactly when the input, lower-cased and then trimmed, is the lower-cased name. */
  lemma AnswerMatchesEitherOrder(input: string, stateName: string)
    ensures AnswerMatches(input, stateName) <==> Trim(ToLower(input)) == ToLower(stateName)
  {
    ToLowerTrim(input);
  }

  /** Surrounding whitespace and letter case do not matter to the check. */
  lemma AnswerIgnoresPaddingAndCase(pre: string, typed: string, post: string, stateName: string)
    requires AllTrimmable(pre) && AllTrimmable(post) && IsTrimmed(typed)
    ensures AnswerMatches(pre + typed + post, stateName) <==> EqualsIgnoringCase(typed, stateName)
  {
    TrimPadded(pre, typed, post);
  }

  /**
   * `formatTime`: minutes, a colon, and the seconds of the minute in two digits. The text
   * determines the seconds: reading it back gives them.
   */
  function FormatTime(seconds: nat): (text: string)
    ensures |text| >= 4 && text[|text| - 3] == ':'
    ensures text[..|text| - 3] == NatToString(seconds / 60)
    ensures ParseTime(text) == Some(seconds)
  {
    var mins := NatToString(seconds / 60);
    var secs := PadStart(NatToString(seconds % 60), 2, '0');
    SecondsField(seconds % 60);
    NatToStringValue(seconds / 60);
    ParseJoined(mins, secs);
    mins + ":" + secs
  }

  /** Reads "m:ss" back into seconds; `None` for text of any other form. */
  function ParseTime(text: string): Option<nat> {
    if |text| >= 4 && text[|text| - 3] == ':' && AllDigits(text[..|text| - 3])
       && AllDigits(text[|text| - 2..]) && DigitsValue(text[|text| - 2..]) < 60
    then Some(DigitsValue(text[..|text| - 3]) * 60 + DigitsValue(text[|text| - 2..]))
    else None
  }

  lemma SmallNatToString(n: nat)
    requires n < 100
    ensures n < 10 ==> NatToString(n) == [DigitChar(n)]
    ensures n >= 10 ==> NatToString(n) == [DigitChar(n / 10), DigitChar(n % 10)]
  {
  }

  /** The seconds of the minute always take two digits, and read back as themselves. */
  lemma SecondsField(secs: nat)
    requires secs < 60
    ensures |PadStart(NatToString(secs), 2, '0')| == 2
    ensures AllDigits(PadStart(NatToString(secs), 2, '0'))
    ensures DigitsValue(PadStart(NatToString(secs), 2, '0')) == secs
  {
    SmallNatToString(secs);
    var p := PadStart(NatToString(secs), 2, '0');
    if secs < 10 {
      assert p == ['0', DigitChar(secs)];
    } else {
      assert p == [DigitChar(secs / 10), DigitChar(secs % 10)];
    }
    assert p[..1][..0] == [];
    assert DigitsValue(p[..1]) == p[0] as int - '0' as int;
  }

  /** Parsing "m" + ":" + "ss" reads the two fields. */
  lemma ParseJoined(mins: string, secs: string)
    requires |mins| >= 1 && AllDigits(mins)
    requires |secs| == 2 && AllDigits(secs) && DigitsValue(secs) < 60
    ensures ParseTime(mins + ":" + secs) == Some(DigitsValue(mins) * 60 + DigitsValue(secs))
  {
    var text := mins + ":" + secs;
    assert text[..|text| - 3] == mins;
    assert text[|text| - 2..] == secs;
  }
}
