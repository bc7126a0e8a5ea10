/**
 * The revision of the quiz that the page renders (`src/components/game/USStatesGame.tsx`).
 * Its state counts progress by `remainingStates`: a correct match drops the state from
 * that list. Each `setGameState` updater is a function from the previous state to the
 * next; the handlers are methods of `USStatesGame` that run those updaters in order and set the
 * typed text, the input position and the hovered state.
 */
module LiveGame {
  import opened Lists
  import opened Game
  import Catalog

  datatype GameState = GameState(
    mode: GameMode,
    timer: Timer,
    score: nat,
    remainingStates: seq<string>,
    selections: Selections,
    status: Status)

  /** `initialGameState`: easy mode, no timer (300 s stored), no score, every catalog name left. */
  const InitialGameState: GameState := GameState(
    Easy, Timer(NoTimer, 300, false), 0, Catalog.Names, NoSelections, Status(StartMessage, Info))

  /** What every reachable state satisfies: the states left are catalog names, in catalog order. */
  predicate ValidState(s: GameState) {
    IsSubsequence(s.remainingStates, Catalog.Names)
  }

  /**
   * The first game is valid: easy mode, no score, an idle timer with no timer mode, no picks,
   * the start message, and all 51 distinct catalog names left.
   */
  lemma InitialGame()
    ensures ValidState(InitialGameState)
    ensures |InitialGameState.remainingStates| == 51 && NoDuplicates(InitialGameState.remainingStates)
    ensures InitialGameState.mode == Easy && InitialGameState.score == 0
    ensures InitialGameState.timer == Timer(NoTimer, 300, false)
    ensures InitialGameState.selections == NoSelections && InitialGameState.status == Status(StartMessage, Info)
  {
    SubsequenceReflexive(Catalog.Names);
    Catalog.CatalogShape();
  }

  /**
   * `handleCorrectMatch`: the points of the timer are added, every occurrence of the state
   * leaves the list and the rest keep their order, both picks are cleared, and the game is
   * complete, with the timer stopped, exactly when no state is left.
   */
  function CorrectMatch(prev: GameState, state: string): (next: GameState)
    ensures next.score == prev.score + Points(prev.timer)
    ensures IsSubsequence(next.remainingStates, prev.remainingStates)
    ensures multiset(next.remainingStates) == multiset(prev.remainingStates)[state := 0]
    ensures next.selections == NoSelections
    ensures next.status.kind == Success
    ensures next.status.message == FinalMessage(next.score) <==> next.remainingStates == []
    ensures next.remainingStates != [] ==> next.status.message == CorrectMessage(Points(prev.timer))
    ensures next.timer == prev.timer.(isActive := next.remainingStates != [])
    ensures next.mode == prev.mode
  {
    var points := Points(prev.timer);
    var remaining := Without(prev.remainingStates, state);
    var complete := remaining == [];
    MessagesDistinguish(points, prev.score + points, prev.score + points);
    prev.(
      score := prev.score + points,
      remainingStates := remaining,
      selections := NoSelections,
      status := Status(if complete then FinalMessage(prev.score + points) else CorrectMessage(points), Success),
      timer := prev.timer.(isActive := !complete))
  }

  /** `handleIncorrectMatch`: both picks cleared and an error shown; nothing else changes. */
  function IncorrectMatch(prev: GameState): (next: GameState)
    ensures next.selections == NoSelections
    ensures next.status == Status(MismatchMessage, Error)
    ensures next.score == prev.score && next.remainingStates == prev.remainingStates
    ensures next.timer == prev.timer && next.mode == prev.mode
  {
    prev.(selections := NoSelections, status := Status(MismatchMessage, Error))
  }

  /**
   * The updater of `handleStateSelect`: with a map pick, a match exactly when the two picks
   * name the same state (and only a match raises the score); without one, only the list
   * pick is recorded.
   */
  function SelectFromList(prev: GameState, state: string): (next: GameState)
    ensures prev.selections.fromMap != "" ==> next.selections == NoSelections
    ensures prev.selections.fromMap != "" ==>
      (next.score > prev.score <==> prev.selections.fromMap == state)
    ensures prev.selections.fromMap != "" && prev.selections.fromMap == state ==> next == CorrectMatch(prev, state)
    ensures prev.selections.fromMap != "" && prev.selections.fromMap != state ==> next == IncorrectMatch(prev)
    ensures prev.selections.fromMap == "" ==> next == prev.(selections := Selections(state, ""))
  {
    if prev.selections.fromMap != "" then
      if prev.selections.fromMap == state then CorrectMatch(prev, state) else IncorrectMatch(prev)
    else
      prev.(selections := prev.selections.(fromList := state))
  }

  /**
   * The updater of `handleMapStateSelect`: only in easy mode and with a list pick is the map
   * pick compared, and it is a match exactly when both name the same state; otherwise only
   * the map pick is recorded.
   */
  function SelectOnMap(prev: GameState, state: string): (next: GameState)
    ensures prev.mode == Easy && prev.selections.fromList != "" ==>
      next.selections == NoSelections && (next.score > prev.score <==> prev.selections.fromList == state)
    ensures prev.mode == Easy && prev.selections.fromList != "" && prev.selections.fromList == state ==>
      next == CorrectMatch(prev, state)
    ensures prev.mode == Easy && prev.selections.fromList != "" && prev.selections.fromList != state ==>
      next == IncorrectMatch(prev)
    ensures !(prev.mode == Easy && prev.selections.fromList != "") ==>
      next == prev.(selections := prev.selections.(fromMap := state))
  {
    if prev.mode == Easy && prev.selections.fromList != "" then
      if prev.selections.fromList == state then CorrectMatch(prev, state) else IncorrectMatch(prev)
    else
      prev.(selections := prev.selections.(fromMap := state))
  }

  /** Whether `handleHardModeInput` does anything: hard mode with a state picked on the map. */
  predicate AwaitsAnswer(s: GameState) {
    s.mode == Hard && s.selections.fromMap != ""
  }

  /**
   * The effect of `handleHardModeInput` on the game: a right answer is a correct match on
   * the map pick; a wrong one only shows an error and keeps the pick; nothing happens
   * unless an answer is awaited.
   */
  function SubmitAnswer(prev: GameState, input: string): (next: GameState)
    ensures !AwaitsAnswer(prev) ==> next == prev
    ensures AwaitsAnswer(prev) && AnswerMatches(input, prev.selections.fromMap) ==>
      next == CorrectMatch(prev, prev.selections.fromMap)
      && next.score > prev.score && prev.selections.fromMap !in next.remainingStates
    ensures AwaitsAnswer(prev) && !AnswerMatches(input, prev.selections.fromMap) ==>
      next == prev.(status := Status(WrongNameMessage, Error))
  {
    if AwaitsAnswer(prev) then
      if AnswerMatches(input, prev.selections.fromMap) then CorrectMatch(prev, prev.selections.fromMap)
      else prev.(status := Status(WrongNameMessage, Error))
    else prev
  }

  /** The updater of `handleInputClose`: the map pick is dropped, the list pick kept. */
  function CloseInput(prev: GameState): (next: GameState)
    ensures next.selections == Selections(prev.selections.fromList, "")
    ensures next == prev.(selections := next.selections)
  {
    prev.(selections := prev.selections.(fromMap := ""))
  }

  /** `startTimerIfNeeded`: an idle timer with a mode starts. */
  function Armed(prev: GameState): (next: GameState)
    ensures next == prev.(timer := ArmIfNeeded(prev.timer))
    ensures next.timer.isActive <==> prev.timer.isActive || prev.timer.mode != NoTimer
  {
    prev.(timer := ArmIfNeeded(prev.timer))
  }

  /** The interval's updater: one second off a countdown (ending the game at zero) or onto a stopwatch. */
  function TickUpdate(prev: GameState): (next: GameState)
    ensures next.timer == TickedTimer(prev.timer)
    ensures ExpiresOnTick(prev.timer) ==> next.status == Status(TimeUpMessage, Info)
    ensures !ExpiresOnTick(prev.timer) ==> next.status == prev.status
    ensures next == prev.(timer := next.timer, status := next.status)
  {
    prev.(timer := TickedTimer(prev.timer),
          status := if ExpiresOnTick(prev.timer) then Status(TimeUpMessage, Info) else prev.status)
  }

  /** The updater of `resetGame`: a fresh game in the same mode, with the same timer mode, idle, from its start time. */
  function Reset(prev: GameState): (next: GameState)
    ensures next.mode == prev.mode && next.timer == TimerForMode(prev.timer.mode)
    ensures next.score == 0 && next.remainingStates == Catalog.Names && next.selections == NoSelections
    ensures next.status == InitialGameState.status
  {
    InitialGameState.(mode := prev.mode, timer := Timer(prev.timer.mode, StartTime(prev.timer.mode), false))
  }

  /** The updater of `handleGameModeChange`: a fresh game in the new mode that keeps the timer as it was. */
  function ChangeGameMode(prev: GameState, mode: GameMode): (next: GameState)
    ensures next.mode == mode && next.timer == prev.timer
    ensures next.score == 0 && next.remainingStates == Catalog.Names && next.selections == NoSelections
    ensures next.status == InitialGameState.status
  {
    InitialGameState.(mode := mode, timer := prev.timer)
  }

  /** The updater of `handleTimerModeChange`: the new timer mode from its start time, idle; nothing else changes. */
  function ChangeTimerMode(prev: GameState, mode: TimerMode): (next: GameState)
    ensures next.timer == TimerForMode(mode)
    ensures next == prev.(timer := next.timer)
  {
    prev.(timer := TimerForMode(mode))
  }

  /** Something the player does, or a second of the interval. */
  datatype Event =
    | PickFromList(state: string)
    | PickOnMap(state: string, position: Position)
    | Answer(input: string)
    | CloseAnswer
    | Second
    | PickTimerMode(timerMode: TimerMode)
    | PickGameMode(gameMode: GameMode)
    | Restart

  /** What an event does to the game state, as the handlers of `USStatesGame` do it. */
  function Step(s: GameState, e: Event): GameState {
    match e
    case PickFromList(state) => SelectFromList(Armed(s), state)
    case PickOnMap(state, _) => SelectOnMap(Armed(s), state)
    case Answer(input) => SubmitAnswer(s, input)
    case CloseAnswer => CloseInput(s)
    case Second => if Ticking(s.timer) then TickUpdate(s) else s
    case PickTimerMode(mode) => ChangeTimerMode(s, mode)
    case PickGameMode(mode) => ChangeGameMode(s, mode)
    case Restart => Reset(s)
  }

  function Run(s: GameState, events: seq<Event>): GameState
    decreases |events|
  {
    if events == [] then s else Run(Step(s, events[0]), events[1..])
  }

  /** Every event keeps the states left a catalog sub-sequence. */
  lemma StepKeepsValid(s: GameState, e: Event)
    requires ValidState(s)
    ensures ValidState(Step(s, e))
  {
    var next := Step(s, e);
    if next.remainingStates != s.remainingStates {
      if e.Restart? || e.PickGameMode? {
        SubsequenceReflexive(Catalog.Names);
      } else {
        SubsequenceTransitive(next.remainingStates, s.remainingStates, Catalog.Names);
      }
    }
  }

  /** A submitted answer keeps the remaining states a sub-sequence of the catalog. */
  lemma SubmitKeepsValid(s: GameState, input: string)
    requires ValidState(s)
    ensures ValidState(SubmitAnswer(s, input))
  {
    var next := SubmitAnswer(s, input);
    if next.remainingStates != s.remainingStates {
      SubsequenceTransitive(next.remainingStates, s.remainingStates, Catalog.Names);
    }
  }

  predicate Restarts(e: Event) {
    e.Restart? || e.PickGameMode?
  }

  /** Until a reset or a mode change, the score never goes down. */
  lemma {:induction false} ScoreNeverDecreases(s: GameState, events: seq<Event>)
    requires forall k :: 0 <= k < |events| ==> !Restarts(events[k])
    ensures Run(s, events).score >= s.score
    decreases |events|
  {
    if events != [] {
      ScoreNeverDecreases(Step(s, events[0]), events[1..]);
    }
  }

  /** An expired countdown does not stop matches: they still score, and restart the flag `isActive`. */
  lemma ExpiredCountdownStillScores(prev: GameState, state: string)
    requires prev.timer == Timer(Countdown, 0, false)
    requires exists k :: 0 <= k < |prev.remainingStates| && prev.remainingStates[k] != state
    ensures CorrectMatch(prev, state).score == prev.score + 10
    ensures CorrectMatch(prev, state).timer.isActive
  {
    var k :| 0 <= k < |prev.remainingStates| && prev.remainingStates[k] != state;
    var r := prev.remainingStates;
    assert r[k] in multiset(r)[state := 0];
  }

  /** Matching a state already gone from the list still scores, and leaves the list as it was. */
  lemma RepeatedMatchScoresAgain(prev: GameState, state: string)
    requires state !in prev.remainingStates
    ensures CorrectMatch(prev, state).score == prev.score + Points(prev.timer)
    ensures CorrectMatch(prev, state).remainingStates == prev.remainingStates
  {
    WithoutAbsent(prev.remainingStates, state);
  }

  /** The component: its game state and the three pieces of view state beside it. */
  class USStatesGame {
    var gameState: GameState
    var hoveredState: string
    var inputPosition: Position
    var userInput: string

    predicate Valid()
      reads this
    {
      ValidState(gameState)
    }

    constructor ()
      ensures Valid()
      ensures gameState == InitialGameState && hoveredState == ""
      ensures inputPosition == Position(0, 0) && userInput == ""
    {
      gameState := InitialGameState;
      hoveredState := "";
      inputPosition := Position(0, 0);
      userInput := "";
      SubsequenceReflexive(Catalog.Names);
    }

    /** One run of the interval callback; the interval exists only while the timer runs with a mode. */
    method Tick()
      requires Valid()
      modifies this`gameState
      ensures Valid()
      ensures gameState == Step(old(gameState), Second)
    {
      if gameState.timer.isActive && gameState.timer.mode != NoTimer {
        gameState := TickUpdate(gameState);
      }
    }

    /** `resetGame`. */
    method ResetGame()
      requires Valid()
      modifies this`gameState, this`userInput, this`hoveredState
      ensures Valid()
      ensures gameState == Reset(old(gameState))
      ensures userInput == "" && hoveredState == ""
    {
      gameState := Reset(gameState);
      userInput := "";
      hoveredState := "";
      SubsequenceReflexive(Catalog.Names);
    }

    /** `handleGameModeChange`. */
    method HandleGameModeChange(mode: GameMode)
      requires Valid()
      modifies this`gameState, this`userInput
      ensures Valid()
      ensures gameState == ChangeGameMode(old(gameState), mode)
      ensures userInput == ""
    {
      gameState := ChangeGameMode(gameState, mode);
      userInput := "";
      SubsequenceReflexive(Catalog.Names);
    }

    /** `handleTimerModeChange`. */
    method HandleTimerModeChange(mode: TimerMode)
      requires Valid()
      modifies this`gameState
      ensures Valid()
      ensures gameState == ChangeTimerMode(old(gameState), mode)
    {
      gameState := ChangeTimerMode(gameState, mode);
    }

    /** `startTimerIfNeeded`. */
    method StartTimerIfNeeded()
      requires Valid()
      modifies this`gameState
      ensures Valid()
      ensures gameState == Armed(old(gameState))
    {
      if !gameState.timer.isActive && gameState.timer.mode != NoTimer {
        gameState := gameState.(timer := gameState.timer.(isActive := true));
      }
    }

    /** `handleStateSelect`: arm the timer, then route the list pick. */
    method HandleStateSelect(state: string)
      requires Valid()
      modifies this`gameState
      ensures Valid()
      ensures gameState == SelectFromList(Armed(old(gameState)), state)
    {
      StartTimerIfNeeded();
      StepKeepsValid(old(gameState), PickFromList(state));
      gameState := SelectFromList(gameState, state);
    }

    /** `handleMapStateSelect`: arm the timer, remember where the click was, then route the map pick. */
    method HandleMapStateSelect(state: string, position: Position)
      requires Valid()
      modifies this`gameState, this`inputPosition
      ensures Valid()
      ensures gameState == SelectOnMap(Armed(old(gameState)), state)
      ensures inputPosition == position
    {
      StartTimerIfNeeded();
      inputPosition := position;
      StepKeepsValid(old(gameState), PickOnMap(state, position));
      gameState := SelectOnMap(gameState, state);
    }

    /** `handleHardModeInput`: check the typed text, and clear it, when an answer is awaited. */
    method HandleHardModeInput()
      requires Valid()
      modifies this`gameState, this`userInput
      ensures Valid()
      ensures gameState == SubmitAnswer(old(gameState), old(userInput))
      ensures userInput == if AwaitsAnswer(old(gameState)) then "" else old(userInput)
    {
      var prev := gameState;
      if AwaitsAnswer(prev) {
        SubmitKeepsValid(prev, userInput);
        gameState := SubmitAnswer(prev, userInput);
        userInput := "";
      }
    }

    /** `handleInputClose`. */
    method HandleInputClose()
      requires Valid()
      modifies this`gameState, this`userInput
      ensures Valid()
      ensures gameState == CloseInput(old(gameState)) && userInput == ""
    {
      gameState := CloseInput(gameState);
      userInput := "";
    }

    /** The map's hover callback. */
    method HoverState(state: string)
      modifies this`hoveredState
      ensures hoveredState == state
    {
      hoveredState := state;
    }

    /** The map's leave callback. */
    method LeaveState()
      modifies this`hoveredState
      ensures hoveredState == ""
    {
      hoveredState := "";
    }

    /** The answer box's change callback. */
    method ChangeInput(text: string)
      modifies this`userInput
      ensures userInput == text
    {
      userInput := text;
    }
  }
}
