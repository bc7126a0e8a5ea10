/**
 * The persistence-aware revision of the quiz (`src/components/USStatesGame.tsx`). Its state
 * also records `completedStates`: a correct match appends to that list and leaves
 * `remainingStates` alone, and the game is complete when the list is as long as the
 * catalog. Saved progress (one record per game mode) and the settings record are kept in
 * two stores, modelled as a map and an optional value the handlers read and write.
 */
module SavedGame {
  import opened Wrappers
  import opened Text
  import opened Lists
  import opened Game
  import Catalog

  datatype GameState = GameState(
    mode: GameMode,
    timer: Timer,
    score: nat,
    remainingStates: seq<string>,
    completedStates: seq<string>,
    selections: Selections,
    status: Status)

  /** `timerPreferences`: the timer mode chosen for each game mode. */
  datatype TimerPreferences = TimerPreferences(easy: TimerMode, hard: TimerMode)

  /** `GameSettings`, the one record of the settings store. */
  datatype Settings = Settings(
    soundEnabled: bool,
    darkMode: bool,
    lastGameMode: GameMode,
    timerPreferences: TimerPreferences)

  /** `ModeProgress`, keyed by its mode in the progress store; `timeRemaining` may be absent. */
  datatype ModeProgress = ModeProgress(
    mode: GameMode,
    completedStates: seq<string>,
    timerMode: TimerMode,
    timeRemaining: Option<nat>)

  /** `getDefaultSettings`: sound and dark mode off, easy mode, no timer in either mode. */
  const DefaultSettings := Settings(false, false, Easy, TimerPreferences(NoTimer, NoTimer))

  function TimerPreference(settings: Settings, mode: GameMode): TimerMode {
    match mode
    case Easy => settings.timerPreferences.easy
    case Hard => settings.timerPreferences.hard
  }

  /** `{...settings, timerPreferences: {...settings.timerPreferences, [mode]: timerMode}}`. */
  function WithTimerPreference(settings: Settings, mode: GameMode, timerMode: TimerMode): (r: Settings)
    ensures TimerPreference(r, mode) == timerMode
    ensures forall m :: m != mode ==> TimerPreference(r, m) == TimerPreference(settings, m)
    ensures r.soundEnabled == settings.soundEnabled && r.darkMode == settings.darkMode
    ensures r.lastGameMode == settings.lastGameMode
  {
    match mode
    case Easy => settings.(timerPreferences := settings.timerPreferences.(easy := timerMode))
    case Hard => settings.(timerPreferences := settings.timerPreferences.(hard := timerMode))
  }

  /** `(await getSettings()) || getDefaultSettings()`. */
  function CurrentSettings(store: Option<Settings>): Settings {
    store.GetOr(DefaultSettings)
  }

  /** `getProgress(mode)`: the record saved for the mode, if any. */
  function ProgressFor(store: map<GameMode, ModeProgress>, mode: GameMode): Option<ModeProgress> {
    if mode in store then Some(store[mode]) else None
  }

  /** `saveProgress(p)`: the store keeps one record per mode, and `p` replaces that of its mode. */
  function Put(store: map<GameMode, ModeProgress>, p: ModeProgress): (r: map<GameMode, ModeProgress>)
    ensures ProgressFor(r, p.mode) == Some(p)
    ensures forall m :: m != p.mode ==> ProgressFor(r, m) == ProgressFor(store, m)
  {
    store[p.mode := p]
  }

  /** Every record of the store sits under its own mode. */
  predicate KeyedByMode(store: map<GameMode, ModeProgress>) {
    forall m :: m in store ==> store[m].mode == m
  }

  /** `getInitialGameState(mode)`: no timer (300 s stored), no score, all states left, none completed. */
  function InitialGameState(mode: GameMode): (s: GameState)
    ensures s.mode == mode && s.timer == Timer(NoTimer, 300, false) && s.score == 0
    ensures s.remainingStates == Catalog.Names && s.completedStates == []
    ensures s.selections == NoSelections && s.status == Status(StartMessage, Info)
  {
    GameState(mode, Timer(NoTimer, 300, false), 0, Catalog.Names, [], NoSelections, Status(StartMessage, Info))
  }

  /** The record `saveCurrentProgress` writes: the countdown's time is kept, any other timer's is not. */
  function ProgressOf(s: GameState): (p: ModeProgress)
    ensures p.mode == s.mode && p.completedStates == s.completedStates && p.timerMode == s.timer.mode
    ensures p.timeRemaining.Some? <==> s.timer.mode == Countdown
    ensures p.timeRemaining.Some? ==> p.timeRemaining.value == s.timer.time
  {
    ModeProgress(s.mode, s.completedStates, s.timer.mode, if s.timer.mode == Countdown then Some(s.timer.time) else None)
  }

  /** `saveCurrentProgress`: nothing is written while no state is completed. */
  function SaveProgress(store: map<GameMode, ModeProgress>, s: GameState): (r: map<GameMode, ModeProgress>)
    ensures s.completedStates == [] ==> r == store
    ensures s.completedStates != [] ==> ProgressFor(r, s.mode) == Some(ProgressOf(s))
    ensures forall m :: m != s.mode ==> ProgressFor(r, m) == ProgressFor(store, m)
  {
    if |s.completedStates| == 0 then store else Put(store, ProgressOf(s))
  }

  /** `progress?.completedStates || []`. */
  function RestoredCompleted(progress: Option<ModeProgress>): seq<string> {
    match progress
    case Some(p) => p.completedStates
    case None => []
  }

  /** `progress?.timeRemaining || fallback`: the fallback when there is no time, and also when it is 0. */
  function RestoredTime(progress: Option<ModeProgress>, fallback: nat): (time: nat)
    ensures progress.Some? && progress.value.timeRemaining.Some? && progress.value.timeRemaining.value != 0 ==>
      time == progress.value.timeRemaining.value
    ensures !(progress.Some? && progress.value.timeRemaining.Some? && progress.value.timeRemaining.value != 0) ==>
      time == fallback
  {
    match progress
    case Some(ModeProgress(_, _, _, Some(t))) => if t != 0 then t else fallback
    case _ => fallback
  }

  /** The catalog names not yet completed, in catalog order. */
  function RestoredRemaining(progress: Option<ModeProgress>): (r: seq<string>)
    ensures IsSubsequence(r, Catalog.Names)
    ensures forall x :: x in r <==> x in Catalog.Names && x !in RestoredCompleted(progress)
  {
    WithoutAll(Catalog.Names, RestoredCompleted(progress))
  }

  /** The message on load: a welcome back with the saved count, or the start message. */
  function WelcomeMessage(progress: Option<ModeProgress>, mode: GameMode): string {
    match progress
    case Some(p) =>
      "Welcome back! You've completed " + NatToString(|p.completedStates|) + " states in " + ModeName(mode) + " mode."
    case None => StartMessage
  }

  /** The message on a mode switch: the saved count, or good luck for a mode never played. */
  function SwitchedMessage(progress: Option<ModeProgress>, mode: GameMode): string {
    match progress
    case Some(p) =>
      "Switched to " + ModeName(mode) + " mode. You've completed " + NatToString(|p.completedStates|) + " states."
    case None => "Switched to " + ModeName(mode) + " mode. Good luck!"
  }

  /**
   * A game re-seeded from saved progress, as loading and switching modes build it: the
   * saved completed list, the catalog minus that list, the preferred timer mode, idle.
   */
  function Seeded(mode: GameMode, settings: Settings, progress: Option<ModeProgress>, fallbackTime: nat, message: string): (s: GameState)
    ensures s.mode == mode && s.score == 0 && s.selections == NoSelections
    ensures s.completedStates == RestoredCompleted(progress)
    ensures s.remainingStates == RestoredRemaining(progress)
    ensures s.timer == Timer(TimerPreference(settings, mode), RestoredTime(progress, fallbackTime), false)
    ensures s.status == Status(message, Info)
  {
    InitialGameState(mode).(
      timer := Timer(TimerPreference(settings, mode), RestoredTime(progress, fallbackTime), false),
      completedStates := RestoredCompleted(progress),
      remainingStates := RestoredRemaining(progress),
      status := Status(message, Info))
  }

  /**
   * The state `loadSavedGame` installs: the last mode played, its preferred timer, idle,
   * re-seeded from its saved progress; without saved progress, a new game at 600 s.
   */
  function Loaded(settings: Settings, progress: Option<ModeProgress>): (s: GameState)
    ensures s.mode == settings.lastGameMode && s.score == 0 && s.selections == NoSelections
    ensures s.timer.mode == TimerPreference(settings, settings.lastGameMode) && !s.timer.isActive
    ensures progress.Some? ==> s.completedStates == progress.value.completedStates
    ensures s.remainingStates == RestoredRemaining(progress)
    ensures s.timer.time == RestoredTime(progress, 600)
    ensures s.status == Status(WelcomeMessage(progress, s.mode), Info)
    ensures progress.Some? && progress.value.timeRemaining.Some? && progress.value.timeRemaining.value != 0 ==>
      s.timer.time == progress.value.timeRemaining.value
    ensures progress.None? ==>
      s.timer.time == 600 && s.completedStates == []
      && s.remainingStates == Catalog.Names && s.status == Status(StartMessage, Info)
  {
    WithoutNothing(Catalog.Names);
    Seeded(settings.lastGameMode, settings, progress, 600, WelcomeMessage(progress, settings.lastGameMode))
  }

  /**
   * The state `handleGameModeChange` installs: the new mode, its preferred timer, idle,
   * re-seeded from its saved progress; without saved progress, a new game at 300 s.
   */
  function Switched(mode: GameMode, settings: Settings, progress: Option<ModeProgress>): (s: GameState)
    ensures s.mode == mode && s.score == 0 && s.selections == NoSelections
    ensures s.timer.mode == TimerPreference(settings, mode) && !s.timer.isActive
    ensures progress.Some? ==> s.completedStates == progress.value.completedStates
    ensures s.remainingStates == RestoredRemaining(progress)
    ensures s.timer.time == RestoredTime(progress, CountdownStart)
    ensures s.status == Status(SwitchedMessage(progress, mode), Info)
    ensures progress.Some? && progress.value.timeRemaining.Some? && progress.value.timeRemaining.value != 0 ==>
      s.timer.time == progress.value.timeRemaining.value
    ensures progress.None? ==>
      s.timer.time == CountdownStart && s.completedStates == []
      && s.remainingStates == Catalog.Names
      && s.status == Status("Switched to " + ModeName(mode) + " mode. Good luck!", Info)
  {
    WithoutNothing(Catalog.Names);
    Seeded(mode, settings, progress, CountdownStart, SwitchedMessage(progress, mode))
  }

  /** With distinct completed catalog names, exactly the others are left. */
  lemma RemainingCount(progress: Option<ModeProgress>)
    requires NoDuplicates(RestoredCompleted(progress))
    requires forall x :: x in RestoredCompleted(progress) ==> x in Catalog.Names
    ensures |RestoredRemaining(progress)| == |Catalog.Names| - |RestoredCompleted(progress)|
    ensures |RestoredRemaining(progress)| == 51 - |RestoredCompleted(progress)|
  {
    Catalog.CatalogShape();
    WithoutAllCount(Catalog.Names, RestoredCompleted(progress));
  }

  /**
   * Saving and then switching to the same mode brings back the completed list, and a
   * countdown's time unless it had run down to 0 (then, as with no timer, 300 s).
   */
  lemma SaveThenSwitchRestores(store: map<GameMode, ModeProgress>, s: GameState, settings: Settings)
    requires s.completedStates != []
    ensures Switched(s.mode, settings, ProgressFor(SaveProgress(store, s), s.mode)).completedStates == s.completedStates
    ensures s.timer.mode == Countdown && s.timer.time != 0 ==>
      Switched(s.mode, settings, ProgressFor(SaveProgress(store, s), s.mode)).timer.time == s.timer.time
    ensures !(s.timer.mode == Countdown && s.timer.time != 0) ==>
      Switched(s.mode, settings, ProgressFor(SaveProgress(store, s), s.mode)).timer.time == CountdownStart
  {
  }

  /**
   * `handleCorrectMatch` of this revision: the points of the timer are added, the state is
   * appended to the completed list (whether or not it is there already), `remainingStates`
   * is left as it was, both picks are cleared, and the game is complete, with the timer
   * stopped, exactly when the completed list is as long as the catalog; otherwise the
   * timer is marked running even with no timer mode.
   */
  function CorrectMatch(prev: GameState, state: string): (next: GameState)
    ensures next.score == prev.score + Points(prev.timer)
    ensures next.completedStates == prev.completedStates + [state]
    ensures next.remainingStates == prev.remainingStates
    ensures next.selections == NoSelections
    ensures next.status.kind == Success
    ensures next.status.message == FinalMessage(next.score) <==> |next.completedStates| == |Catalog.Names|
    ensures |next.completedStates| != |Catalog.Names| ==> next.status.message == CorrectMessage(Points(prev.timer))
    ensures next.timer == prev.timer.(isActive := |next.completedStates| != |Catalog.Names|)
    ensures next.mode == prev.mode
  {
    var points := Points(prev.timer);
    var completed := prev.completedStates + [state];
    var complete := |completed| == |Catalog.Names|;
    MessagesDistinguish(points, prev.score + points, prev.score + points);
    prev.(
      score := prev.score + points,
      completedStates := completed,
      selections := NoSelections,
      status := Status(if complete then FinalMessage(prev.score + points) else CorrectMessage(points), Success),
      timer := prev.timer.(isActive := !complete))
  }

  /**
   * Completion counts matches, not states: with 50 entries, one of them repeated, a further
   * match on a state already completed ends the game while a catalog state was never matched.
   */
  lemma CompletionWithStateMissing(prev: GameState, state: string)
    requires |prev.completedStates| == 50 && state in prev.completedStates
    ensures CorrectMatch(prev, state).status.message == FinalMessage(CorrectMatch(prev, state).score)
    ensures exists x :: x in Catalog.Names && x !in CorrectMatch(prev, state).completedStates
  {
    var completed := CorrectMatch(prev, state).completedStates;
    Catalog.CatalogShape();
    ElementsBound(prev.completedStates);
    assert Elements(completed) == Elements(prev.completedStates);
    DistinctCardinality(Catalog.Names);
    assert !(Elements(Catalog.Names) <= Elements(completed)) by {
      if Elements(Catalog.Names) <= Elements(completed) {
        Cardinality(Elements(Catalog.Names), Elements(completed));
      }
    }
    var x :| x in Elements(Catalog.Names) && x !in Elements(completed);
  }

  lemma Cardinality(a: set<string>, b: set<string>)
    requires a <= b
    ensures |a| <= |b|
  {
    assert b == a + (b - a);
  }

  /** `handleIncorrectMatch`: both picks cleared and an error shown; nothing else changes. */
  function IncorrectMatch(prev: GameState): (next: GameState)
    ensures next.selections == NoSelections
    ensures next.status == Status(MismatchMessage, Error)
    ensures next.score == prev.score && next.completedStates == prev.completedStates
    ensures next.remainingStates == prev.remainingStates
    ensures next.timer == prev.timer && next.mode == prev.mode
  {
    prev.(selections := NoSelections, status := Status(MismatchMessage, Error))
  }

  /** The updater of `handleStateSelect`; routed as in the other revision. */
  function SelectFromList(prev: GameState, state: string): (next: GameState)
    ensures prev.selections.fromMap != "" ==> next.selections == NoSelections
    ensures prev.selections.fromMap != "" ==>
      (next.score > prev.score <==> prev.selections.fromMap == state)
    ensures prev.selections.fromMap != "" && prev.selections.fromMap == state ==> next == CorrectMatch(prev, state)
    ensures prev.selections.fromMap != "" && prev.selections.fromMap != state ==> next == IncorrectMatch(prev)
    ensures prev.selections.fromMap == "" ==> next == prev.(selections := Selections(state, ""))
  {
    if prev.selections.fromMap != "" then
      if prev.selections.fromMap == state then CorrectMatch(prev, state) else IncorrectMatch(prev)
    else
      prev.(selections := prev.selections.(fromList := state))
  }

  /** The updater of `handleMapStateSelect`; routed as in the other revision. */
  function SelectOnMap(prev: GameState, state: string): (next: GameState)
    ensures prev.mode == Easy && prev.selections.fromList != "" ==>
      next.selections == NoSelections && (next.score > prev.score <==> prev.selections.fromList == state)
    ensures prev.mode == Easy && prev.selections.fromList != "" && prev.selections.fromList == state ==>
      next == CorrectMatch(prev, state)
    ensures prev.mode == Easy && prev.selections.fromList != "" && prev.selections.fromList != state ==>
      next == IncorrectMatch(prev)
    ensures !(prev.mode == Easy && prev.selections.fromList != "") ==>
      next == prev.(selections := prev.selections.(fromMap := state))
  {
    if prev.mode == Easy && prev.selections.fromList != "" then
      if prev.selections.fromList == state then CorrectMatch(prev, state) else IncorrectMatch(prev)
    else
      prev.(selections := prev.selections.(fromMap := state))
  }

  predicate AwaitsAnswer(s: GameState) {
    s.mode == Hard && s.selections.fromMap != ""
  }

  /** The effect of `handleHardModeInput` on the game. */
  function SubmitAnswer(prev: GameState, input: string): (next: GameState)
    ensures !AwaitsAnswer(prev) ==> next == prev
    ensures AwaitsAnswer(prev) && AnswerMatches(input, prev.selections.fromMap) ==>
      next == CorrectMatch(prev, prev.selections.fromMap) && next.score > prev.score
    ensures AwaitsAnswer(prev) && !AnswerMatches(input, prev.selections.fromMap) ==>
      next == prev.(status := Status(WrongNameMessage, Error))
  {
    if AwaitsAnswer(prev) then
      if AnswerMatches(input, prev.selections.fromMap) then CorrectMatch(prev, prev.selections.fromMap)
      else prev.(status := Status(WrongNameMessage, Error))
    else prev
  }

  /** The updater of `handleInputClose`: the map pick is dropped, the list pick kept. */
  function CloseInput(prev: GameState): (next: GameState)
    ensures next.selections == Selections(prev.selections.fromList, "")
    ensures next == prev.(selections := next.selections)
  {
    prev.(selections := prev.selections.(fromMap := ""))
  }

  /** `startTimerIfNeeded`. */
  function Armed(prev: GameState): (next: GameState)
    ensures next == prev.(timer := ArmIfNeeded(prev.timer))
    ensures next.timer.isActive <==> prev.timer.isActive || prev.timer.mode != NoTimer
  {
    prev.(timer := ArmIfNeeded(prev.timer))
  }

  /** The interval's updater. */
  function TickUpdate(prev: GameState): (next: GameState)
    ensures next.timer == TickedTimer(prev.timer)
    ensures ExpiresOnTick(prev.timer) ==> next.status == Status(TimeUpMessage, Info)
    ensures !ExpiresOnTick(prev.timer) ==> next.status == prev.status
    ensures next == prev.(timer := next.timer, status := next.status)
  {
    prev.(timer := TickedTimer(prev.timer),
          status := if ExpiresOnTick(prev.timer) then Status(TimeUpMessage, Info) else prev.status)
  }

  /**
   * The updater of `resetGame`: a fresh game in the same mode; the timer keeps its mode and
   * whether it runs, and goes back to its start time.
   */
  function Reset(prev: GameState): (next: GameState)
    ensures next.mode == prev.mode && next.score == 0 && next.completedStates == []
    ensures next.remainingStates == Catalog.Names && next.selections == NoSelections
    ensures next.timer == prev.timer.(time := StartTime(prev.timer.mode))
    ensures next.status == Status(StartMessage, Info)
  {
    InitialGameState(prev.mode).(timer := prev.timer.(time := StartTime(prev.timer.mode)))
  }

  /** The updater of `handleTimerModeChange`: the new timer mode from its start time, idle. */
  function ChangeTimerMode(prev: GameState, mode: TimerMode): (next: GameState)
    ensures next.timer == TimerForMode(mode)
    ensures next == prev.(timer := next.timer)
  {
    prev.(timer := TimerForMode(mode))
  }

  /** What every reachable state and store satisfy. */
  predicate ValidState(s: GameState, store: map<GameMode, ModeProgress>) {
    IsSubsequence(s.remainingStates, Catalog.Names) && KeyedByMode(store)
  }

  /** An answer, right or wrong, leaves `remainingStates` as it was. */
  lemma SubmitKeepsRemaining(s: GameState, input: string)
    ensures SubmitAnswer(s, input).remainingStates == s.remainingStates
  {
  }

  lemma SubmitKeepsValid(s: GameState, store: map<GameMode, ModeProgress>, input: string)
    requires ValidState(s, store)
    ensures ValidState(SubmitAnswer(s, input), store)
  {
    SubmitKeepsRemaining(s, input);
  }

  /** Until a reset or a mode switch, the score never goes down. */
  lemma ScoreNeverDecreases(prev: GameState, state: string, input: string)
    ensures SelectFromList(prev, state).score >= prev.score
    ensures SelectOnMap(prev, state).score >= prev.score
    ensures SubmitAnswer(prev, input).score >= prev.score
    ensures TickUpdate(prev).score == prev.score && CloseInput(prev).score == prev.score
    ensures Armed(prev).score == prev.score
  {
  }

  /** The component with its two stores. */
  class USStatesGame {
    var gameState: GameState
    var hoveredState: string
    var inputPosition: Position
    var userInput: string
    /** Whether the storage layer has opened; the handlers that touch storage do nothing before. */
    var isInitialized: bool
    var progressStore: map<GameMode, ModeProgress>
    var settingsStore: Option<Settings>

    predicate Valid()
      reads this
    {
      ValidState(gameState, progressStore)
    }

    /** First render: easy mode from scratch, before storage is ready. */
    constructor (progress: map<GameMode, ModeProgress>, settings: Option<Settings>)
      requires KeyedByMode(progress)
      ensures Valid()
      ensures gameState == InitialGameState(Easy) && !isInitialized
      ensures progressStore == progress && settingsStore == settings
      ensures hoveredState == "" && inputPosition == Position(0, 0) && userInput == ""
    {
      gameState := InitialGameState(Easy);
      hoveredState := "";
      inputPosition := Position(0, 0);
      userInput := "";
      isInitialized := false;
      progressStore := progress;
      settingsStore := settings;
      SubsequenceReflexive(Catalog.Names);
    }

    /** `loadSavedGame`: the last mode played, re-seeded from its saved progress. */
    method LoadSavedGame()
      requires Valid()
      modifies this`gameState
      ensures Valid()
      ensures gameState == Loaded(CurrentSettings(settingsStore),
                                  ProgressFor(progressStore, CurrentSettings(settingsStore).lastGameMode))
    {
      var settings := CurrentSettings(settingsStore);
      var progress := ProgressFor(progressStore, settings.lastGameMode);
      gameState := Loaded(settings, progress);
    }

    /** Storage opening: the flag is set, and the effect watching it loads the saved game. */
    method StorageReady()
      requires Valid()
      modifies this`isInitialized, this`gameState
      ensures Valid() && isInitialized
      ensures gameState == Loaded(CurrentSettings(settingsStore),
                                  ProgressFor(progressStore, CurrentSettings(settingsStore).lastGameMode))
    {
      isInitialized := true;
      LoadSavedGame();
    }

    /** `saveCurrentProgress`. */
    method SaveCurrentProgress()
      requires Valid()
      modifies this`progressStore
      ensures Valid()
      ensures progressStore == SaveProgress(old(progressStore), gameState)
    {
      if |gameState.completedStates| > 0 {
        progressStore := progressStore[gameState.mode := ProgressOf(gameState)];
      }
    }

    /** The auto-save effects: once storage is ready, a non-empty completed list is saved. */
    method AutoSave()
      requires Valid()
      modifies this`progressStore
      ensures Valid()
      ensures progressStore == if isInitialized then SaveProgress(old(progressStore), gameState) else old(progressStore)
    {
      if isInitialized && |gameState.completedStates| > 0 {
        SaveCurrentProgress();
      }
    }

    /**
     * `handleGameModeChange`: save the current progress, record the new mode as the last one
     * played, and re-seed the game from the new mode's saved progress.
     */
    method HandleGameModeChange(newMode: GameMode)
      requires Valid()
      modifies this`gameState, this`progressStore, this`settingsStore
      ensures Valid()
      ensures !old(isInitialized) ==> gameState == old(gameState) && progressStore == old(progressStore)
                                      && settingsStore == old(settingsStore)
      ensures old(isInitialized) ==>
        progressStore == SaveProgress(old(progressStore), old(gameState))
        && settingsStore == Some(CurrentSettings(old(settingsStore)).(lastGameMode := newMode))
        && gameState == Switched(newMode, CurrentSettings(old(settingsStore)), ProgressFor(progressStore, newMode))
    {
      if !isInitialized {
        return;
      }
      SaveCurrentProgress();
      var settings := CurrentSettings(settingsStore);
      settingsStore := Some(settings.(lastGameMode := newMode));
      var progress := ProgressFor(progressStore, newMode);
      gameState := Switched(newMode, settings, progress);
    }

    /** `handleTimerModeChange`: remember the choice for the current game mode and install the timer. */
    method HandleTimerModeChange(mode: TimerMode)
      requires Valid()
      modifies this`gameState, this`settingsStore
      ensures Valid()
      ensures !old(isInitialized) ==> gameState == old(gameState) && settingsStore == old(settingsStore)
      ensures old(isInitialized) ==>
        settingsStore == Some(WithTimerPreference(CurrentSettings(old(settingsStore)), old(gameState).mode, mode))
        && gameState == ChangeTimerMode(old(gameState), mode)
    {
      if !isInitialized {
        return;
      }
      var settings := CurrentSettings(settingsStore);
      settingsStore := Some(WithTimerPreference(settings, gameState.mode, mode));
      gameState := ChangeTimerMode(gameState, mode);
    }

    /** `resetGame`: an empty record with 300 s is saved for the mode, then the game starts over. */
    method ResetGame()
      requires Valid()
      modifies this`gameState, this`progressStore, this`userInput, this`hoveredState
      ensures Valid()
      ensures !old(isInitialized) ==> gameState == old(gameState) && progressStore == old(progressStore)
                                      && userInput == old(userInput) && hoveredState == old(hoveredState)
      ensures old(isInitialized) ==>
        progressStore == Put(old(progressStore), ModeProgress(old(gameState).mode, [], old(gameState).timer.mode, Some(CountdownStart)))
        && gameState == Reset(old(gameState)) && userInput == "" && hoveredState == ""
    {
      if !isInitialized {
        return;
      }
      progressStore := progressStore[gameState.mode := ModeProgress(gameState.mode, [], gameState.timer.mode, Some(CountdownStart))];
      gameState := Reset(gameState);
      userInput := "";
      hoveredState := "";
      SubsequenceReflexive(Catalog.Names);
    }

    /** One run of the interval callback, which exists only while the timer runs with a mode. */
    method Tick()
      requires Valid()
      modifies this`gameState
      ensures Valid()
      ensures Ticking(old(gameState).timer) ==> gameState == TickUpdate(old(gameState))
      ensures !Ticking(old(gameState).timer) ==> gameState == old(gameState)
    {
      if gameState.timer.isActive && gameState.timer.mode != NoTimer {
        gameState := TickUpdate(gameState);
      }
    }

    /** `startTimerIfNeeded`. */
    method StartTimerIfNeeded()
      requires Valid()
      modifies this`gameState
      ensures Valid()
      ensures gameState == Armed(old(gameState))
    {
      if !gameState.timer.isActive && gameState.timer.mode != NoTimer {
        gameState := gameState.(timer := gameState.timer.(isActive := true));
      }
    }

    /** `handleStateSelect`. */
    method HandleStateSelect(state: string)
      requires Valid()
      modifies this`gameState
      ensures Valid()
      ensures gameState == SelectFromList(Armed(old(gameState)), state)
    {
      StartTimerIfNeeded();
      gameState := SelectFromList(gameState, state);
    }

    /** `handleMapStateSelect`. */
    method HandleMapStateSelect(state: string, position: Position)
      requires Valid()
      modifies this`gameState, this`inputPosition
      ensures Valid()
      ensures gameState == SelectOnMap(Armed(old(gameState)), state)
      ensures inputPosition == position
    {
      StartTimerIfNeeded();
      inputPosition := position;
      gameState := SelectOnMap(gameState, state);
    }

    /** `handleHardModeInput`. */
    method HandleHardModeInput()
      requires Valid()
      modifies this`gameState, this`userInput
      ensures Valid()
      ensures gameState == SubmitAnswer(old(gameState), old(userInput))
      ensures userInput == if AwaitsAnswer(old(gameState)) then "" else old(userInput)
    {
      var prev := gameState;
      if AwaitsAnswer(prev) {
        SubmitKeepsValid(prev, progressStore, userInput);
        gameState := SubmitAnswer(prev, userInput);
        userInput := "";
      }
    }

    /** `handleInputClose`. */
    method HandleInputClose()
      requires Valid()
      modifies this`gameState, this`userInput
      ensures Valid()
      ensures gameState == CloseInput(old(gameState)) && userInput == ""
    {
      gameState := CloseInput(gameState);
      userInput := "";
    }

    method HoverState(state: string)
      modifies this`hoveredState
      ensures hoveredState == state
    {
      hoveredState := state;
    }

    method LeaveState()
      modifies this`hoveredState
      ensures hoveredState == ""
    {
      hoveredState := "";
    }

    method ChangeInput(text: string)
      modifies this`userInput
      ensures userInput == text
    {
      userInput := text;
    }
  }
}
