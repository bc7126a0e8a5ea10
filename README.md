# US states quiz — a Dafny model of its game logic

The quiz shows a list of the 50 states and the District of Columbia next to a map of the
United States. In easy mode the player picks a name in the list and the same state on the
map. In hard mode the player clicks a state on the map and types its name. A correct match
scores 10 points, plus a tenth of the seconds left when a countdown runs. An optional timer
counts down from 300 s or up from 0. The persistence-aware revision differs: a game it
loads starts at the saved time or else 600 s, one it switches to at the saved time or else
300 s, and since only a countdown's time is saved, a restored stopwatch restarts from that
fallback too.

This project models that logic in Dafny and proves what it promises:

- `text.dfy` (module `Text`): the string operations the game uses. These are JavaScript
  `trim` (the full ECMAScript whitespace and line-terminator set), `toLowerCase` on ASCII
  letters, decimal rendering of numbers, and `padStart`.
- `lists.dfy` (module `Lists`): the two `filter`s the game applies to lists of names, and
  facts about sub-sequences and duplicate-free lists.
- `catalog.dfy` (module `Catalog`): the region table of `stateConfig.ts`, which maps 51
  names to postal abbreviations. Also its four map colours and its two lookups, which fall
  back to their input.
- `game.dfy` (module `Game`): what both revisions of the game component share. That is the
  modes, the timer and its one-second tick, lazy arming of the timer, points, the status
  messages, the typed-answer check and `formatTime`.
- `live_game.dfy` (module `LiveGame`): the component the page renders. It counts progress by
  `remainingStates`.
- `saved_game.dfy` (module `SavedGame`): the persistence-aware revision. It counts progress
  by `completedStates`, and it saves and restores progress per game mode.
- `timer_controls.dfy`, `usa_map.dfy`, `states_map.dfy`, `states_list.dfy`: the decision
  rules of the timer buttons, the two maps and the list of states.

How React is modelled:

- Each `setGameState` updater is a pure function from the previous game state to the next.
- Each component is a class `USStatesGame` whose fields are its `useState` variables.
- Each handler is a method that runs its updaters in the order React queues them.
  `startTimerIfNeeded` arms the timer first; the selection updater then sees the armed timer.
- The interval is a `Tick` method, guarded the way the effect is (`isActive` and a timer
  mode other than "none").
- In the persistence-aware revision the two storage objects become fields: the progress
  store is a `map` from game mode to `ModeProgress`, and the settings store is an
  `Option<Settings>`. The handlers read and write them where the source awaits the storage
  calls.
- The two revisions keep separate game-state records: only the persistence-aware one has
  `completedStates`. Each revision therefore declares its own updaters, and
  the ones whose code is the same in both (list and map routing, closing the input, arming,
  the tick, the timer-mode change) appear once in each module.

Behaviour is modelled as written, quirks included:

- No `handleCorrectMatch` checks whether a state was already credited. A repeated match
  scores again (`LiveGame.RepeatedMatchScoresAgain`).
- In the persistence-aware revision, completion counts matches, not states. Fifty matches
  with one state repeated, plus one more repeat, end the game while a catalog state was
  never matched (`SavedGame.CompletionWithStateMissing`).
- That revision leaves `remainingStates` alone on a match.
- In both revisions a match that does not end the game marks the timer running, even with
  timer mode "none" (`LiveGame.CorrectMatch`, `SavedGame.CorrectMatch`).
- An expired countdown does not stop matches. They still score, and they set `isActive` again
  (`LiveGame.ExpiredCountdownStillScores`).
- `progress?.timeRemaining || 600` (on load) and `|| 300` (on a mode switch) fall back when
  no time was saved, and also when the saved time is 0 (`SavedGame.RestoredTime`).
- `getStateAbbreviation` falls back to its input on an empty table entry too. No entry is
  empty, so this never shows.

Trimming follows the code: `String.prototype.trim` strips every ECMAScript white-space and
line-terminator character, not only ASCII spaces.

## Model

| member | source | states |
|---|---|---|
| Text.Trim | src/components/game/USStatesGame.tsx:258 | `trim` gives a result no longer than its input, with no white space at either end |
| Text.TrimSlice | src/components/game/USStatesGame.tsx:258 | the trimmed text is the input minus a white-space prefix and a white-space suffix |
| Text.TrimPadded | src/components/game/USStatesGame.tsx:258 | trimming a word wrapped in white space gives back exactly that word |
| Text.TrimIdempotent | src/components/game/USStatesGame.tsx:258 | trimming twice is trimming once |
| Text.ToLower | src/components/game/USStatesGame.tsx:258-259 | lower-casing keeps the length and lower-cases each character on its own |
| Text.ToLowerIdempotent | src/components/game/USStatesGame.tsx:258-259 | lower-cased text has no upper-case letter, and lower-casing it again changes nothing |
| Text.ToLowerTrim | src/components/game/USStatesGame.tsx:258 | lower-casing and trimming commute, so the order `trim().toLowerCase()` does not matter |
| Text.NatToString | src/components/game/USStatesGame.tsx:289 | a number renders as a non-empty run of decimal digits with no leading zero |
| Text.NatToStringValue | src/components/game/USStatesGame.tsx:289 | reading a rendered number back gives the number |
| Text.NatToStringInjective | src/components/game/USStatesGame.tsx:234 | different numbers render differently |
| Text.PadStart | src/components/game/USStatesGame.tsx:289 | `padStart` widens to the width with the fill character on the left and keeps the text at the right end |
| Lists.Without | src/components/game/USStatesGame.tsx:221-223 | the filter keeps the other elements in order (a sub-sequence), holds exactly the elements other than the removed one, and drops every copy of it |
| Lists.WithoutAbsent | src/components/game/USStatesGame.tsx:221-223 | filtering out a name the list does not hold leaves the list unchanged |
| Lists.WithoutAll | src/components/USStatesGame.tsx:141-143 | the filter keeps, in order, exactly the names not in the completed list |
| Lists.WithoutNothing | src/components/USStatesGame.tsx:141-143 | with no saved progress nothing is filtered out: the list comes back whole |
| Lists.WithoutAllCount | src/components/USStatesGame.tsx:141-143 | dropping k distinct catalog names from the duplicate-free catalog leaves exactly the catalog size minus k names |
| Lists.SubsequenceNoDuplicates | src/components/game/USStatesGame.tsx:221-223 | a filtered duplicate-free list stays duplicate-free |
| Catalog.NamesDistinct | src/components/game/Map/stateConfig.ts:8-60 | the 51 names of the table are pairwise distinct |
| Catalog.AbbreviationsDistinct | src/components/game/Map/stateConfig.ts:8-60 | the 51 abbreviations of the table are pairwise distinct |
| Catalog.AbbreviationShape | src/components/game/Map/stateConfig.ts:8-60 | every abbreviation is two upper-case letters |
| Catalog.CatalogShape | src/components/game/Map/stateConfig.ts:8-60 | the catalog has 51 distinct names, "District of Columbia" among them, and 51 distinct abbreviations |
| Catalog.LookupEntry | src/components/game/Map/stateConfig.ts:65 | a property read by an entry's name gives that entry's value when names are distinct |
| Catalog.FindFirst | src/components/game/Map/stateConfig.ts:70-72 | `find` returns the name of the first entry holding the value |
| Catalog.GetStateAbbreviation | src/components/game/Map/stateConfig.ts:64-66 | the result is the input itself or the abbreviation the table pairs with that name |
| Catalog.GetStateNameFromAbbreviation | src/components/game/Map/stateConfig.ts:68-74 | the result is the input itself or a name the table pairs with that abbreviation |
| Catalog.AbbreviationOfCatalogName | src/components/game/Map/stateConfig.ts:64-66 | for every catalog name, `getStateAbbreviation` gives its table entry |
| Catalog.AbbreviationOfUnknownName | src/components/game/Map/stateConfig.ts:65 | for any other string, `getStateAbbreviation` gives the input back |
| Catalog.NameOfFirstAbbreviation | src/components/game/Map/stateConfig.ts:68-74 | `getStateNameFromAbbreviation` gives the name of the first entry with that abbreviation |
| Catalog.NameOfUnknownAbbreviation | src/components/game/Map/stateConfig.ts:68-74 | for a string that is no abbreviation, `getStateNameFromAbbreviation` gives the input back |
| Catalog.NameRoundTrip | src/components/game/Map/stateConfig.ts:8-74 | name to abbreviation and back gives the name, for every catalog name |
| Catalog.AbbreviationRoundTrip | src/components/game/Map/stateConfig.ts:8-74 | abbreviation to name and back gives the abbreviation, for every abbreviation of the table |
| Game.MessagesDistinguish | src/components/game/USStatesGame.tsx:233-235 | the completion message never equals the ordinary "Correct!" message, and it determines the final score |
| Game.TickedTimer | src/components/game/USStatesGame.tsx:107-126 | one tick takes a countdown from t to t-1, or to 0 and stopped when t-1 <= 0; a stopwatch gains a second; the mode is kept |
| Game.CountdownRuns | src/components/game/USStatesGame.tsx:104-128 | a running countdown from t shows t-n after n < t seconds, and is stopped at 0 from then on |
| Game.StopwatchRuns | src/components/game/USStatesGame.tsx:104-128 | a running stopwatch shows t+n after n seconds and never stops by itself |
| Game.ArmIfNeeded | src/components/game/USStatesGame.tsx:168-175 | the timer runs afterwards exactly when it ran before or has a mode; mode and time are kept |
| Game.StartTime | src/components/game/USStatesGame.tsx:141 | a countdown starts from 300 s, any other mode from 0 |
| Game.TimerForMode | src/components/game/USStatesGame.tsx:160-164 | a timer-mode change installs the new mode at its start time, stopped |
| Game.Points | src/components/game/USStatesGame.tsx:216-220 | a match earns 10 + floor(time/10) points under a countdown and exactly 10 otherwise |
| Game.AnswerMatchesEitherOrder | src/components/game/USStatesGame.tsx:258-261 | the answer check holds exactly when the input, lower-cased and then trimmed, equals the lower-cased name, so the order of `trim` and `toLowerCase` does not matter |
| Game.AnswerIgnoresPaddingAndCase | src/components/game/USStatesGame.tsx:258-261 | a typed answer matches exactly when, without its surrounding white space, it equals the name up to letter case |
| Game.SecondsField | src/components/game/USStatesGame.tsx:288-289 | the seconds of the minute always take two digits and read back as themselves |
| Game.FormatTime | src/components/game/USStatesGame.tsx:286-290 | "m:ss" is the whole minutes written in decimal with no leading zero, a colon and two digits of seconds, and reading it back gives the seconds |
| LiveGame.InitialGame | src/components/game/USStatesGame.tsx:75-92 | the first game is easy mode with no score, timer mode "none" idle at 300 s, no picks and the start message, and it holds all 51 distinct catalog names in catalog order |
| LiveGame.CorrectMatch | src/components/game/USStatesGame.tsx:212-243 | a match adds the points, removes every copy of the state and keeps the rest in order, and clears both picks; the final-score message appears and the timer stops exactly when no state is left, else "Correct! +p points" and the timer runs |
| LiveGame.IncorrectMatch | src/components/game/USStatesGame.tsx:245-254 | a mismatch clears both picks and shows an error; score, remaining states, timer and mode are unchanged |
| LiveGame.SelectFromList | src/components/game/USStatesGame.tsx:180-191 | with a map pick, the list pick scores exactly when both name the same state, and the result is then the correct match on that state; it is a mismatch otherwise; without a map pick it is only recorded |
| LiveGame.SelectOnMap | src/components/game/USStatesGame.tsx:198-209 | only in easy mode with a list pick is the map pick compared; it scores exactly when both agree, and the result is then the correct match on that state; otherwise it is only recorded |
| LiveGame.SubmitAnswer | src/components/game/USStatesGame.tsx:256-276 | nothing happens unless hard mode awaits an answer; a right answer is a correct match on the map pick, which then leaves the list; a wrong one only shows an error and keeps the pick |
| LiveGame.CloseInput | src/components/game/USStatesGame.tsx:278-284 | closing the answer box drops the map pick, keeps the list pick, and changes nothing else |
| LiveGame.Armed | src/components/game/USStatesGame.tsx:168-175 | arming changes only the timer, which runs afterwards exactly when it ran before or has a mode |
| LiveGame.TickUpdate | src/components/game/USStatesGame.tsx:106-127 | a tick changes only the timer and, when the countdown expires, shows "Time's up! Game Over" |
| LiveGame.Reset | src/components/game/USStatesGame.tsx:135-143 | a reset keeps the game mode and the timer mode, stops the timer at its start time, and starts over with score 0, every state left and no picks |
| LiveGame.ChangeGameMode | src/components/game/USStatesGame.tsx:149-153 | a mode change starts over in the new mode but keeps the timer exactly as it was |
| LiveGame.ChangeTimerMode | src/components/game/USStatesGame.tsx:158-165 | a timer-mode change installs the new mode at its start time, stopped, and changes nothing else |
| LiveGame.StepKeepsValid | src/components/game/USStatesGame.tsx:83 | every event keeps the remaining states a sub-sequence of the catalog names |
| LiveGame.SubmitKeepsValid | src/components/game/USStatesGame.tsx:256-276 | a submitted answer keeps the remaining states a sub-sequence of the catalog names |
| LiveGame.ScoreNeverDecreases | src/components/game/USStatesGame.tsx:216-229 | over any run of events without a reset or a mode change, the score never goes down |
| LiveGame.ExpiredCountdownStillScores | src/components/game/USStatesGame.tsx:212-243 | after the countdown expired, a match still earns 10 points and marks the timer running |
| LiveGame.RepeatedMatchScoresAgain | src/components/game/USStatesGame.tsx:221-229 | matching a state already gone scores again and leaves the list as it was |
| LiveGame.USStatesGame.constructor | src/components/game/USStatesGame.tsx:95-98 | the component starts from `initialGameState` with no hover, input position (0, 0) and no typed text |
| LiveGame.USStatesGame.Tick | src/components/game/USStatesGame.tsx:104-128 | the interval applies the tick updater only while the timer runs with a mode |
| LiveGame.USStatesGame.ResetGame | src/components/game/USStatesGame.tsx:134-146 | applies the reset updater and clears the typed text and the hover |
| LiveGame.USStatesGame.HandleGameModeChange | src/components/game/USStatesGame.tsx:148-155 | applies the mode-change updater and clears the typed text |
| LiveGame.USStatesGame.HandleTimerModeChange | src/components/game/USStatesGame.tsx:157-166 | applies the timer-mode updater |
| LiveGame.USStatesGame.StartTimerIfNeeded | src/components/game/USStatesGame.tsx:168-175 | arms an idle timer that has a mode |
| LiveGame.USStatesGame.HandleStateSelect | src/components/game/USStatesGame.tsx:177-192 | arms the timer, then routes the list pick |
| LiveGame.USStatesGame.HandleMapStateSelect | src/components/game/USStatesGame.tsx:194-210 | arms the timer, records the click position, then routes the map pick |
| LiveGame.USStatesGame.HandleHardModeInput | src/components/game/USStatesGame.tsx:256-276 | applies the answer check and clears the typed text exactly when an answer is awaited |
| LiveGame.USStatesGame.HandleInputClose | src/components/game/USStatesGame.tsx:278-284 | drops the map pick and clears the typed text |
| LiveGame.USStatesGame.HoverState | src/components/game/USStatesGame.tsx:332 | the hovered state becomes the one the map reports |
| LiveGame.USStatesGame.LeaveState | src/components/game/USStatesGame.tsx:333 | leaving a state clears the hover |
| LiveGame.USStatesGame.ChangeInput | src/components/game/USStatesGame.tsx:334 | the typed text becomes what the input reports |
| SavedGame.WithTimerPreference | src/components/USStatesGame.tsx:221-227 | the preference of the current game mode becomes the new timer mode; the other mode's preference and every other setting are kept |
| SavedGame.Put | src/storage/GameStorage.ts:97-109 | saving progress replaces the record of its mode and keeps the other mode's record |
| SavedGame.InitialGameState | src/components/USStatesGame.tsx:85-103 | a new game: the given mode, no timer (300 s stored), score 0, every state left, none completed, no picks |
| SavedGame.ProgressOf | src/components/USStatesGame.tsx:161-168 | the saved record holds the mode, the completed list and the timer mode, and the time exactly under a countdown |
| SavedGame.SaveProgress | src/components/USStatesGame.tsx:157-173 | nothing is written while no state is completed; otherwise the record of the current mode is replaced and the other kept |
| SavedGame.RestoredTime | src/components/USStatesGame.tsx:137 | the saved time is used when there is one other than 0; otherwise the fallback |
| SavedGame.RestoredRemaining | src/components/USStatesGame.tsx:141-143 | the states left are, in catalog order, exactly the catalog names not saved as completed |
| SavedGame.Seeded | src/components/USStatesGame.tsx:132-150 | a re-seeded game has the saved completed list, the catalog minus that list, the preferred timer mode, the restored time, score 0 and no picks |
| SavedGame.Loaded | src/components/USStatesGame.tsx:132-150 | the loaded game is in the last mode played with its preferred timer mode, idle, score 0 and no picks; the states left are the catalog minus the saved completed list; the time is the saved one unless it is absent or 0, then 600 s; the message welcomes back with the saved count, or is the start message without saved progress |
| SavedGame.Switched | src/components/USStatesGame.tsx:192-210 | the switched game is in the new mode with its preferred timer mode, idle, score 0 and no picks; the states left are the catalog minus the saved completed list; the time is the saved one unless it is absent or 0, then 300 s; the message gives the saved count, or "Switched to <mode> mode. Good luck!" without saved progress |
| SavedGame.RemainingCount | src/components/USStatesGame.tsx:141-143 | with k distinct completed catalog names, 51 - k states are left |
| SavedGame.SaveThenSwitchRestores | src/components/USStatesGame.tsx:157-210 | saving and switching back to the same mode restores the completed list, and a countdown's time unless it was 0 (then 300 s) |
| SavedGame.CorrectMatch | src/components/USStatesGame.tsx:398-430 | a match adds the points, appends the state to the completed list, leaves the remaining list and clears both picks; the final-score message appears and the timer stops exactly when 51 matches are recorded; otherwise the timer is marked running |
| SavedGame.CompletionWithStateMissing | src/components/USStatesGame.tsx:408-411 | with 50 matches recorded and a repeat among them, one more repeat ends the game though some catalog state was never matched |
| SavedGame.IncorrectMatch | src/components/USStatesGame.tsx:432-441 | a mismatch clears both picks and shows an error; score, both lists, timer and mode are unchanged |
| SavedGame.SelectFromList | src/components/USStatesGame.tsx:366-377 | routes the list pick as the other revision does: with a map pick naming the same state the result is the correct match on it, with a different one a mismatch; without a map pick it is only recorded |
| SavedGame.SelectOnMap | src/components/USStatesGame.tsx:384-395 | routes the map pick as the other revision does: in easy mode with a list pick naming the same state the result is the correct match on it, with a different one a mismatch; otherwise it is only recorded |
| SavedGame.SubmitAnswer | src/components/USStatesGame.tsx:443-463 | nothing happens unless hard mode awaits an answer; a right answer is a scoring match on the map pick; a wrong one only shows an error |
| SavedGame.SubmitKeepsValid | src/components/USStatesGame.tsx:443-463 | an answer, right or wrong, keeps the remaining states a sub-sequence of the catalog names |
| SavedGame.CloseInput | src/components/USStatesGame.tsx:465-471 | drops the map pick, keeps the list pick, and changes nothing else |
| SavedGame.Armed | src/components/USStatesGame.tsx:354-361 | arming changes only the timer, which runs afterwards exactly when it ran before or has a mode |
| SavedGame.TickUpdate | src/components/USStatesGame.tsx:286-307 | a tick changes only the timer and, when the countdown expires, the status |
| SavedGame.Reset | src/components/USStatesGame.tsx:253-259 | a reset starts over in the same mode with nothing completed; the timer keeps its mode and whether it runs, and goes to 300 s or 0; the start message is shown again |
| SavedGame.ChangeTimerMode | src/components/USStatesGame.tsx:229-236 | the new timer mode at its start time, stopped; nothing else changes |
| SavedGame.ScoreNeverDecreases | src/components/USStatesGame.tsx:402-415 | no selection, answer, close, arming or tick lowers the score |
| SavedGame.USStatesGame.constructor | src/components/USStatesGame.tsx:116-121 | the first render is a new easy game, before storage is ready, over the given stores |
| SavedGame.USStatesGame.LoadSavedGame | src/components/USStatesGame.tsx:123-155 | installs the last mode played, re-seeded from its saved progress with 600 s by default |
| SavedGame.USStatesGame.StorageReady | src/components/USStatesGame.tsx:267-272 | once storage is ready, the saved game is loaded |
| SavedGame.USStatesGame.SaveCurrentProgress | src/components/USStatesGame.tsx:157-173 | the progress store becomes `SaveProgress` of the current game |
| SavedGame.USStatesGame.AutoSave | src/components/USStatesGame.tsx:274-278 | once storage is ready, a non-empty completed list is saved |
| SavedGame.USStatesGame.HandleGameModeChange | src/components/USStatesGame.tsx:175-214 | before storage is ready nothing changes; otherwise it saves the progress, records the new mode as last played, and re-seeds from the new mode's progress with 300 s by default |
| SavedGame.USStatesGame.HandleTimerModeChange | src/components/USStatesGame.tsx:216-240 | before storage is ready nothing changes; otherwise it stores the preference for the current game mode and installs the new timer |
| SavedGame.USStatesGame.ResetGame | src/components/USStatesGame.tsx:242-265 | before storage is ready nothing changes; otherwise it saves an empty record with 300 s for the mode, resets the game and clears the typed text and the hover |
| SavedGame.USStatesGame.Tick | src/components/USStatesGame.tsx:281-312 | the interval applies the tick updater only while the timer runs with a mode |
| SavedGame.USStatesGame.StartTimerIfNeeded | src/components/USStatesGame.tsx:354-361 | arms an idle timer that has a mode |
| SavedGame.USStatesGame.HandleStateSelect | src/components/USStatesGame.tsx:363-378 | arms the timer, then routes the list pick |
| SavedGame.USStatesGame.HandleMapStateSelect | src/components/USStatesGame.tsx:380-396 | arms the timer, records the click position, then routes the map pick |
| SavedGame.USStatesGame.HandleHardModeInput | src/components/USStatesGame.tsx:443-463 | applies the answer check and clears the typed text exactly when an answer is awaited |
| SavedGame.USStatesGame.HandleInputClose | src/components/USStatesGame.tsx:465-471 | drops the map pick and clears the typed text |
| SavedGame.USStatesGame.HoverState | src/components/USStatesGame.tsx:522 | the hovered state becomes the one the map reports |
| SavedGame.USStatesGame.LeaveState | src/components/USStatesGame.tsx:523 | leaving a state clears the hover |
| SavedGame.USStatesGame.ChangeInput | src/components/USStatesGame.tsx:524 | the typed text becomes what the input reports |
| TimerControls.CountdownPressed | src/components/GameControls/TimerControls.tsx:63-65 | the Countdown button asks for "none" exactly under a countdown and for a countdown otherwise, never for the current mode |
| TimerControls.StopwatchPressed | src/components/GameControls/TimerControls.tsx:73-75 | the Stopwatch button asks for "none" exactly under a stopwatch and for a stopwatch otherwise, never for the current mode |
| TimerControls.PressTwice | src/components/GameControls/TimerControls.tsx:63-75 | pressing one button twice from "none" (or from the other mode) ends at "none"; from its own mode it comes back |
| TimerControls.OneSelected | src/components/GameControls/TimerControls.tsx:62-72 | at most one button is drawn selected, and one is exactly when a timer mode is set |
| TimerControls.TimeLabel | src/components/GameControls/TimerControls.tsx:84 | the label is "remaining" exactly under a countdown, else "elapsed" |
| TimerControls.TimeLine | src/components/GameControls/TimerControls.tsx:82-86 | the time line shows exactly when a timer mode is set and the display text is non-empty, and then reads "Time remaining/elapsed: " and the text |
| TimerControls.ShownWithTimer | src/components/game/USStatesGame.tsx:306 | given `formatTime` of the timer, the time line shows exactly when a timer mode is set |
| USAMap.GetStateFill | src/components/game/Map/USAMap.tsx:37-44 | the fill is one of the four catalog colours: selected beats hovered beats completed beats default, and a state not selected or hovered is drawn completed exactly when it is not left |
| USAMap.FillTellsCase | src/components/game/Map/USAMap.tsx:37-44 | the fill is the selected colour exactly for the map pick, and the hover colour exactly for a hovered state that is not the pick |
| USAMap.Shapes | src/components/game/Map/USAMap.tsx:57-61 | one shape per geography, in order, keyed by `rsmKey` and filled by `getStateFill` |
| USAMap.OnClick | src/components/game/Map/USAMap.tsx:80-85 | a click reports the geography's name and the pointer's client coordinates unchanged |
| USAMap.OnMouseEnter | src/components/game/Map/USAMap.tsx:78 | entering a geography reports its name |
| StatesMap.GetStateFill | src/components/game/GameBoard/StatesMap.tsx:34-39 | the literal colours give the same fill as the catalog-colour priority of the other map |
| StatesMap.PathClass | src/components/game/GameBoard/StatesMap.tsx:59-61 | the path is faded ("opacity-50") exactly when its state is no longer left |
| StatesMap.Paths | src/components/game/GameBoard/StatesMap.tsx:49-53 | one path per entry of the path table, in order, keyed by the state id, with its fill and class |
| StatesMap.HandleClick | src/components/game/GameBoard/StatesMap.tsx:24-32 | a click reports the state id and the pointer's client coordinates unchanged |
| StatesList.Background | src/components/game/GameBoard/StatesList.tsx:39-43 | completed green beats selected blue beats white |
| StatesList.TextColor | src/components/game/GameBoard/StatesList.tsx:44-45 | the text is white exactly on a completed or selected button |
| StatesList.BorderColor | src/components/game/GameBoard/StatesList.tsx:48-53 | a completed or selected button is framed in its own background colour, a plain one in grey |
| StatesList.Button | src/components/game/GameBoard/StatesList.tsx:86-93 | a button is marked selected exactly for the selected state, and marked completed and disabled exactly when its state is completed; its colours follow those flags and its cursor is "default" exactly when completed |
| StatesList.Buttons | src/components/game/GameBoard/StatesList.tsx:85-87 | one button per state left, in list order |
| StatesList.OnClick | src/components/game/GameBoard/StatesList.tsx:90-92 | a click selects the state exactly when it is not completed |
| StatesList.ButtonsCoverRemaining | src/components/game/GameBoard/StatesList.tsx:85-93 | the buttons stand for exactly the states left, and a button is disabled exactly when its click does nothing |

## Left out

- The IndexedDB storage layer (`src/storage/GameStorage.ts`): opening, transactions, requests and promises. The two stores are a map and an optional value. A failed storage call, and the `catch` branches that log it (one of them re-seeds an easy game on a failed load), are not modelled.
- The `lastPlayed` timestamp that saving adds (`Date.now()`). Clocks are outside the model.
- The `isLoading` and `error` flags of the storage hook, and the early renders they cause.
- `getCompletionPercentage` and the hard-mode progress bar. Both compute floating-point percentages.
- `setInterval`/`clearInterval` scheduling and when effects re-run. Only the state change of one tick is modelled, as `Tick`.
- The order in which the two identical auto-save effects and their awaits finish. `AutoSave` models one save.
- Markup, styled-components CSS, the hover background colours of the list buttons, and prop forwarding in the board, mode, status and input components.
- The geography fetch of the map library, and the untyped `geo` objects. A geography is reduced to its key and its name.
- `toLowerCase` beyond ASCII letters.
- Prototype keys such as `"constructor"` in `getStateAbbreviation`'s property read. The table is a plain list of pairs.
- `formatTime` on negative or fractional seconds. Times are natural numbers, and every transition keeps them so.
