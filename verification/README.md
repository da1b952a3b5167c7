# Guessing-round state machine of the game screen

This project models the logic of the game screen in `frontend/screens/GameScreen.tsx`. The player sees the name of a target place and taps the map to guess where it is. Each tap measures the great-circle distance to the target, and each tap before the target is found costs a guess. A guess closer than 0.1 km finds the target. The "Next Location" button then moves to the next location of the level with a fresh budget of five guesses. After the last location, the game is over.

The model has four modules:

- `Level` (`level.dfy`): coordinates, the `Location` objects of a level, `indexOf` (`IndexOf`) and `isThereNextLocation` (`IsThereNextLocation`). A location is a class with constant fields. The screen finds its target with `indexOf`, and `indexOf` compares objects by identity, so the model compares locations by reference too.
- `Round` (`round.dfy`): the round as a value (`RoundState`). The tap (`Tap`), the advance (`Next`), one event as the rendered screen passes it through (`Step`) and a run of events (`Run`) are pure functions of that value. Their contracts state what each transition changes and what it leaves alone.
- `RoundProperties` (`round_properties.dfy`): lemmas over any sequence of taps and "Next Location" presses.
- `Screen` (`screen.dfy`): the screen as an object. `AppContext` holds the level and `guessesRemaining`, as the shared application context does. `GameScreen` holds the component state and the handlers `HandleMapPress`, `NextLocation`, `CalculateDistance` and the found effect (`CheckFound`). Each handler is proved to perform the `Round` transition on `Snapshot()`, the state seen as a value.

Modelling choices:

- Each handler runs as one atomic transition. React runs the effect on `guessedDistance` (lines 50-54) only when the distance changes. The model applies it at the end of every tap and every advance, even when the distance is unchanged. The two agree on every reachable state, because no reachable state has a distance below 0.1 while `locationFound` is false (`RunFoundFollowsDistance`). Both `!locationFound` tests in `handleMapPress` read the value from before the tap. So the tap that finds a target still costs a guess and is counted.
- The Haversine distance is a function parameter of type `DistanceFn`, fixed when the screen is mounted. The 0.1 km test is an exact comparison on reals.
- The loss view (lines 62-69) replaces the map. So `Step` lets no event through while `guessesRemaining` is 0. The "Next Location" button is rendered only while `locationFound` holds (lines 188-202). So `Step` lets a next press through only then.
- `message` is kept as a structured value: `NoMessage` for the empty string, or `DistanceTo(name, km)`.
- The context's starting value of `guessesRemaining` is a constructor parameter. The context code is not part of this model. The budget is 5 only from the first advance on (line 121).
- `isThereNextLocation` is never called in the source. It is modelled as the pure query it is.
- If a level holds the same location object twice, `indexOf` always finds the first copy. `RepeatedLocationLoops` traces this for the level [a, b, a]. `RepeatedLocationNeverEnds` proves, for every level with a repeat and every run from the start, that `gameOver` is never set. Every lemma about progress therefore assumes a level without repeats (`Distinct`).

## Model

| member | source | states |
|---|---|---|
| `Level.IndexOf` | frontend/screens/GameScreen.tsx:94 | The result is -1 exactly when the object is absent. Otherwise it is the position of the object's first occurrence. |
| `Level.IsThereNextLocation` | frontend/screens/GameScreen.tsx:92-105 | True iff there is a target and it occurs before the level's last slot. False when there is no target or the target is not in the level. As a function it changes no state. |
| `Round.Initial` | frontend/screens/GameScreen.tsx:34-44 | The first location is the target, at index 0, or there is none for an empty level. The counter is 0, no location is selected and there is no message. The distance is 6371 (not below 0.1), and neither flag is set. The context's guess count is kept. |
| `Round.Tap` | frontend/screens/GameScreen.tsx:128-148 | While not found, a tap takes exactly one guess, adds one to the counter and selects the tapped coordinate. Once found, all three are left unchanged. With a target, the distance is recomputed against the current target. The message reports that distance. The target and `gameOver` never change. Afterwards `locationFound` holds iff it held before or the new distance is below 0.1. |
| `Round.Next` | frontend/screens/GameScreen.tsx:107-126 | With a next location, the target becomes the location after the current one's first occurrence. Selection, distance (6371), counter, message and found are reset, guesses become 5 and `gameOver` is unchanged. At the last location only `gameOver` becomes true. With no target, or a target outside the level, nothing changes. |
| `Round.Step` | frontend/screens/GameScreen.tsx:62-69 | In the loss state no event changes anything. Before the target is found, the target and `gameOver` stay put. In a level without repeats, a found target stays found while it stays the target. A step keeps guesses within 0..5, and a non-negative count stays non-negative. |
| `RoundProperties.StepMovesAtMostOne` | frontend/screens/GameScreen.tsx:109-115 | In a level without repeats, one event keeps the target or moves it to the next position, and the target stays in the level. |
| `RoundProperties.RunNeverMovesBack` | frontend/screens/GameScreen.tsx:107-126 | Over any run of events in a level without repeats, the target's position never decreases. |
| `RoundProperties.FoundPersistsWhileTargetStays` | frontend/screens/GameScreen.tsx:50-54 | In a level without repeats, a found target is still found at the end of any run if it is still the target. |
| `RoundProperties.RunKeepsGuessesInRange` | frontend/screens/GameScreen.tsx:121 | Guesses that start within 0..5 stay within 0..5 over any run. |
| `RoundProperties.RunNeverNegative` | frontend/screens/GameScreen.tsx:131 | The guess count never drops below 0 over any run from a non-negative start. |
| `RoundProperties.RunOverOnlyAtLast` | frontend/screens/GameScreen.tsx:111-113 | `gameOver` is only ever set while the target is the last location of the level. |
| `RoundProperties.MissesUseUpGuesses` | frontend/screens/GameScreen.tsx:130-147 | Each of n missed taps on an unfound target costs one guess and adds one to the counter. The target stays unfound and unchanged. |
| `RoundProperties.FiveMissesLose` | frontend/screens/GameScreen.tsx:62-69 | Five misses from a budget of 5 reach the loss state with the target unfound. A further tap then changes nothing. |
| `RoundProperties.ExactGuessFinds` | frontend/screens/GameScreen.tsx:50-54 | A tap on the target's own coordinate finds it, when the distance from a point to itself is 0. |
| `RoundProperties.RepeatedLocationLoops` | frontend/screens/GameScreen.tsx:109-115 | In the level [a, b, a], advancing from a goes to b, then back to a, then to b again, so this level cycles between a and b. |
| `RoundProperties.TwoTargetScenario` | frontend/screens/GameScreen.tsx:107-148 | In a two-location level, a close tap finds the first target. "Next Location" moves to the second target with 5 guesses. A far tap there leaves 4 guesses, counter 1 and the target unfound. |
| `RoundProperties.LastLocationEndsGame` | frontend/screens/GameScreen.tsx:111-113 | At the last location of a level without repeats, "Next Location" sets `gameOver` and changes nothing else. |
| `RoundProperties.RunFoundFollowsDistance` | frontend/screens/GameScreen.tsx:50-54 | Over any run, a distance below 0.1 always comes with `locationFound` set, if it did at the start. |
| `RoundProperties.StepStaysBeforeRepeat` | frontend/screens/GameScreen.tsx:109-115 | If the target's first occurrence lies before a slot that repeats an earlier location, one event keeps it there and `gameOver` stays false. |
| `RoundProperties.RunStaysBeforeRepeat` | frontend/screens/GameScreen.tsx:107-126 | The same holds over any run of events. |
| `RoundProperties.RepeatedLocationNeverEnds` | frontend/screens/GameScreen.tsx:107-126 | In a level that holds some location twice, no run from the initial state ever sets `gameOver`. |
| `RoundProperties.FoundOnLastGuessLoses` | frontend/screens/GameScreen.tsx:62-69 | Finding the target with the last guess still spends that guess. The screen reaches the loss state with the target found, and "Next Location" then changes nothing. |
| `Screen.GameScreen.constructor` | frontend/screens/GameScreen.tsx:32-44 | The mounted screen's state is `Initial` of the context's level and guess count. |
| `Screen.GameScreen.CheckFound` | frontend/screens/GameScreen.tsx:50-54 | `locationFound` becomes true when the guessed distance is below 0.1. Nothing else changes. |
| `Screen.GameScreen.CalculateDistance` | frontend/screens/GameScreen.tsx:71-90 | Returns the distance from the guess to the target and stores it as `guessedDistance`. Nothing else changes. |
| `Screen.GameScreen.HandleMapPress` | frontend/screens/GameScreen.tsx:128-148 | The screen's new state, guess count included, is `Tap` of the old state. |
| `Screen.GameScreen.NextLocation` | frontend/screens/GameScreen.tsx:107-126 | The screen's new state, guess count included, is `Next` of the old state. |
| `Screen.GameScreen.Dispatch` | frontend/screens/GameScreen.tsx:62-69 | The screen's new state is `Step` of the old state. No tap or press reaches a handler in the loss view, and "Next Location" is only handled once found. |

## Left out

- Haversine arithmetic (lines 77-87): floating-point trigonometry is not modelled. The distance is a supplied function. Symmetry, zero distance for equal points and the bound πR are not proved.
- Message formatting: the `toFixed(2)` text of line 142 is kept only as the name and distance it reports.
- `setTargetName` (lines 56-60, 122): it writes to context code that is not part of this model. Which name it leaves depends on React's effect ordering.
- Navigation and reload: `navigation.navigate("Pause")`, `navigation.navigate("Win")` and `DevSettings.reload()` (lines 66, 151, 156) are left out. Only the `gameOver` flag that triggers the win navigation is modelled.
- Rendering and layout (lines 159-288): map, marker, image, buttons and styles are left out. Only button visibility is kept, as a guard in `Step`.
- React hook mechanics: `useState`, `useEffect`, `useRef`, batching and re-render timing are replaced by one atomic transition per handler.
- A missing context or level (`state?.currentLevel?`): the model always has a level. An empty level is modelled, and it gives no target.
- Double-precision numbers: distances are exact reals, and guess counts are unbounded integers.
