# Game-show scoreboard: a Dafny model of its state logic

The scoreboard has two browser views. The operator's controller keeps the
game state: score, round, multiplier and a list of point-scoring challenges.
It changes that state through a six-action reducer and saves it to local
storage after every change. The audience view polls the saved record, mirrors
its score, round and challenges, and raises a confetti celebration when the
score goes up. A third component, the dashboard, carries its own copy of the
reducer.

This project models that logic in Dafny:

- `game_types.dfy` (module `GameTypes`) holds the shared values: a challenge,
  the game state, the six actions, the default state, and the persisted record.
  In the game state the challenge list is optional, because a state decoded
  from storage may lack it. In the record every field is optional.
- `js_numbers.dfy` (module `JsNumbers`) is the browser's `parseInt` as the
  controller applies it to the points field. It skips leading white space,
  reads a sign, handles a `0x` prefix and reads the longest digit run. `None`
  stands for NaN. A lemma proves that `parseInt` reads back the decimal text of
  any integer.
- `game_controller.dfy` (module `GameController`) holds the controller's
  reducer `Step` with its `|| []` fallback. `ActionEffect` states what each
  action does. The file also has lemmas about single actions and about runs of
  actions. The class `Controller` holds the state and the new-challenge form,
  with one method per handler.
- `game_show.dfy` (module `GameShow`) holds the dashboard's reducer. It fails
  (`Thrown`) on ADD_CHALLENGE and REMOVE_CHALLENGE when the list is missing. A
  lemma proves that it otherwise returns exactly what the controller's reducer
  returns.
- `game_display.dfy` (module `GameDisplay`) holds the audience view. The pure
  functions `NextMirror` and `Raises` give one poll's effect. The class
  `Display` has a `Poll` method proved against them.

Two behaviours of the code are worth knowing:

- `addChallenge` checks only that both form fields are non-empty
  (src/components/GameController.tsx:79). So points text that `parseInt` reads
  as NaN still passes the guard. The model's guard is `FormComplete`.
- RESET_GAME sets the round back to 1, so the round does not only grow over
  every run of actions. `RoundStaysPositive` and `RoundCountsNextRounds` state
  what does hold.

## Model

| member | source | states |
|---|---|---|
| GameController.Step | src/components/GameController.tsx:27-76 | the reducer meets `ActionEffect`: ADD_CHALLENGE appends the payload as the new last challenge and keeps the earlier ones in order; REMOVE_CHALLENGE(i) yields `cs[..i] + cs[i+1..]` for an index in range and the list unchanged otherwise; ADD_POINTS(d) adds `d` times the previous multiplier; NEXT_ROUND adds 1 to the round; SET_MULTIPLIER replaces the multiplier verbatim; RESET_GAME yields the default state; every field the action does not name is kept |
| GameController.Without | src/components/GameController.tsx:39 | filtering the list by index drops exactly the element at an in-range index and nothing at any other index |
| GameController.FilterFromDropsIndex | src/components/GameController.tsx:39 | the index filter, started at any offset, equals the list with the one matching position cut out, or the list itself when no position matches |
| GameController.ActionEffectUnique | src/components/GameController.tsx:27-76 | the documented effect of an action determines the next state completely |
| GameController.AddThenRemove | src/components/GameController.tsx:31-39 | ADD_CHALLENGE(c) then REMOVE_CHALLENGE(old length) restores the challenge list (a missing list comes back empty) and leaves every other field as it was |
| GameController.ResetIsDefault | src/components/GameController.tsx:59-60 | RESET_GAME yields the default state `{points 0, round 1, multiplier 1, challenges []}` whatever the prior state; it is idempotent and equals the state a controller starts with when nothing is saved |
| GameController.AwardTwice | src/components/GameController.tsx:135 | awarding the same challenge twice adds `2 * points * multiplier` |
| GameController.RoundStaysPositive | src/components/GameController.tsx:52-60 | from a round of at least 1, every sequence of actions keeps the round at least 1 |
| GameController.RoundCountsNextRounds | src/components/GameController.tsx:52-53 | over a sequence without RESET_GAME the round never decreases and grows by exactly the number of NEXT_ROUND actions |
| GameController.PointsFollowDeltas | src/components/GameController.tsx:45-46 | over a sequence without RESET_GAME or SET_MULTIPLIER the multiplier is kept and the score moves by the multiplier times the sum of the ADD_POINTS deltas |
| GameController.Controller.constructor | src/components/GameController.tsx:11-20 | the controller starts from the saved state if there is one, else from the default state, with an empty form |
| GameController.Controller.Dispatch | src/components/GameController.tsx:27-76 | `updateGame` replaces the state by the reducer's result and leaves the form alone |
| GameController.Controller.EditName | src/components/GameController.tsx:118 | typing a name changes only the form's name |
| GameController.Controller.EditPoints | src/components/GameController.tsx:124 | typing points changes only the form's points text |
| GameController.Controller.AddChallenge | src/components/GameController.tsx:78-83 | the guard passes exactly when both form fields are non-empty; then ADD_CHALLENGE is dispatched with the name and the parsed points and the form is cleared; otherwise game state and form are both unchanged |
| GameController.Controller.RemoveChallenge | src/components/GameController.tsx:85-87 | dispatches REMOVE_CHALLENGE with the row's index |
| GameController.Controller.AddPoints | src/components/GameController.tsx:89-91 | dispatches ADD_POINTS with the given delta |
| GameController.Controller.Award | src/components/GameController.tsx:135 | awarding a challenge adds its points times the current multiplier and changes no other field, so the challenge stays listed and can be awarded again |
| GameController.Controller.NextRound | src/components/GameController.tsx:93-95 | dispatches NEXT_ROUND |
| GameController.Controller.ResetGame | src/components/GameController.tsx:97-99 | after a reset the state is the default state |
| GameController.Controller.SetMultiplier | src/components/GameController.tsx:101-103 | dispatches SET_MULTIPLIER with the parsed value |
| JsNumbers.ParseIntDecimal | src/components/GameController.tsx:80 | `parseInt` returns the integer whose decimal text starts the points field, whatever follows it, as long as that does not continue the digits and, after the text `0`, is not `x` or `X` |
| JsNumbers.ParseIntBlank | src/components/GameController.tsx:80 | a blank points text parses to NaN |
| GameShow.Step | src/components/GameShow.tsx:26-75 | the dashboard's reducer throws exactly on ADD_CHALLENGE or REMOVE_CHALLENGE with a missing list; otherwise its result meets the same documented effect as the controller's (append at the end, drop exactly the indexed element with an out-of-range index a no-op, add `payload * multiplier`, round + 1, default state on reset, replace only the multiplier) |
| GameShow.AgreesWithController | src/components/GameShow.tsx:26-75 | whenever the dashboard's reducer returns a state it equals the controller reducer's result, and it always does so when the challenge list is present |
| GameShow.InitialState | src/components/GameShow.tsx:10-18 | the dashboard starts from the same state as the controller: the saved one, or `{points 0, round 1, multiplier 1, challenges []}` |
| GameDisplay.Celebrates | src/components/GameDisplay.tsx:20 | the celebration test holds iff a stored score exists and is strictly greater than the mirrored one; the `!==` conjunct adds nothing |
| GameDisplay.Raises | src/components/GameDisplay.tsx:16-21 | a poll celebrates iff a record is stored and its score is strictly above the mirrored score; no record, a missing score, an equal or a lower score never celebrate |
| GameDisplay.NextMirror | src/components/GameDisplay.tsx:16-29 | with no record the mirror is unchanged; otherwise the score is the stored one or 0, the round is the stored one when present and non-zero and exactly 1 otherwise, and the challenges are the stored list or [] |
| GameDisplay.FallbacksApply | src/components/GameDisplay.tsx:26-28 | each fallback holds on its own, whatever the other fields are: a missing or zero score gives 0, a missing or zero round gives 1, missing challenges give [] |
| GameDisplay.MultiplierIgnored | src/components/GameDisplay.tsx:24-29 | the record's multiplier changes neither the mirror nor the celebration; only score, round and challenges are copied |
| GameDisplay.SecondPollQuiet | src/components/GameDisplay.tsx:20-29 | polling the same record twice in a row celebrates at most on the first poll |
| GameDisplay.PollsControllerState | src/components/GameDisplay.tsx:15-29 | polling the record the controller saved for a state with round at least 1 mirrors exactly its score, round and challenges, and celebrates iff its score is above the mirrored one |
| GameDisplay.Display.constructor | src/components/GameDisplay.tsx:7-12 | the view starts with the mirror `{points 0, round 1, challenges []}` and the flag off |
| GameDisplay.Display.Poll | src/components/GameDisplay.tsx:15-32 | one poll returns whether it celebrated (`Raises`), refreshes the mirror to `NextMirror`, and sets the flag when it celebrated but never clears it |
| GameDisplay.Display.HideConfetti | src/components/GameDisplay.tsx:22 | the timer callback clears the flag and leaves the mirror |

## Left out

- Local storage and JSON: the controller's saved state is passed in as an already decoded `Option<GameState>`. The audience view's stored record is an `Option<Record>`. Serialisation is the function `ToRecord`.
- Toast notifications and their texts are presentational side effects of the updater and are not modelled.
- Timers: `setInterval` is not modelled, and `Poll` is one tick. The three-second `setTimeout` is not modelled either; only the body of its callback is, as `HideConfetti`.
- Numbers are mathematical integers. Floating point, fractional multipliers, and NaN from `parseFloat` are not modelled; `SetMultiplier` takes the multiplier already parsed.
- GameController.Controller.AddChallenge: when the guard passes but `parseInt` yields NaN, the source appends a challenge with NaN points. The model has no NaN, so it clears the form and leaves the game state unchanged.
- A saved state lacking its score, round or multiplier would make the arithmetic produce NaN. This is not modelled; only the challenge list may be missing from a game state.
- Unrecognised action tags are not modelled, because the actions are a closed datatype. The source's switch would return an unchanged copy, and its callers only ever pass the six tags.
- Record fields other than score, round, multiplier and challenges, and fields of the wrong JSON type, are not represented. This includes a `null` score, which the serialiser writes for NaN and which the celebration test compares as 0; `None` in a record means the field is absent.
- `parseInt` is modelled for string input with the default radix. The ToString coercion of non-string arguments does not arise, because the form always holds text.
- JSX rendering, React hooks and double invocation under StrictMode are UI plumbing and are not modelled. So are the confetti wrapper, the notification component and the bootstrap files.
