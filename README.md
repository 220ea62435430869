# All Fours scorekeeper: score-state engine

This project is a Dafny model of the score-state engine of the Trinidad All Fours
scorekeeper. The engine is the `AllFoursScorekeeper` class in `script.js`. Its state is
modelled as the class `Scorekeeper.AllFoursScorekeeper`, with these fields:

- `players`: a sequence of `Player` values (id, name, total, winner flag).
- `targetScore`.
- `rounds`: a sequence of rounds. Each round maps a player id to the points scored.
- `currentPlayerCount`.
- `selectedCell`: the cell whose scoring dialog is open.

Two more fields stand for the two browser storage slots the engine writes:

- `gameSlot` holds the saved game.
- `historySlot` holds the list of finished games.

Every operation that changes the state is a method. Each method's `modifies` clause names
exactly the fields it changes. Each method's `ensures` gives the new state and the
invariants it keeps:

- Totals equal the column sums of the rounds (`TotalsMatchRounds`).
- Winner flags follow the target (`FlagsFollowTarget`).
- Every round has an entry for every player (`RoundsCoverPlayers`).

The loops of the source are `while` loops with their invariants:

- The nested total-summing loops.
- The winner-flag loop.
- The loop that builds an empty round.
- The loop that zeroes the last round in undo.
- The loop that builds the player list.
- The reset loop.

Browser dialogs become parameters:

- `confirm(...)` becomes `confirmed: bool`.
- `prompt(...)` becomes `answer: Option<string>`; `None` means the dialog was cancelled.
- The number in the points field becomes `parsed: Option<int>`; `None` means `parseInt` gave NaN.
- The name fields become `nameInputs: seq<string>`.

The JavaScript built-ins the engine's decisions depend on are modelled in `JsStrings`:

- `String.prototype.trim`, with the full ECMAScript WhiteSpace and LineTerminator set.
- The decimal text of a number in a template literal.
- `parseInt` without a radix, including the sign and the `0x` prefix.
- `isNaN` on a string, via the StringNumericLiteral grammar.

Some behaviour of the code differs from what a reader might expect. The model follows the
code in each case:

- Applying points stores the parsed number without clamping it to 0..100. The typing
  listener and the plus/minus buttons clamp the field (`PointsInput`), and opening the
  dialog sets it to 0, so typed values stay in range. The preset buttons (script.js:359-370)
  write their button data into the field unclamped; the page markup that holds that data
  is not part of this model.
- Victory is level-triggered. In a game with two or more players, every scoring change
  and every change through the "change target" prompt that leaves a winner in place
  appends another history record, as the `historySlot` clauses of `ApplyPoints`,
  `HandleQuickAdd` and `ChangeTarget` state. The custom-target field changes the target
  without a winner check.
- When the last round has a positive entry, undo recomputes totals, which clears every winner
  flag, and does not check for a winner again. When it removes the round instead, totals
  and flags are left as they were.
- The "change target" prompt accepts only numeric text that parses to a positive number.
  The custom-target field takes any `parseInt` result and falls back to 7 only for NaN
  or 0, so a negative target passes (`NegativeTargetOnlyThroughField`).
- Undo removes a last round that has no positive entry but does not recompute totals.
  Totals stay consistent only if that round had no negative entry either. A negative
  entry can reach a round only from a preset button or a quick-add button whose data is
  negative, or from a stored game.
- Saving and reloading gives the state back only when neither the target nor the player
  count is 0. A stored 0 is falsy and is replaced by the default (`ReloadRoundTrip`).

## Model

| member | source | states |
|---|---|---|
| Scorekeeper.AllFoursScorekeeper.constructor | script.js:7-20 | the state is the defaults (no players, target 7, no rounds, four players) with a stored game merged in field by field when one is present; no cell is selected |
| Scorekeeper.AllFoursScorekeeper.LoadGameHistory | script.js:60-68 | the stored history, or the empty list when the slot is empty or does not parse |
| Scorekeeper.AllFoursScorekeeper.SaveCompletedGame | script.js:33-55 | the history becomes the earlier history, in order, followed by exactly one new record |
| Scorekeeper.AllFoursScorekeeper.ClearGameHistory | script.js:73-78 | the history slot is emptied when confirmed and left alone otherwise |
| Scorekeeper.AllFoursScorekeeper.SaveGameState | script.js:605-622 | the game slot holds every saved field of the current state |
| Scorekeeper.AllFoursScorekeeper.LoadGameState | script.js:634-643 | a stored list replaces the current one whenever it is present; a stored number replaces the current one only when it is present and not 0; with no stored game nothing changes |
| Scorekeeper.AllFoursScorekeeper.CreateEmptyRound | script.js:213-219 | the round has an entry for exactly the current players' ids, and every entry is 0 |
| Scorekeeper.NewPlayers | script.js:189-201 | one player per counted name field (none for a count of 0 or less); player at index j has id j + 1, the name from field j, total 0 and no win |
| Scorekeeper.InitialPlayersAt | script.js:192-201 | the player list built one player at a time has length n, with id j + 1 and the name from field j at index j |
| Scorekeeper.PlayerName | script.js:194 | the name is non-empty and has no whitespace at either end; it is the trimmed field text unless the field is blank, and then `Player i` |
| Scorekeeper.DefaultName | script.js:194 | the fallback name is non-empty and has no whitespace at either end |
| Scorekeeper.AllFoursScorekeeper.StartGame | script.js:187-211 | players 1..count with trimmed or default names, total 0 and no win; exactly one round, with an entry of 0 for every player; totals match the rounds, every round covers the players, nobody has won; the game is saved |
| Scorekeeper.AllFoursScorekeeper.AddRound | script.js:428-433 | earlier rounds are kept and one empty round for the current players is appended; totals that matched the rounds still match, and rounds that covered the players still do; the game is saved |
| Scorekeeper.AllFoursScorekeeper.UpdateTotals | script.js:464-476 | players keep their ids, names and order; every total equals the sum over all rounds of that player's entry (0 where missing); every winner flag is cleared |
| Scorekeeper.AllFoursScorekeeper.CheckForWinner | script.js:487-501 | totals, ids, names and order are kept; each flag is set exactly when that player's total reaches the target, so ties give several winners; the result is true exactly when some flag is set; then one record for the first two players is appended to the history, if there are two |
| Scorekeeper.AllFoursScorekeeper.TriggerVictory | script.js:503-516 | with at least two players, one record for the first two players is appended to the history; otherwise the history is unchanged |
| Scorekeeper.AllFoursScorekeeper.OpenScoreModal | script.js:340-341 | the given round and player become the selected cell |
| Scorekeeper.AllFoursScorekeeper.HideModal | script.js:354-357 | no cell is selected |
| Scorekeeper.AllFoursScorekeeper.ApplyPoints | script.js:380-401 | with no selected cell nothing changes; otherwise only the selected cell of the rounds changes, to the parsed number (0 for NaN, no clamp); totals match the rounds; flags follow the target; victory is reported and recorded exactly when a flag is set; the game is saved; the selection is cleared; when the totals matched the rounds before, only the selected player's total moves, by the difference between the new and old entries |
| Scorekeeper.AllFoursScorekeeper.HandleQuickAdd | script.js:407-422 | only the first player's entry in the last round changes, rising by the points; totals match the rounds; flags follow the target; victory is reported and recorded exactly when a flag is set; the game is saved; when the totals matched the rounds before, the first player's total rises by the points and every other total is unchanged |
| Scorekeeper.AllFoursScorekeeper.ZeroPositiveEntries | script.js:437-446 | the result is the round with every positive entry set to 0 and every other entry kept; the flag is true exactly when the round had a positive entry |
| Scorekeeper.AllFoursScorekeeper.UndoLastEntry | script.js:435-462 | with no rounds nothing changes; if the last round has a positive entry, those entries become 0, the round count and earlier rounds are kept, totals are recomputed and every flag is cleared; otherwise, with more than one round the last round is removed and the players are unchanged; otherwise nothing changes |
| Scorekeeper.AllFoursScorekeeper.ResetScores | script.js:556-560 | exactly one empty round; players keep ids, names and order with total 0 and no win; totals match the rounds, which cover the players; the game is saved |
| Scorekeeper.AllFoursScorekeeper.ClearGame | script.js:554-566 | when confirmed, the reset above; otherwise nothing changes |
| Scorekeeper.AllFoursScorekeeper.NewGame | script.js:568-580 | when confirmed, the same reset as clearing the game; otherwise nothing changes |
| Scorekeeper.AcceptedTarget | script.js:584-585 | the answer is accepted exactly when it is present, non-empty, numeric and parses to a positive number, and then the target is that number |
| Scorekeeper.AllFoursScorekeeper.ChangeTarget | script.js:582-591 | a rejected or cancelled answer changes nothing; an accepted one becomes the target, totals are kept, flags are recomputed against it, victory is reported and recorded exactly when a flag is set, and the game is saved |
| Scorekeeper.CustomTarget | script.js:136 | the target is never 0: it is the parsed number when that is a non-zero number, and 7 for NaN or 0 |
| Scorekeeper.AllFoursScorekeeper.SetCustomTarget | script.js:135-138 | the target becomes the custom-field value |
| Scorekeeper.ChangeTargetAcceptsPositive | script.js:584-585 | the prompt accepts the decimal text of every positive number, as that number |
| Scorekeeper.NegativeTargetOnlyThroughField | script.js:136 | the prompt rejects `-n`, but the custom field sets the target to -n |
| Scorekeeper.ZeroTargetRejected | script.js:584 | the prompt rejects `0` and the custom field turns it into 7 |
| History.CompletedGame | script.js:34-39 | the record keeps both names and scores; the winner is one of the two players, the one with the strictly higher score, and the second player on a tie |
| Persistence.ReloadRoundTrip | script.js:605-643 | saving a state and loading it into a fresh scorekeeper gives the state back exactly when the target and the player count are both non-zero |
| Persistence.Merge | script.js:640-643 | a stored player list or round list replaces the current one when present and keeps it when absent; a stored target or player count replaces the current one exactly when it is present and not 0, so each is 0 only if it was 0 before; a payload with no fields changes nothing |
| Persistence.ReloadIsStable | script.js:605-643 | the state produced by loading the page, saved and loaded again, is the same state |
| PointsInput.Clamp | script.js:375 | the result lies in 0..100; a value in range is kept, and out-of-range values go to the nearer end |
| PointsInput.AdjustedPoints | script.js:372-376 | the stepped value lies in 0..100 and equals the field's number (NaN read as 0) plus the step when that is in range, 0 when it is below and 100 when it is above |
| PointsInput.SanitizedPoints | script.js:127-131 | the typed value lies in 0..100; a number in range is kept; NaN becomes 0; a number below 0 becomes 0 and one above 100 becomes 100 |
| PointsInput.SanitizeIdempotent | script.js:127-131 | sanitizing an already sanitized value changes nothing |
| Scores.ColumnSumUpdate | script.js:472-476 | replacing one round changes a player's column sum by the difference of that player's two entries and by nothing else |
| Scores.ColumnSumAppend | script.js:472-476 | appending a round adds that round's entry to every column sum |
| Scores.EmptyRoundFacts | script.js:213-219 | an empty round for the players has an entry for each of them and adds 0 to every column sum |
| Scores.ZeroPositivesChanges | script.js:441-446 | zeroing the positive entries changes a round exactly when it has a positive entry |
| Scores.ZeroPositivesEntry | script.js:441-446 | after zeroing, each entry loses exactly its positive part and no positive entry is left |
| JsStrings.Trim | script.js:194 | the result has no whitespace at either end, and it is empty exactly when the input is all whitespace |
| JsStrings.TrimOfPadded | script.js:194 | trimming removes exactly the whitespace around a text whose ends are not whitespace |
| JsStrings.NatToString | script.js:194 | the decimal text of a number is non-empty and all digits, starts with `0` exactly for 0, and has no leading zero otherwise |
| JsStrings.NatToStringValue | script.js:194 | reading the decimal text of n back as digits gives n |
| JsStrings.DecimalTextParses | script.js:584 | the decimal text of n passes the numeric test, and `parseInt` reads it as n |
| JsStrings.NegativeTextParses | script.js:136 | `parseInt` reads a minus sign before the decimal text of n as -n |
| JsStrings.ParseInt | script.js:136 | `parseInt` gives NaN for blank text and for text whose first non-blank character is neither a digit nor a sign |
| JsStrings.IsNumericString | script.js:584 | blank text counts as numeric; numeric text starts, after trimming, with a digit, a sign, a point or `Infinity` |
| JsStrings.ParseIntIgnoresLeadingWhitespace | script.js:136 | `parseInt` skips leading whitespace: prefixing blanks does not change its result |
| JsStrings.ParseIntOfDigitsThenText | script.js:136 | a run of digits followed by nothing, or by text that starts with neither a digit nor `x`/`X`, is read by `parseInt` as exactly that run |
| JsStrings.DigitsThenLettersParseButAreNaN | script.js:584 | `12px` is read by `parseInt` as 12 but fails the numeric test |
| JsStrings.HexTextParses | script.js:584 | `0x1A` passes the numeric test and `parseInt` reads it as 26 |
| Scorekeeper.TrailingTextOnlyThroughField | script.js:584-585 | the prompt rejects `12px` while the custom-target field sets the target to 12 |
| Scorekeeper.HexTargetAccepted | script.js:584-585 | the prompt accepts `0x1A` and sets the target to 26 |

## Left out

- Rendering, screens, the DOM writes inside the totals update, sounds, confetti and the
  delayed winner alerts are presentation only, and the console logging (script.js:54, 65,
  76, 661) is diagnostics only; none of them is modelled. The tie alert prints
  the first winner's total; that is text only.
- `localStorage` and JSON are the two slot fields. A payload that does not parse is `None`.
  A payload whose fields have the wrong JSON types is not modelled, in either slot: a
  history payload that parses to something other than a list (such as `null`) is returned
  by the history load and makes saving a completed game throw; `historySlot` holds only lists.
- The date and time stamps of a history record are not modelled; they read the clock.
- The name-field texts saved and restored with the game (`playerNames`, script.js:611-620,
  646-653) are not modelled; they only refill input boxes.
- The player-count buttons, the target preset buttons and the preset-points buttons
  (script.js:155-185, 359-370) are not modelled. They copy fixed button data into the
  state or into the points field. The preset-points button adds to the field without a
  clamp, so a value above 100 can reach applyPoints, which stores it without clamping.
- The blur auto-save and the name-field save (script.js:148, 601-603) only call `SaveGameState`.
- Numbers are unbounded integers. JavaScript numbers are doubles, so totals and parsed
  values above 2^53 would lose precision.
- Scorekeeper.AllFoursScorekeeper.StartGame: requires at least as many name fields as the player count. With more players than fields, the code reads a missing input element and throws.
- Scorekeeper.AllFoursScorekeeper.ApplyPoints: requires the selected round to exist. Cells can only be selected in rendered rounds; for a missing round the code throws.
- Scorekeeper.AllFoursScorekeeper.HandleQuickAdd: requires a round, a player, and an entry for the first player in the last round. Without a round or a player the code throws; without the entry it stores NaN.
- Scorekeeper.AllFoursScorekeeper.UndoLastEntry: when the last round is removed, totals are stated to stay consistent only if that round had no negative entry, because the code does not recompute them. Such an entry can come only from preset-button or quick-add-button data or a stored game, none of which the model restricts.
- Scorekeeper.AllFoursScorekeeper.ZeroPositiveEntries: visits the keys in an unspecified order, not in `for...in` order. The result does not depend on the order.
