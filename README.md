# Dice widget roll controller, modelled in Dafny

The widget is a browser page inside a Telegram mini app. It rolls a six-sided die on request, counts the rolls and keeps the last few results. It shows these statistics and keeps them in local storage across sessions. This project models the controller class `TelegramDice` in `script.js`. The DOM, the Telegram bridge and the browser APIs around it are left out.

Modules:

- `Maybe` (maybe.dfy): the optional value. Its `GetOr` is JavaScript's `x || default` for the fields read from storage.
- `Text` (text.dfy): `Number.prototype.toString` on integers (`Decimal`) and `Array.prototype.join` (`Join`), each with an inverse: `ParseDecimal`, and `Split` (a model of `String.prototype.split`). Round-trip lemmas connect each pair.
- `History` (history.dfy): the most-recent-first result list.
  - `Push` is one `unshift` followed by the conditional `pop`.
  - `Replay` is a run of completed rolls.
  - Lemmas state the bound of five, the range of the faces, and that the list holds the five most recent results.
- `Storage` (storage.dfy): persistence as an abstract record instead of JSON text.
  - A stored item is blank (missing or empty string), unreadable (reading, `JSON.parse`, or reading a field of the parsed value threw, as for a stored `null`), or a parsed record. A missing field of the record is absent; `||` treats a falsy field the same way, and the writer always writes both fields.
  - `LocalStorage` is the key/value store. A write to it may fail.
- `Dice` (dice.dfy): the `TelegramDice` class and the summary-line projection `RecentText`.
  - The class holds the three state fields `totalRolls`, `lastRolls` and `isRolling`, plus the page state the controller writes: button disabled, spinning class, result text and pop class, die face, and the two statistics texts.
  - `Valid()` is the object invariant. A completion callback is pending exactly while a roll is in progress. The button is disabled and the die spins exactly then. The statistics texts always show the current statistics.

The roll is split at its `setTimeout`:

- `RollDice(draw)` is the guarded start. The random draw `Math.floor(Math.random() * 6) + 1` is its parameter `draw`, and the scheduled callback is the field `scheduled` holding that draw.
- `TimerFires()` is the callback body. It runs `ShowResult` and only then releases the guard.

Behaviour of the code worth knowing, which the model follows:

- The die face is set to the result's text as it is, with no range check (script.js:110). Draws are faces, so the face is always one of 1..6.
- Constructing the widget does not re-render the die from the loaded history (script.js:2-22). `face` stays `None`, meaning "as the page markup set it".
- The space key's default action is suppressed only when no roll is in progress (script.js:60). During a roll, space scrolls the page.
- A loaded history is not checked (script.js:144-145). An oversized one never shrinks, because each roll pushes one entry and pops at most one (`History.OversizedHistoryKeepsLength`). The bound of five is therefore stated as kept from a valid history, not as established by loading.
- The roll resolves after a single 800 ms delay (script.js:89-94).

## Model

| member | source | states |
|---|---|---|
| Text.Digits | script.js:123 | the text of a non-negative integer is non-empty, all decimal digits, one character exactly below 10, and has no leading zero |
| Text.Decimal | script.js:123 | the `toString` text of an integer is non-empty, starts with '-' exactly for negative numbers, and is otherwise all decimal digits |
| Text.DecimalRoundTrip | script.js:123 | reading back the `toString` text of any integer, negative ones included, gives that integer |
| Text.Join | script.js:124 | `join` of no parts is ""; otherwise the text starts with the first part and its length is the parts' total length plus one separator between each two neighbours |
| Text.SplitJoin | script.js:124 | splitting a `join` result at the separator gives back the joined parts, when no part contains the separator's first character |
| History.Push | script.js:100-103 | after a roll with result r the history starts with r, the old entries follow in their order, and only the last old entry is dropped, and only when the list had five or more |
| History.PushKeepsValid | script.js:100-103 | a roll with a face as its result, from a history of at most five faces, leaves a history of at most five faces |
| History.ReplayKeepsMostRecent | script.js:100-103 | from a history of at most five entries, after any run of rolls the history is the newest five of (results newest first, then the old entries) |
| History.ReplayKeepsValid | script.js:100-103 | over any run of die rolls, a valid history (at most five entries, each in 1..6) stays valid |
| History.OversizedHistoryKeepsLength | script.js:100-103 | a history of more than five entries keeps its length over any run of rolls |
| Storage.Restore | script.js:139-150 | loading keeps the current statistics unless a record was parsed; then a present field is taken as it is, a missing or falsy counter becomes 0 and a missing or falsy history becomes [] |
| Storage.Serialize | script.js:129-133 | the saved record holds both the counter and the history, and a fresh widget loading it over the defaults gets exactly the saved statistics |
| Storage.RestoreSerialize | script.js:127-150 | loading the record that saving wrote restores exactly the saved counter and history, whatever was held before |
| Storage.ResaveIsIdentical | script.js:127-150 | saving again right after a load, with no roll in between, writes the identical record |
| Storage.LocalStorage.GetItem | script.js:141 | reading a key that holds nothing gives a blank item; otherwise it gives what is stored under the key |
| Storage.LocalStorage.SetItem | script.js:133-136 | a write stores the record under the key when storage is writable, so that reading the key gives it back, and leaves storage unchanged when the write fails |
| Dice.RecentText | script.js:124 | the recent-rolls text is empty exactly when the history is |
| Dice.RecentTextReadsBack | script.js:124 | a non-empty history's recent-rolls text splits at ", " into min(3, length) pieces, piece i reading back as entry i |
| Dice.TelegramDice.constructor | script.js:2-22 | a new widget is idle and valid, its statistics are the stored ones loaded over the defaults 0 and [], and the texts show them |
| Dice.TelegramDice.RollDice | script.js:74-95 | during a roll, nothing at all changes; otherwise the roll starts with the drawn face scheduled, the button disabled, the die spinning, the result text "?" and the pop class removed; the counter and history are untouched |
| Dice.TelegramDice.OnKeyDown | script.js:59-64 | the default action is suppressed exactly for Space when no roll is in progress, and then a roll starts; in every other case nothing changes |
| Dice.TelegramDice.TimerFires | script.js:89-94 | the completion counts exactly one roll, pushes the drawn face, shows it, persists the final statistics and releases the guard with the button enabled; a valid history stays valid |
| Dice.TelegramDice.ShowResult | script.js:97-120 | the counter goes up by exactly 1, the history becomes Push(old history, result), the result text and face show the result, the new statistics are persisted (unless the write fails) and shown |
| Dice.TelegramDice.RecordResult | script.js:99-110 | the counter goes up by exactly 1, the history becomes Push(old history, result), and the result text and die face show the result with the pop class set |
| Dice.TelegramDice.UpdateDisplay | script.js:122-125 | the total text is the decimal of the counter and the recent text is the first three history entries joined by ", " |
| Dice.TelegramDice.SaveToStorage | script.js:127-137 | storage holds the current counter and history under "telegramDiceData" after the call, or is unchanged when the write fails |
| Dice.TelegramDice.LoadFromStorage | script.js:139-150 | the counter and history become Restore(the stored item, their old values); no other field changes |
| Dice.ReloadAfterRoll | script.js:127-150 | after a completed roll on writable storage, a widget built afresh on the same storage starts with the counter and history the first one ended with |

## Left out

- Telegram bridge calls and theme application (`initTelegramApp`, `applyTheme`, script.js:24-44) are SDK calls and CSS property writes, so they are not modelled.
- `ensureDiceVisible` (script.js:46-53) is not modelled: it only writes CSS style properties.
- Event-listener registration (script.js:55-72) is not modelled. The button's click handler and the die's click handler both call `rollDice` behind the same `isRolling` guard, so `RollDice` covers them. Only the space-key handler's decision is modelled (`OnKeyDown`).
- `Math.random` is left out. The drawn face is the parameter of `RollDice`, required to lie in 1..6.
- `setTimeout` and its 800 ms delay are left out. The pending callback is the `scheduled` field, and its run is `TimerFires`. Time itself is not modelled.
- `navigator.vibrate` (script.js:113-115) and `console.log` (script.js:135, 148) have no effect on the state, so they are not modelled.
- `JSON.stringify` and `JSON.parse` are left out. The stored item is an abstract record, so the model does not describe the JSON text.
- The initial markup of the page is not part of this model. The model starts the result text as "" and the die face as `None`.
- The `DOMContentLoaded` bootstrap (script.js:153-163) is not modelled. Its fallback branch (script.js:158-161) runs only when `window.Telegram` or its `WebApp` is missing, and the constructor then throws, at script.js:3 or at script.js:26 (`this.tg.expand()`), so no widget is built outside Telegram. The model covers only the branch with the bridge present, whose construction is `TelegramDice`'s constructor (`ReloadAfterRoll` builds it twice on one storage).
- Dice.TelegramDice.LoadFromStorage: a parsed record's counter is taken to be an integer and its history a list of integers. A record holding other JSON values there (strings, fractions, nested objects) is outside the model. So are integers beyond 2^53, which JSON numbers cannot hold exactly.
- Dice.TelegramDice.ShowResult: the counter is an unbounded integer. JavaScript's `totalRolls++` on a double stops being exact past 2^53, which the model does not capture.
- Dice.TelegramDice.TimerFires: the same unbounded counter as `ShowResult`, for the same reason.
- Text.Decimal: models `toString` for integers only. Fractions and the exponent form of very large numbers are not modelled.
