# RadioPomodoro timer, ambience and card logic in Dafny

This project models the stateful logic of the RadioPomodoro page script
(`app.js`): the Pomodoro focus timer, its `MM:SS` display, the ambience-sound
selector and the mobile card layout.

- `timeformat.dfy` (module `TimeFormat`): `formatTime` as a pure function
  built from a decimal spelling (`String(n)`) and `padStart`. A reader
  `ParseTime` recovers the seconds from every display (a left inverse; it
  also accepts extra leading zeros that `formatTime` never writes).
- `pomodoro.dfy` (module `Pomodoro`): the timer. The modes and their
  durations (1500, 300 and 900 seconds) are modelled. Each operation's effect
  on the whole timer is a function on the value `TimerState`. The class
  `Timer` holds the same variables as fields. Its methods `Tick`,
  `SetPomoMode`, `TogglePomo`, `ResetPomo` and `SwitchMode` update those
  fields in place, and each is proved to have the effect of its function. The
  object invariant says the minutes statistic is 25 times the number of
  finished focus sessions and `0 < remaining <= Duration(mode)`. `Run` models
  the one-second interval that calls `tick` while the timer is running.
- `ambience.dfy` (module `AmbienceSelector`): the class `Ambience` holds one
  `paused` flag per sound, in an array in `ambList` order, plus the selected
  index. It has the stop-all loop and the two click handlers. The invariant
  says at most one player is playing.
- `cards.dfy` (module `Cards`): the class `CardDeck` holds one `expanded`
  flag per card, in an array. It has `closeAllCards`, `toggleCard`, and the
  click and resize handlers that call them. The invariant says at most one
  card is expanded.

The ambience invariant is "at most one player plays", not "exactly one":
all players are paused at load, and pressing play on the playing sound pauses
it without starting another.

## Model

| member | source | states |
|---|---|---|
| `TimeFormat.Decimal` | app.js:162 | `String(n)` spells `n` in decimal digits. It reads back as `n`, has no leading zero except for 0 itself, has one digit exactly below 10, and has at most two digits exactly below 100. |
| `TimeFormat.PadStart` | app.js:162 | `padStart(width, fill)`: the result is `max(|s|, width)` long, ends with `s`, and is `fill` before that. |
| `TimeFormat.PaddedDecimal` | app.js:160-162 | A number padded to width 2 has at least two digits and the same value. It has exactly two digits when the number is below 100. When it is longer than two, it has no leading zero. |
| `TimeFormat.FormatTime` | app.js:159-163 | `formatTime(sec)`: at least five characters, with ':' third from the end. |
| `TimeFormat.FormatTimeFields` | app.js:159-163 | The display is the minutes field, then ':', then the seconds field. The minutes field is `sec / 60` in at least two digits, with a leading zero only as padding. The seconds field is `sec % 60` in exactly two digits. The display has length 5 exactly when `sec < 6000`. |
| `TimeFormat.FormatTimeRoundTrip` | app.js:159-163 | Parsing the display of `sec` gives back `sec`. |
| `TimeFormat.FormatTimeInjective` | app.js:159-163 | Two different second counts never show the same display. |
| `Pomodoro.Duration` | app.js:143-147 | `DURATIONS`: each mode lasts a positive whole number of minutes. |
| `Pomodoro.NextMode` | app.js:221-230 | After focus comes a break and after a break comes focus. The break is long exactly when the session count is a multiple of 4. |
| `Pomodoro.AfterSetMode` | app.js:235-247 | `setPomoMode` keeps the timer invariant, the sound flag and the statistics. |
| `Pomodoro.AfterReset` | app.js:259-264 | `resetPomo` keeps the invariant, the mode, the sound flag and the statistics. |
| `Pomodoro.AfterToggle` | app.js:249-257 | `togglePomo` flips the running flag and changes nothing else. |
| `Pomodoro.AfterSwitch` | app.js:266-269 | `switchMode` flips the sound flag and changes nothing else. |
| `Pomodoro.AfterTick` | app.js:205-230 | `tick` keeps the invariant and the sound flag. It adds one to the session count exactly when it ends a focus session. |
| `Pomodoro.Run` | app.js:205-257 | Any number of interval firings keeps the invariant and the sound flag, and never lowers the session count. |
| `Pomodoro.InitialInv` | app.js:143-155 | The state at page load (focus, 1500 s, stopped, sound on, zero statistics) satisfies the timer invariant. |
| `Pomodoro.InvPreserved` | app.js:205-269 | Tick, set-mode, reset, toggle and switch all keep `minutes == 25 * completed` and `0 < remaining <= Duration(mode)`. |
| `Pomodoro.TickCountsDown` | app.js:205-207 | A tick that leaves `remaining > 0` only decrements `remaining`. It plays no sound. |
| `Pomodoro.TickEndsFocus` | app.js:207-227 | The tick that ends a focus session adds 1 to the session count and 25 to the minutes. It stops the timer and keeps the sound flag. It moves to a long break exactly when the new count is a multiple of 4, and to a short break otherwise, with that mode's full duration. It beeps exactly when sound is on. |
| `Pomodoro.TickEndsBreak` | app.js:207-230 | The tick that ends a break leaves the statistics and sound flag alone. It stops the timer and loads focus with 1500 seconds. |
| `Pomodoro.TogglesInvolutive` | app.js:249-269 | Toggling the timer, or toggling the sound, twice restores the state. Toggling once always changes it. |
| `Pomodoro.ResetIsSetModeToCurrent` | app.js:235-264 | Choosing the current mode is the same as a reset. Reset is idempotent. A second mode choice overrides the first. |
| `Pomodoro.RunCountsDown` | app.js:205-207 | While a running session has more than `n` seconds left, `n` interval firings only take `n` seconds off. |
| `Pomodoro.RunEndsSession` | app.js:205-239 | A running session with `r` seconds left ends after exactly `r` firings and stays stopped after that. Any longer run gives the state of its final tick. |
| `Pomodoro.FocusSessionCounted` | app.js:214-227 | A focus session that is started and left to run is counted exactly once, and the timer leaves focus mode. |
| `Pomodoro.Timer.constructor` | app.js:143-155 | The timer starts in the load state, and that state is valid. |
| `Pomodoro.Timer.SetPomoMode` | app.js:235-247 | Stops the timer, sets the mode, and loads that mode's full duration. Nothing else changes. It keeps the invariant. |
| `Pomodoro.Timer.Tick` | app.js:205-233 | Has the effect of `AfterTick` and keeps the invariant. It reports a beep exactly when the session ended with sound on. |
| `Pomodoro.Timer.TogglePomo` | app.js:249-257 | Flips only the running flag and keeps the invariant. |
| `Pomodoro.Timer.ResetPomo` | app.js:259-264 | Stops the timer and reloads the current mode's duration. Nothing else changes. |
| `Pomodoro.Timer.SwitchMode` | app.js:266-269 | Flips only the sound flag. |
| `AmbienceSelector.Next` | app.js:359 | The next index stays within `[0, n)`. |
| `AmbienceSelector.Advance` | app.js:357-361 | Any number of change presses keeps the index within `[0, n)`. |
| `AmbienceSelector.AfterPlay` | app.js:343-355 | The play handler flips the selected player's paused flag. When it starts that player, every other player is paused. When it stops it, the others keep their state. |
| `AmbienceSelector.AdvanceWraps` | app.js:357-361 | `k` presses of the change button move the selection to `(i + k) % n`. |
| `AmbienceSelector.ChangeVisitsAll` | app.js:357-361 | `n` presses return to the start, and every sound is reached within one round. |
| `AmbienceSelector.PlayLeavesAtMostOne` | app.js:343-355 | After the play handler at most one player plays. The selected one plays exactly when it had been paused, and every other player is paused. |
| `AmbienceSelector.Ambience.constructor` | app.js:300-314 | Every player starts paused, and the first sound is selected. |
| `AmbienceSelector.Ambience.StopAll` | app.js:333-341 | Afterwards every player is paused. |
| `AmbienceSelector.Ambience.PlayClicked` | app.js:343-355 | Has the effect of `AfterPlay` on the selected index and keeps "at most one playing". |
| `AmbienceSelector.Ambience.ChangeClicked` | app.js:357-361 | Pauses every player and advances the index cyclically, keeping it in range. |
| `Cards.AllCollapsed` | app.js:381-383 | `closeAllCards` leaves every card collapsed. |
| `Cards.AfterToggle` | app.js:385-396 | On mobile `toggleCard` flips the clicked card. On desktop it changes nothing. |
| `Cards.AfterCardClick` | app.js:399-411 | A card click changes nothing on desktop, or when it hit a control on a card that is already expanded. |
| `Cards.AfterDocumentClick` | app.js:414-421 | On mobile a click outside every card collapses all cards. Any other click changes nothing. |
| `Cards.AfterResize` | app.js:424-428 | A resize to desktop width collapses every card. A resize that stays mobile changes nothing. |
| `Cards.ToggleLeavesAtMostOne` | app.js:385-396 | On mobile, `toggleCard` flips the clicked card and leaves at most one card expanded. When it expands a card, that card is the only expanded one. On desktop it changes nothing. |
| `Cards.ToggleTwice` | app.js:385-396 | On mobile, toggling the same card twice restores the layout exactly when that card was expanded or no card was. |
| `Cards.EventsKeepAtMostOne` | app.js:398-428 | The card click, outside click and resize handlers all keep at most one card expanded. |
| `Cards.CardDeck.constructor` | app.js:375 | The deck holds the page's cards in document order, in their layout at load, which must have at most one card expanded. |
| `Cards.CardDeck.CloseAll` | app.js:381-383 | Afterwards every card is collapsed. |
| `Cards.CardDeck.ToggleCard` | app.js:385-396 | Has the effect of `AfterToggle` and keeps at most one card expanded. |
| `Cards.CardDeck.CardClicked` | app.js:399-411 | On mobile it toggles the card, unless the click hit a control on an already expanded card. On desktop it does nothing. |
| `Cards.CardDeck.DocumentClicked` | app.js:414-421 | On mobile, a click outside every card collapses all cards. Otherwise nothing changes. |
| `Cards.CardDeck.Resized` | app.js:424-428 | A resize to a desktop width collapses all cards. |

## Left out

- Radio playback (`togglePlayback`, the media event listeners, Web Audio setup, the visualizer, the space-bar shortcut). These are browser media I/O, promises and floating point.
- Volume sliders and the radio mute button. They handle floating-point volumes read from inputs.
- The ambience players' `currentTime = 0` rewind. The playback position is a floating-point media clock, so only the paused flag of each player is modelled.
- `setInterval`/`clearInterval`. They become the `running` flag, and the interval's firings become the function `Run`.
- `pomoSound.play()`. It becomes the `beep` result of `Timer.Tick`.
- Rendering: `renderPomo`, `updatePomoStats`, `updateAmbienceUI`, `updateProfileUI`, and the active-class toggling of the mode buttons.
- The login and register buttons. They only log to the console.
- Mode names read from `data-mode` attributes. The model only takes the three modes the timer defines; a name outside them would make `DURATIONS[mode]` undefined, and that is not modelled.
- `formatTime` on negative or fractional seconds. The timer only shows whole positive seconds.
- `isMobile()` reads the window width, so it is a boolean parameter. Whether a click hit a control or a card (`closest(...)`) is a boolean parameter too.
- Cards.CardDeck.constructor: the page's markup decides which cards are expanded at load. The model takes that layout as a parameter and assumes it has at most one expanded card.
- AmbienceSelector.AfterPlay: `player.play()` (app.js:349) is taken to succeed. A refused play (a rejected promise) leaves the player paused, and the model does not capture that.
