# Memory game rules engine, modelled in Dafny

This project models the `MemoryGame` object of a browser memory card game
(`script.js`). The game has eight images, with two cards per image. The deck is
built and shuffled with Fisher–Yates. A player turns cards two at a time:
matching cards become a matched pair, and mismatched cards are turned back
after a one-second delay. One move is counted per pair of cards turned. The
game is won when every image is matched. A 100 ms timer keeps the elapsed
time, and the game can be saved to and loaded from browser storage.

Modules:

- `Wrappers`: `Option`, used for the nullable start time and for a storage slot that may be empty.
- `Deck`: the `Card` record and `FreshDeck`, the unshuffled deck. It also holds `CreateCards` and `ShuffleInPlace`: the pair-building loop fills an array, and the in-place Fisher–Yates loop shuffles it. `Shuffled` is the functional meaning of that loop, and the lemmas show it is a permutation.
- `Board`: matched pairs, the board invariant `Consistent`, and the counting arguments behind the win test. No image is on a third card. There are never more pairs than images. When there are as many pairs as images, every slot is in a pair.
- `Clock`: the tick rule `ElapsedAt`, including JavaScript's `now - null`. It also has the start time a save records, with JavaScript truthiness, and `formatTime` together with a proof that its `MM:SS` text reads back.
- `Game`: the class `MemoryGame`. Its fields are `cards`, `flippedCards`, `matchedPairs`, `moves`, `gameStarted`, `gameWon`, `startTime` and `elapsedTime`. Two more fields stand for browser state:
  - `timerRunning` stands for `timerInterval !== null`;
  - `pendingClears` counts the mismatch timeouts that are scheduled and have not run yet.

  `Valid()` is the object invariant. The class methods model the source's own methods, with three additions. `LoadGameAsWritten` is `loadGame` as the code has it. `LoadGame` is the corrected `loadGame` described under "## Findings". `SaveThenLoad` is a proof method that runs `saveGame` and then `loadGame` as written. The `Snapshot` record is what `saveGame` stores.

The browser's inputs are parameters:

- `draws` are the values `Math.random()` returns, in call order. Each is a real in `[0, 1)`, and the swap partner of position `i` is `Floor(draw * (i + 1))`. `Picks` turns the draws into these partners, and the functional shuffle `Shuffled` is stated over the partners.
- `now` is `Date.now()`.
- The stored game is an `Option<Snapshot>`.
- The 100 ms interval body is the method `Tick(now)`.
- The body of the 1 s mismatch timeout is the method `ResolveMismatch()`.

Behaviour of the code a reader might not expect; the model follows the code:

- `loadGame` copies the stored fields without checking them. The model does the same. `ConsistentSnapshot` states which snapshots give a valid game, and `LoadGame` proves `Valid() <==> ConsistentSnapshot(...)`. There is no "corrupt snapshot" error.
- `handleCardClick` has no range check on the slot index, because clicks come only from rendered slots. The model therefore requires `0 <= cardIndex < |cards|`.
- A click on a won game calls `startGame` again, so `gameStarted` becomes true and a timer is registered. The elapsed time still does not move, because the tick also tests `!gameWon`.
- The mismatch timeout clears `flippedCards` whatever happened in the meantime, even if the game was reset or loaded during the delay.

## Model

| member | source | states |
|---|---|---|
| `Deck.FreshDeck` | script.js:48-55 | The unshuffled deck has 2 × \|images\| cards. Position i holds the card with id i, image number i div 2, and `matched = false`, so image k is on the cards with ids 2k and 2k+1. |
| `Deck.FreshDeckOccurrences` | script.js:48-55 | In the unshuffled deck, each image is on exactly two cards for each time it is listed, and on no card if it is not listed. |
| `Deck.Pick` | script.js:59 | `Math.floor(Math.random() * (i + 1))` is a position between 0 and i. |
| `Deck.Picks` | script.js:58-59 | The partners picked from the draws fit the loop: there is one per turn, and the partner of counter i is at most i. |
| `Deck.SwapPreserves` | script.js:60 | Swapping two positions keeps the multiset of cards and the count of every image. |
| `Deck.ShufflePreserves` | script.js:58-61 | The whole shuffle loop gives a permutation of its input: same length, same multiset, same count of every image. |
| `Deck.ShuffleInPlace` | script.js:58-61 | The in-place loop, run from the last position down to 1, leaves the array equal to `Shuffled` of its old contents under the partners picked from the draws. |
| `Deck.ShuffledDeck` | script.js:48-61 | The shuffled fresh deck has 2 × \|images\| cards, is a permutation of the fresh deck, has every image on exactly two cards, and has no matched card. |
| `Deck.CreateCards` | script.js:48-64 | The deck returned is the shuffle of the fresh deck. It has 2 × \|images\| cards, it is a permutation of the fresh deck, every image is on exactly two cards, and no card is matched. |
| `Board.CardImageListed` | script.js:48-55 | Every card of a well-formed deck shows one of the game's images. |
| `Board.OnlyTwo` | script.js:48-55 | No image is on a third card: a card showing the same image as two different slots is one of them. |
| `Board.MatchBound` | script.js:146-156 | There are never more matched pairs than images. When there are as many, every image has been matched. |
| `Board.AllSlotsMatched` | script.js:154-155 | When the pair count reaches the image count, every slot of the board is in a matched pair. |
| `Board.UnmatchedSlotLeavesRoom` | script.js:146-156 | A slot that is in no pair shows an image that no pair has matched, and fewer pairs than images have been found. |
| `Board.AddPair` | script.js:146-151 | Recording a pair of two unmatched slots that show the same image keeps every pair well formed and the matched images distinct, and the pair count stays at most the image count. |
| `Board.WonIffEveryImageMatched` | script.js:154-155 | On a consistent board the game is won exactly when every image is the image of some matched pair. |
| `Clock.SavedStartTime` | script.js:227 | The saved start time is null when the start time is falsy (null or 0). Otherwise, resuming the clock from it gives the saved elapsed time plus the time since the save. |
| `Clock.NatToStringDigits` | script.js:206 | `toString` of a non-negative number is a non-empty string of digits whose value is the number, at most two digits below 100. |
| `Clock.PaddedNumber` | script.js:206 | `padStart(2, '0')` keeps the digits' value and gives at least two digits, exactly two below 100. |
| `Clock.FormatTimeReadsBack` | script.js:202-206 | For a non-negative duration, the text is the minutes (seconds div 60), a colon, then two digits holding the remaining seconds (seconds mod 60, below 60). Below 100 minutes it is exactly `MM:SS`. |
| `Game.CardImagesOk` | script.js:3-12 | The game's eight image paths are pairwise distinct. |
| `Game.MemoryGame.constructor` | script.js:2-27 | A new game has the eight images and a 16-card deck that is the shuffle of the fresh deck (ids 2k and 2k+1 for image k, none matched), nothing turned or matched, zero moves, not started, not won, no start time, zero elapsed time, and no timer. |
| `Game.MemoryGame.InitializeGame` | script.js:66-79 | Reset installs the shuffled fresh deck and sets flipped, pairs, moves, flags, start time and elapsed time back to empty, 0, false or null. It removes the timer, leaves scheduled clears alone, and gives a valid game. |
| `Game.MemoryGame.StartGame` | script.js:167-171 | Starting sets `gameStarted`, records `now` as the start time and registers the tick. Because it is called only on a game that is not started, and such a game has no timer, no second interval is ever registered. |
| `Game.MemoryGame.EndGame` | script.js:189-194 | Ending sets `gameWon`, clears `gameStarted` and removes the timer. Nothing else changes. |
| `Game.MemoryGame.HandleCardClick` | script.js:102-124 | The first click starts the game. A click rejected by the guard (two cards up, the slot already up, or the slot in a pair) changes nothing else. After a win every click is rejected. An accepted click appends the slot. Exactly the second card of a turn adds one move and is resolved as a match or a pending mismatch. The invariant is kept, so never more than two cards are up. |
| `Game.MemoryGame.CheckMatch` | script.js:141-165 | Equal images append `[first, second]` to the pairs and empty the face-up list. The game is won exactly when the pair count reaches the image count, and ending stops the game and the timer. Different images leave both slots up and schedule one clear. |
| `Game.MemoryGame.ResolveMismatch` | script.js:159-163 | The deferred clear empties the face-up list and changes nothing else. It keeps the invariant. |
| `Game.MemoryGame.Tick` | script.js:174-179 | The tick sets the elapsed time to `now - startTime` only while the game is started and not won. Otherwise it leaves it unchanged, so the time is frozen after a win. |
| `Game.MemoryGame.SaveGame` | script.js:218-228 | The snapshot holds the current deck, face-up slots, pairs, moves, flags and elapsed time. Its start time resumes the clock at the saved elapsed time. A valid game gives a consistent snapshot. |
| `Game.MemoryGame.LoadGameAsWritten` | script.js:236-270 | With no stored game nothing changes. Otherwise every field is copied from the snapshot, the timer runs exactly when the game is started and not won, and no clear is scheduled. The result is valid exactly when the snapshot is consistent and a restored pending mismatch still has a clear pending. |
| `Game.MemoryGame.LoadGame` | script.js:236-270 | Like `LoadGameAsWritten`, except that a restored pending mismatch gets one clear scheduled when none is pending on the page. A clear that is already pending turns the restored cards back, so none is added. Loading gives a valid game exactly when the snapshot is consistent. |
| `Game.MemoryGame.SaveThenLoad` | script.js:218-270 | Saving and then loading with `loadGame` as written, on the same page, gives back the same deck, face-up slots, pairs, moves, flags and elapsed time. The game stays valid. The timer runs iff the game is started and not won. The resumed clock continues from the saved elapsed time. The scheduled clears are exactly those pending before. |
| `Game.ReloadDuringMismatch` | script.js:243-269 | A game saved with two mismatched cards up and loaded into a newly opened page keeps both cards up with no clear pending and the game is not valid. The rejection is shown through the click guard `CanFlip`: it is false for every slot, so `handleCardClick` returns at its guard for any click. |
| `Game.ReloadDuringMismatchRepaired` | script.js:243-269 | The same reload with the repaired load: the game is valid, and once the scheduled clear runs, every slot that is not in a pair can be turned again. |

## Findings

| source | as written | input that shows it | evidently intended | confidence | as-written member | corrected member |
|---|---|---|---|---|---|---|
| script.js:243-269 | `loadGame` restores `flippedCards` verbatim but schedules no timeout to turn a restored mismatched pair back. Only `checkMatch` (script.js:159) does that. | Turn two cards with different images, save within the following second, reload the page, then load. `flippedCards` has two entries and no clear is pending, so `flippedCards.length >= 2` rejects every click until the game is reset. | A restored pending mismatch is turned back like any other, so the loaded game stays playable. | high (proved on the model, not executed) | `Game.MemoryGame.LoadGameAsWritten`, shown by `Game.ReloadDuringMismatch` | `Game.MemoryGame.LoadGame`, used by `Game.ReloadDuringMismatchRepaired` |

## Left out

- Rendering and input binding: `initializeElements`, `renderCards`, `flipCard`, `unflipCard`, `markAsMatched`, `updateDisplay`, `updateTimer`, `showVictoryModal`, `bindEvents`, `closeModal` and `window.onclick`. They change the page and, with one exception given below for loading, no game state. The end-of-game message's time text is `FormatTime`.
- `checkForSavedGame`: it only enables the load button.
- `Game.MemoryGame.LoadGameAsWritten`, `Game.MemoryGame.LoadGame` and `Game.MemoryGame.ResolveMismatch`: do not model the exception paths of a stored snapshot whose face-up or paired index has no slot on the board. In the code, `flipCard` then finds no element and throws (script.js:127-128, reached from script.js:259 or 262), so the timer restart at script.js:267-269 never runs and the timer stays cleared. The model completes the load and starts the timer whenever the game is started and not won. In the same way, a load during the 1 s mismatch window can render a board with no slot for the pending `firstIndex` or `secondIndex`. `unflipCard` then throws (script.js:131-132, reached from script.js:160-161), and `this.flippedCards = []` (script.js:162) never runs. `ResolveMismatch` always empties the face-up list. The game never saves such a snapshot itself, and every consistent snapshot has all its indices on the board.
- `localStorage`, `JSON.stringify`/`JSON.parse` and `alert`: storage is the `Option<Snapshot>` passed to `LoadGame`. The JSON round trip is taken to return the same values.
- `setInterval`, `setTimeout` and `clearInterval`: the callbacks are the explicit steps `Tick` and `ResolveMismatch`. The interval handle is the flag `timerRunning`, and the scheduled timeouts are the counter `pendingClears`. How often and when the callbacks fire is not modelled.
- `Math.random` and `Date.now`: they are the parameters `draws` and `now`. The shuffle's uniform distribution is a probabilistic property and is not stated.
- `Deck.Pick`: draws are exact reals and the product `draw * (i + 1)` is not rounded to a double. In JavaScript `0.3333333333333333 * 3` is `1`, so `Math.floor` can pick a partner one higher than the model's. Every partner still lies in 0..i, which is all the shuffle's properties rely on.
- `Game.MemoryGame.Tick`: does not state that the elapsed time never decreases, because `Date.now()` may go backwards and the source does not guard against it.
- `Clock.FormatTimeReadsBack`: covers non-negative durations only. `FormatTime` itself follows JavaScript for negative ones too (floor division, truncating `%`, a leading `-`).
- `Card.matched`: the source never sets it after building the deck, so the model never changes it either. Matching is recorded only in `matchedPairs`.
- Fractional milliseconds: times are whole numbers, as `Date.now()` returns them.
