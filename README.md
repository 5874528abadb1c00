# Memory game core in Dafny

A model of the logic of a browser pairs ("memory") game, all of which lives in
`script.js`: twelve cards (six faces, `carte1.png` to `carte6.png`, each twice)
are shuffled and shown face down; the player turns two cards per turn; a pair is
kept face up and greeted with an alert, a mismatch is turned back after a pause,
and once every card is found a "game over" alert is shown and the game restarts.

- `shuffle.dfy`, module `Shuffle`: `shuffleArray`, 100 rounds of "remove the
  element at a random index of the working copy and push it at the end". The
  random indexes are the parameter `draws`; JavaScript's `undefined` is the
  parameter `undefined`. The result is specified by the function `Shuffled`;
  on a non-empty input it is a permutation of the input, on an empty input it is
  `[undefined]` (the first round pushes the `undefined` read past the end).
- `cards.dfy`, module `Cards`: the deck that `_getCardImageSources` builds and
  the facts the game's invariant needs: every face occurs twice, a matched pair
  never contains a found card, and a list of distinct cards has as many entries
  as the deck exactly when it holds every card.
- `memory_game.dfy`, module `Game`: class `MemoryGame` with the fields the
  source mutates (`cardImageSources`, the found list, the pending first card, the
  click lock), the card elements as an array of `Back | Face(src)`, the two
  `setTimeout` callbacks as scheduled fields (`scheduledTurnEnd` carries the
  second card; `scheduledWinReset`) fired by the methods `TurnEndTimeout` and
  `WinResetTimeout`, and the `alert` messages as a log. `Valid()` is the
  invariant, established by `ResetGame` and `WinResetTimeout` and kept by
  `CardClickedEvent` and `TurnEndTimeout`: twelve cards each face twice, the found list
  without duplicates, inside the deck and closed under "same face", every face-up
  card pending, found or awaiting resolution, and one of three phases (open,
  one turn awaiting its callback, won and awaiting the reset).

The source's quirks are kept: the two tests of `_cardClickedEvent`
(script.js:114 and script.js:120) are sequential; the test
`firstFlippedCardIndex !== -1` always passes; the first click of a turn is not
checked against the found list, so a found card can become the pending card and,
after a mismatch, be turned face down again while it stays in the found list.

The found cards are a list that is only ever pushed to. The turn-end callback
reads the pending card when it fires. The callbacks carry no guard against a reset.
`shuffleArray` on an empty array returns a one-element array holding
`undefined`.

## Model

| member | source | states |
|---|---|---|
| Shuffle.ShuffleArray | script.js:6-19 | the rounds played on a copy of the input give `Shuffled(items, draws)`; for a non-empty input the result has the input's length and multiset; for an empty input it is `[undefined]` |
| Shuffle.DrawIsPermutation | script.js:12-15 | one round with an index inside the copy keeps length and multiset and puts the drawn element last |
| Shuffle.ShuffledIsPermutation | script.js:11-16 | any number of rounds whose indexes fall inside a non-empty input keep its length and its multiset |
| Shuffle.ShuffledEmpty | script.js:7-16 | rounds on an empty input, each drawing index 0, leave exactly `[undefined]` |
| Cards.CardImageSourceInjective | script.js:58-60 | the names `carte${i}.png` of different one-digit faces differ |
| Cards.DoubledListEachTwice | script.js:61 | a list without duplicates followed by itself holds every value exactly twice |
| Cards.CardImageSourcesPaired | script.js:56-63 | the list has 12 entries, face `k % 6 + 1` at index `k`, and each face exactly twice |
| Cards.PermutationKeepsPairs | script.js:40-41 | shuffling a deck whose faces occur twice gives a deck whose faces occur twice |
| Cards.NoThreeAlike | script.js:61 | in such a deck no three cards share a face |
| Cards.MatchExtendsFound | script.js:148-150 | when the second card of a matching pair is not found, the first is not found either, and pushing both keeps the found list free of duplicates, inside the deck and closed under "same face" |
| Cards.AllFoundIffFull | script.js:153-155 | a duplicate-free list of cards of the deck is as long as the deck exactly when it holds every card |
| Game.MemoryGame.constructor | script.js:31 | the card elements exist (twelve, face down) and no callback is pending, no alert shown |
| Game.MemoryGame.ResetGame | script.js:36-49 | the deck is the shuffle of the twelve images (same multiset), every card face down, found list empty, no pending card, clicks allowed, invariant established |
| Game.MemoryGame.GetCardImageSources | script.js:56-63 | returns `carte1.png`..`carte6.png` twice over, 12 entries, each face exactly twice |
| Game.MemoryGame.ResetAllCardsImageSource | script.js:69-73 | every card element shows the back image |
| Game.MemoryGame.ResetCardElement | script.js:80-83 | the given card shows the back image, every other card is unchanged |
| Game.MemoryGame.IsCardFlipped | script.js:179-191 | in a valid game a card that is neither pending nor found, nor the second card of a turn being resolved, shows its back |
| Game.MemoryGame.CardClickedEvent | script.js:105-131 | locked, or a second click on the pending or a found card: nothing changes; no pending card: that card (found or not) is shown and becomes pending, input stays open; another card neither pending nor found: it is shown, input locked, one turn end scheduled for it; the invariant is kept |
| Game.MemoryGame.TurnEndTimeout | script.js:126-129 | resolves the scheduled turn on the pending card, read at firing time, and the carried second card, as `TurnEnded` does: match: both cards pushed; all found: input stays locked, pending card kept, win scheduled, no alert; otherwise one "well played" alert, pending cleared, input open; mismatch: both cards face down, found list kept, pending cleared, input open; win scheduled iff every card found |
| Game.MemoryGame.TurnEnded | script.js:142-171 | match: both cards pushed (the first was not found); all found: input stays locked, pending card kept, win scheduled, no alert; otherwise one "well played" alert, pending cleared, input open; mismatch: both cards face down, nothing else shown changes, found list kept, pending cleared, input open; win scheduled iff every card found |
| Game.MemoryGame.WinResetTimeout | script.js:156-159 | the "game over" alert is logged, then the game is reset as by `ResetGame`: the deck is the shuffle of the twelve images, every card face down, nothing found or pending, input open |

## Left out

- The page itself: `document.getElementById`, `getElementsByClassName`, the unused `scoreDivElement` and image loading. A card element is an abstract `Back | Face(src)`, where `Back` stands for `doscarte.png`. The page is taken to hold exactly twelve card elements, one per card of the deck; the HTML is not part of this model.
- `_addCardClickEventListeners` (script.js:90-98): event wiring. Its effect is that a click event carries an index of an existing card, which is `CardClickedEvent`'s precondition. Listeners accumulate across resets; the second handler of a click then meets either the lock or a card already flipped, so it changes nothing.
- `Math.random` and the distribution of the shuffle: the indexes are the parameter `draws`. The bias of the 100-round scheme is not modelled.
- Real time and the asynchrony of `setTimeout`: each pause is a scheduled field and a method the environment calls; the 1000 ms delay is not modelled.
- `alert`'s blocking dialog: only the ordered log of messages is kept.
- The top-level `new MemoryGame()` and first `resetGame()` (script.js:195-196).
- Game.MemoryGame.ResetGame: requires that no callback is pending. The source calls it only at start-up and from the win callback, where none is; what a stale callback would do after a reset from elsewhere is not modelled.
- Shuffle.ShuffleArray: the input is taken as a value (`seq`), so "the input array is not modified" holds by construction rather than being proved about an array in place.
