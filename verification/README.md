# Blackjack rules engine in Dafny

A model of the rules core of Blackjack-Pixi, a single-player browser blackjack
game, with proofs about it. There are three parts:

- **The deck** (`card_deck.dfy`, module `Decks`). It models the `suits` and
  `values` tables and the `Deck` class. `reset` rebuilds 4 × 13 cards in nested
  loops and then shuffles them. `shuffle` is Fisher–Yates. `draw` pops the last
  card, or gives nothing on an empty deck. `count` is the number of cards left.
  The deck's card array is a `seq<Card>` field that the methods reassign, and
  its end is the top of the deck.
- **The game model** (`game_model.dfy`, module `Model`). `GameModel` has the
  same fields as the source: bankroll, bet, the two hands, the dealer's
  face-down card and the deck. It has `resetHands` and `calculateHandValue`.
  The hand value is a pure function, `HandValue`. The method
  `CalculateHandValue` keeps the source's two loops and is proved equal to
  that function. Lemmas then say what the value means: it is the best total
  when each ace counts 11 or 1, and it does not depend on card order.
- **The round state machine** (`game_controller.dfy`, module `Controller`).
  `GameController` models the handlers with the rendering calls removed. The
  visible buttons become a `phase` field. A handler's phase is its
  precondition, because the source only reaches a handler through its button.
  `Valid()` is the invariant every handler keeps:
  - money and bet are non-negative multiples of 10;
  - the deck holds part of the 52-card deck: only well-formed cards, none twice;
  - each phase has the bet and the hands its buttons assume.

## Model

| member | source | states |
|---|---|---|
| Decks.ScoreOf | src/objects/CardDeck.ts:4-18 | An ace scores 11, a ten or face card scores 10, and 2–9 score their face value. Every score is in 2..11. |
| Decks.FullDeckExactlyOnce | src/objects/CardDeck.ts:27-34 | The 52 cards the two loops push contain each (suit, rank) pair exactly once, with the table score, and nothing else. |
| Decks.ValidDeckIsPartOfFullDeck | src/objects/CardDeck.ts:27-48 | The deck invariant, which reset, shuffle and draw keep, makes the deck a sub-multiset of the 52-card deck: every card in it is well-formed and appears once. |
| Decks.Deck.constructor | src/objects/CardDeck.ts:23-25 | A new deck holds the full 52 cards, in some shuffled order. |
| Decks.Deck.Reset | src/objects/CardDeck.ts:27-37 | After `reset` there are exactly 52 cards, and as a multiset they are the full deck. |
| Decks.Deck.Shuffle | src/objects/CardDeck.ts:39-44 | For every choice of swap index j in [0, i], the shuffle keeps the length and the multiset of cards (a permutation), and a deck without repeats stays without repeats. |
| Decks.Deck.Draw | src/objects/CardDeck.ts:46-48 | On an empty deck, it returns None and the deck stays empty. Otherwise it returns the last card, leaves the old prefix and drops the count by one. |
| Decks.Deck.Count | src/objects/CardDeck.ts:50-52 | It is the number of cards left, which is between 0 and 52. |
| Decks.PoppedConserves | src/objects/CardDeck.ts:46-48 | The cards popped off a deck plus the cards left are the deck before; no card is lost or duplicated. |
| Decks.DrawUntilEmpty | src/objects/CardDeck.ts:46-52 | Drawing `count` times returns the cards top first (the deck reversed), and the next draw returns None. |
| Decks.DrawAfterReset | src/objects/CardDeck.ts:27-48 | After `reset`, 52 draws return every card exactly once, and the 53rd returns None. |
| Decks.CountsOfShuffled | src/objects/CardDeck.ts:27-48 | Any order of the full deck, drawn to the end, yields each well-formed card exactly once. |
| Model.SoftenSpec | src/mvc/GameModel.ts:26-29 | The ace loop takes 10 off the total at most once per ace. It changes nothing at 21 or below. It stops above 21 only when every ace is low. It lowers an ace only when the total is still over 21. |
| Model.HandValueCandidates | src/mvc/GameModel.ts:19-31 | The value is sum − 10k for some 0 ≤ k ≤ aces. It is the raw sum when that is ≤ 21, and sum − 10·aces when the value is > 21. |
| Model.HandValueIsBest | src/mvc/GameModel.ts:19-31 | If any choice of aces as 1 gives a total ≤ 21, the value is ≤ 21 and at least that total. |
| Model.HandValueOrderFree | src/mvc/GameModel.ts:22-25 | Two hands with the same multiset of cards have the same value. |
| Model.TwoCardsDoNotBust | src/mvc/GameModel.ts:19-31 | Any two cards from the deck are worth at most 21; an ace pair counts 11 + 1. |
| Model.HandValueExamples | src/mvc/GameModel.ts:19-31 | {A, 9} is worth 20 and {A, 9, 5} is worth 15. |
| Model.GameModel.constructor | src/mvc/GameModel.ts:5-11 | A new model has a full 52-card deck, money 100, bet 0, empty hands and no face-down card. |
| Model.GameModel.ResetHands | src/mvc/GameModel.ts:13-17 | It empties both hands and the face-down card. Money and bet are unchanged, and the deck is not in its frame. |
| Model.GameModel.CalculateHandValue | src/mvc/GameModel.ts:19-31 | The sum-and-count loop followed by the ace loop returns exactly `HandValue(hand)`. |
| Controller.DealKeepsEveryCard | src/mvc/GameController.ts:59-66 | After the opening deal from a full shuffled deck, the four dealt cards plus the rest of the deck are still the whole deck. |
| Controller.GameController.constructor | src/mvc/GameController.ts:5-7 | A new game has money 100, bet 0, nothing dealt and phase Betting, and satisfies the invariant. |
| Controller.GameController.ResetFullGame | src/mvc/GameController.ts:28-32 | Reached only from Bankrupt, the one phase that shows the reset button. Money is 100 again, the bet is 0, the hands are empty, the deck is the full 52-card deck again and the phase is Betting. |
| Controller.GameController.PlaceBet | src/mvc/GameController.ts:34-46 | Money + bet is conserved. With money ≥ 10, exactly 10 moves to the bet and "Start Game" appears. Otherwise nothing changes. |
| Controller.GameController.StartGame | src/mvc/GameController.ts:48-71 | With bet 0, nothing changes. Otherwise the cards come off the shuffled full deck in the order dealer up card, face-down card, player, player. That leaves a 1-card dealer hand, a face-down card, a 2-card player hand that has not busted, and 48 cards in a deck that with the dealt cards is the full deck. Phase becomes PlayerTurn. |
| Controller.GameController.Deal | src/mvc/GameController.ts:59-66 | It resets the deck and hands and pops four cards in deal order, without touching money or bet. |
| Controller.DrawFour | src/mvc/GameController.ts:62-66 | The four `draw()!` calls on a deck of at least four cards return its top four cards, top first. None of them is missing, and all are well-formed. |
| Controller.GameController.Hit | src/mvc/GameController.ts:73-94 | On an empty deck nothing changes. Otherwise the top card is appended to the player's hand. On a bust the face-down card is revealed, the bet becomes 0 and money is unchanged. |
| Controller.GameController.Stick | src/mvc/GameController.ts:96-127 | It reveals the face-down card, and the dealer draws from the top only while below 17. The dealer ends at ≥ 17 or with an empty deck. Money gains 2·bet on a win (dealer > 21 or player > dealer), bet on a push and 0 on a loss. The bet ends at 0. |
| Controller.GameController.DealerPlays | src/mvc/GameController.ts:100-108 | The dealer loop only appends the deck's top cards, and every hand it drew on was below 17. It stops at ≥ 17 or with an empty deck, and returns the final value. |
| Controller.DealerStep | src/mvc/GameController.ts:102-106 | One pass of the dealer loop on a hand below 17 keeps the loop's invariant: the old hand is a prefix, the new cards came off the top in order, and every earlier hand was below 17. |
| Controller.GameController.PayOut | src/mvc/GameController.ts:111-119 | The outcome is a win when the dealer busts or the player is higher, a loss when lower, and a push otherwise. The bankroll gains 2·bet, 0 or bet accordingly. |
| Controller.GameController.PlayAgain | src/mvc/GameController.ts:129-131 | Hands are empty, the deck is the full 52-card deck again, bet is 0, money is unchanged and the phase is Betting. |
| Controller.GameController.RevealDealerCard | src/mvc/GameController.ts:133-139 | The face-down card goes to the end of the dealer's hand and the slot is cleared. With the slot empty, nothing changes, so a second call has no effect. |
| Controller.GameController.EndRound | src/mvc/GameController.ts:141-152 | Money ≤ 0 leaves only the reset button (Bankrupt). Otherwise "Play Again" shows (RoundOver). |
| Controller.GameController.MewRound | src/mvc/GameController.ts:154-168 | Hands are empty, the deck is rebuilt as the full 52-card deck (every card once), bet is 0, money is unchanged and the phase is Betting. |
| Controller.OpeningDeal | src/mvc/GameController.ts:34-66 | From a new game, one bet and the deal leave 90 in the bank, 10 staked, two player cards, one dealer card up and one down, and 48 cards in the deck. |

## Left out

- Rendering and wiring are not modelled: `GameView`, the sprites, the buttons, `main.ts`, `init`, `updateTexts` and every `this.view.*` call. Only the button visibility is kept, as `phase`.
- The status strings become `Info` tags. The dollar amounts written into them are not modelled. A settled round keeps its outcome and both hand values.
- `Math.random` in the shuffle becomes an arbitrary index j in [0, i]. Uniformity of the shuffle is a probabilistic claim and is not stated.
- Decks.Deck.Shuffle: states only that the result is a permutation. The exact swap sequence is not stated, because it depends on the random choices.
- The card array is a sequence field rather than an in-place array. The array is private to the deck, so it has no aliases to lose. The swaps become sequence updates and `push`/`pop` become appends and prefixes.
- Card suits and values are datatype constructors rather than the symbols '♠' … and 'A' … 'K'.
- JavaScript numbers become unbounded integers. All amounts are small multiples of 10, so no rounding or overflow arises.
- There are no runtime checks for invalid transitions, because the source has none. A handler's phase is its precondition. `startGame` is also admitted in phase Betting, so its `bet == 0` branch can be reached.
- `hit` on an empty deck only reports it. The bet is not forfeited and the round goes on.
- `Deal` and `DrawFour` (the deal in `startGame`), `DealerPlays` (the loop in `stick`) and `PayOut` (the settlement in `stick`) are parts of those handlers, split out as separate methods. They add no behaviour.
- The `resetGameButton` and `onResetGame` that `GameController.ts` uses are not declared in the view file of this snapshot. The model follows the controller: the Bankrupt phase offers only the full reset.
