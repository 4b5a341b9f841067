/*
 * The round state machine of the game (src/mvc/GameController.ts): betting,
 * dealing, the player's hits, the dealer's play and the payout, with the
 * rendering calls left out and the visible buttons reduced to a phase.
 */
module Controller {
  import opened Decks
  import opened Model

  /** The fixed stake one press of "Bet $10" adds. */
  const BetUnit: int := 10

  /** The dealer draws while the dealer's value is below this. */
  const DealerStandsOn: int := 17

  /**
   * The phase of a round, read off which buttons are visible: only "Bet"
   * (Betting), "Bet" and "Start Game" (ReadyToStart), "Hit" and "Stick"
   * (PlayerTurn), "Play Again" (RoundOver), or only the full reset (Bankrupt).
   */
  datatype Phase = Betting | ReadyToStart | PlayerTurn | RoundOver | Bankrupt

  datatype Outcome = Win | Loss | Push

  /** The status line a handler shows, reduced to what it reports. */
  datatype Info =
    | BetAccepted
    | NotEnoughMoney
    | PlaceBetFirst
    | YourTurn
    | DeckEmpty
    | DrewCard
    | Busted
    | Settled(outcome: Outcome, player: int, dealer: int)

  /** How a round that the player did not bust on is decided. */
  function Settle(player: int, dealer: int): (o: Outcome) {
    if dealer > Limit || player > dealer then Win
    else if player < dealer then Loss
    else Push
  }

  /** What the bankroll gets back at the end of a round: twice the stake on a win, the stake on a push. */
  function Payout(o: Outcome, bet: int): (amount: int) {
    match o
    case Win => 2 * bet
    case Push => bet
    case Loss => 0
  }

  /**
   * The opening deal from a full shuffled deck: the dealer's up card, the
   * face-down card and the player's two cards, with what is left in the deck,
   * are still the whole deck.
   */
  lemma DealKeepsEveryCard(shuffled: seq<Card>, rest: seq<Card>,
                            dealerHand: seq<Card>, down: Card, playerHand: seq<Card>)
    requires multiset(shuffled) == multiset(FullDeck())
    requires |dealerHand| == 1 && |playerHand| == 2
    requires Popped(shuffled, rest, [dealerHand[0], down, playerHand[0], playerHand[1]])
    ensures multiset(rest) + multiset(dealerHand) + multiset{down} + multiset(playerHand) == multiset(FullDeck())
  {
    var drawn := [dealerHand[0], down, playerHand[0], playerHand[1]];
    PoppedConserves(shuffled, rest, drawn);
    assert drawn == dealerHand + [down] + playerHand;
    assert multiset(drawn) == multiset(dealerHand) + multiset([down]) + multiset(playerHand);
  }

  /**
   * The four `draw()!` calls of the opening deal, on a deck that holds at
   * least four cards: they return the top four cards, top first.
   */
  method DrawFour(deck: Deck) returns (up: Card, down: Card, first: Card, second: Card)
    requires deck.Valid() && |deck.cards| >= 4
    modifies deck
    ensures deck.Valid()
    ensures Popped(old(deck.cards), deck.cards, [up, down, first, second])
    ensures WellFormed(up) && WellFormed(down) && WellFormed(first) && WellFormed(second)
  {
    ghost var start := deck.cards;
    ghost var rest := deck.cards;
    var c := deck.Draw();
    up := c.value;
    PoppedStep(start, rest, [], deck.cards, up);

    rest := deck.cards;
    c := deck.Draw();
    down := c.value;
    PoppedStep(start, rest, [up], deck.cards, down);

    rest := deck.cards;
    c := deck.Draw();
    first := c.value;
    PoppedStep(start, rest, [up, down], deck.cards, first);

    rest := deck.cards;
    c := deck.Draw();
    second := c.value;
    PoppedStep(start, rest, [up, down, first], deck.cards, second);
  }

  /**
   * The dealer's loop so far, on values: starting from `start` and the deck
   * `deckBefore`, the dealer has the hand `hand`, whose new cards came off the
   * top of the deck one by one, each drawn while the dealer was below 17; the
   * deck is now `deck`.
   */
  ghost predicate DealerDrew(start: seq<Card>, deckBefore: seq<Card>, hand: seq<Card>, deck: seq<Card>) {
    |start| <= |hand| && hand[..|start|] == start &&
    Popped(deckBefore, deck, hand[|start|..]) &&
    forall k :: |start| <= k < |hand| ==> HandValue(hand[..k]) < DealerStandsOn
  }

  /** One round of the dealer's loop: drawing `c` onto a hand below 17 keeps `DealerDrew`. */
  lemma DealerStep(start: seq<Card>, deckBefore: seq<Card>, hand: seq<Card>,
                   rest: seq<Card>, after: seq<Card>, c: Card)
    requires DealerDrew(start, deckBefore, hand, rest) && rest == after + [c]
    requires HandValue(hand) < DealerStandsOn
    ensures DealerDrew(start, deckBefore, hand + [c], after)
  {
    var next := hand + [c];
    assert next[..|hand|] == hand;
    assert next[|start|..] == hand[|start|..] + [c];
    PoppedStep(deckBefore, rest, hand[|start|..], after, c);
    forall k | |start| <= k < |next| ensures HandValue(next[..k]) < DealerStandsOn {
      if k < |hand| {
        assert next[..k] == hand[..k];
      }
    }
  }

  class GameController {
    const model: GameModel
    var phase: Phase

    ghost predicate NothingDealt()
      reads this, model, model.deck
    {
      model.playerHand == [] && model.dealerHand == [] && model.dealerFacedown == None &&
      |model.deck.cards| == DeckSize
    }

    ghost predicate RoundDealt()
      reads this, model
    {
      |model.playerHand| >= 2 && |model.dealerHand| >= 2 && model.dealerFacedown == None
    }

    /**
     * The model is valid (a deck of table cards, none twice; nothing
     * negative), the bankroll and the bet are whole numbers of stakes, and
     * each phase has the bet and the cards its buttons assume.
     */
    ghost predicate Valid()
      reads this, model, model.deck
    {
      model.Valid() &&
      model.playerMoney % BetUnit == 0 && model.currentBet % BetUnit == 0 &&
      match phase
      case Betting => model.currentBet == 0 && model.playerMoney > 0 && NothingDealt()
      case ReadyToStart => model.currentBet > 0 && NothingDealt()
      case PlayerTurn =>
        model.currentBet > 0 && |model.playerHand| >= 2 && |model.dealerHand| == 1 &&
        model.dealerFacedown.Some? && HandValue(model.playerHand) <= Limit
      case RoundOver => model.currentBet == 0 && model.playerMoney > 0 && RoundDealt()
      case Bankrupt => model.currentBet == 0 && model.playerMoney == 0 && RoundDealt()
    }

    /** A new game: 100 in the bank, no bet, nothing dealt, only "Bet" visible. */
    constructor ()
      ensures Valid() && phase == Betting
      ensures fresh(model) && fresh(model.deck)
      ensures model.playerMoney == StartingMoney && model.currentBet == 0
    {
      model := new GameModel();
      phase := Betting;
    }

    /** The reset button, shown only once the bankroll is gone: restores it to 100 and starts a new round. */
    method ResetFullGame()
      requires Valid() && phase == Bankrupt
      modifies this, model, model.deck
      ensures Valid() && phase == Betting
      ensures model.playerMoney == StartingMoney && model.currentBet == 0
      ensures model.playerHand == [] && model.dealerHand == [] && model.dealerFacedown == None
      ensures multiset(model.deck.cards) == multiset(FullDeck())
    {
      model.playerMoney := StartingMoney;
      MewRound();
    }

    /** Moves one stake from the bankroll to the bet, when the bankroll covers it. */
    method PlaceBet() returns (info: Info)
      requires Valid() && (phase == Betting || phase == ReadyToStart)
      modifies this, model
      ensures Valid()
      ensures model.playerMoney + model.currentBet == old(model.playerMoney + model.currentBet)
      ensures old(model.playerMoney) >= BetUnit ==>
        info == BetAccepted && phase == ReadyToStart &&
        model.playerMoney == old(model.playerMoney) - BetUnit
      ensures old(model.playerMoney) < BetUnit ==>
        info == NotEnoughMoney && phase == old(phase) && model.playerMoney == old(model.playerMoney)
      ensures old(phase) == Betting ==> info == BetAccepted
      ensures model.playerHand == old(model.playerHand) && model.dealerHand == old(model.dealerHand)
      ensures model.dealerFacedown == old(model.dealerFacedown)
    {
      if model.playerMoney >= BetUnit {
        model.playerMoney := model.playerMoney - BetUnit;
        model.currentBet := model.currentBet + BetUnit;
        info := BetAccepted;
        phase := ReadyToStart;
      } else {
        info := NotEnoughMoney;
      }
    }

    /**
     * With a bet placed: rebuilds and shuffles the deck, clears the hands and
     * deals the dealer's up card, the dealer's face-down card and then two
     * cards to the player, each from the top of the deck.
     */
    method StartGame() returns (info: Info, ghost shuffled: seq<Card>)
      requires Valid() && (phase == Betting || phase == ReadyToStart)
      modifies this, model, model.deck
      ensures Valid()
      ensures model.playerMoney == old(model.playerMoney) && model.currentBet == old(model.currentBet)
      ensures old(model.currentBet) == 0 ==>
        info == PlaceBetFirst && phase == old(phase) &&
        model.playerHand == old(model.playerHand) && model.dealerHand == old(model.dealerHand) &&
        model.dealerFacedown == old(model.dealerFacedown) &&
        model.deck.cards == old(model.deck.cards)
      ensures old(model.currentBet) != 0 ==>
        info == YourTurn && phase == PlayerTurn &&
        |shuffled| == DeckSize && multiset(shuffled) == multiset(FullDeck()) &&
        |model.dealerHand| == 1 && model.dealerFacedown.Some? && |model.playerHand| == 2 &&
        |model.deck.cards| == DeckSize - 4 &&
        Popped(shuffled, model.deck.cards,
               [model.dealerHand[0], model.dealerFacedown.value, model.playerHand[0], model.playerHand[1]]) &&
        multiset(model.deck.cards) + multiset(model.dealerHand) + multiset{model.dealerFacedown.value} +
          multiset(model.playerHand) == multiset(FullDeck())
    {
      if model.currentBet == 0 {
        info := PlaceBetFirst;
        shuffled := model.deck.cards;
        return;
      }
      phase := PlayerTurn;
      shuffled := Deal();
      info := YourTurn;
      assert model.playerHand == [model.playerHand[0], model.playerHand[1]];
      TwoCardsDoNotBust(model.playerHand[0], model.playerHand[1]);
      DealKeepsEveryCard(shuffled, model.deck.cards, model.dealerHand, model.dealerFacedown.value, model.playerHand);
    }

    /**
     * The deal of `startGame`: rebuilds and shuffles the deck, clears the
     * hands, then pops the dealer's up card, the dealer's face-down card and
     * the player's two cards. The cards on the table are the full deck again.
     */
    method Deal() returns (ghost shuffled: seq<Card>)
      modifies model, model.deck
      ensures model.playerMoney == old(model.playerMoney) && model.currentBet == old(model.currentBet)
      ensures model.deck.Valid() && |shuffled| == DeckSize && multiset(shuffled) == multiset(FullDeck())
      ensures |model.dealerHand| == 1 && model.dealerFacedown.Some? && |model.playerHand| == 2
      ensures Popped(shuffled, model.deck.cards,
                     [model.dealerHand[0], model.dealerFacedown.value, model.playerHand[0], model.playerHand[1]])
      ensures WellFormed(model.playerHand[0]) && WellFormed(model.playerHand[1])
    {
      model.deck.Reset();
      model.ResetHands();
      shuffled := model.deck.cards;
      var up, down, first, second := DrawFour(model.deck);
      model.dealerHand := model.dealerHand + [up];
      model.dealerFacedown := Some(down);
      model.playerHand := model.playerHand + [first];
      model.playerHand := model.playerHand + [second];
    }

    /**
     * Draws one card for the player. On an empty deck nothing changes. If the
     * new hand busts, the dealer's card is turned over, the bet is lost and the
     * round ends.
     */
    method Hit() returns (info: Info)
      requires Valid() && phase == PlayerTurn
      modifies this, model, model.deck
      ensures Valid()
      ensures model.playerMoney == old(model.playerMoney)
      ensures old(model.deck.cards) == [] ==>
        info == DeckEmpty && phase == PlayerTurn && model.deck.cards == [] &&
        model.playerHand == old(model.playerHand) && model.dealerHand == old(model.dealerHand) &&
        model.dealerFacedown == old(model.dealerFacedown) && model.currentBet == old(model.currentBet)
      ensures old(model.deck.cards) != [] ==>
        |model.playerHand| == |old(model.playerHand)| + 1 &&
        model.playerHand[..|old(model.playerHand)|] == old(model.playerHand) &&
        old(model.deck.cards) == model.deck.cards + [model.playerHand[|old(model.playerHand)|]]
      ensures old(model.deck.cards) != [] && HandValue(model.playerHand) > Limit ==>
        info == Busted && model.currentBet == 0 &&
        model.dealerHand == old(model.dealerHand) + [old(model.dealerFacedown).value] &&
        model.dealerFacedown == None &&
        phase == (if model.playerMoney <= 0 then Bankrupt else RoundOver)
      ensures old(model.deck.cards) != [] && HandValue(model.playerHand) <= Limit ==>
        info == DrewCard && phase == PlayerTurn && model.currentBet == old(model.currentBet) &&
        model.dealerHand == old(model.dealerHand) && model.dealerFacedown == old(model.dealerFacedown)
    {
      var card := model.deck.Draw();
      if card.None? {
        info := DeckEmpty;
        return;
      }
      model.playerHand := model.playerHand + [card.value];
      var playerValue := model.CalculateHandValue(model.playerHand);
      if playerValue > Limit {
        info := Busted;
        RevealDealerCard();
        model.currentBet := 0;
        EndRound();
      } else {
        info := DrewCard;
      }
    }

    /**
     * Turns the dealer's card over, lets the dealer draw while below 17 (and
     * while the deck lasts), then settles the bet: twice the stake back on a
     * win, the stake back on a push, nothing on a loss.
     */
    method Stick() returns (info: Info)
      requires Valid() && phase == PlayerTurn
      modifies this, model, model.deck
      ensures Valid() && model.currentBet == 0 && model.dealerFacedown == None
      ensures model.playerHand == old(model.playerHand)
      ensures |old(model.dealerHand)| + 1 <= |model.dealerHand|
      ensures model.dealerHand[..|old(model.dealerHand)| + 1] ==
              old(model.dealerHand) + [old(model.dealerFacedown).value]
      ensures Popped(old(model.deck.cards), model.deck.cards,
                     model.dealerHand[|old(model.dealerHand)| + 1..])
      ensures HandValue(model.dealerHand) >= DealerStandsOn || model.deck.cards == []
      ensures forall k :: |old(model.dealerHand)| + 1 <= k < |model.dealerHand| ==>
                HandValue(model.dealerHand[..k]) < DealerStandsOn
      ensures var player, dealer := HandValue(model.playerHand), HandValue(model.dealerHand);
        info == Settled(Settle(player, dealer), player, dealer) &&
        model.playerMoney == old(model.playerMoney) + Payout(Settle(player, dealer), old(model.currentBet))
      ensures phase == (if model.playerMoney <= 0 then Bankrupt else RoundOver)
    {
      RevealDealerCard();
      var playerValue := model.CalculateHandValue(model.playerHand);
      var dealerValue := DealerPlays();

      var outcome := PayOut(playerValue, dealerValue);
      info := Settled(outcome, playerValue, dealerValue);
      model.currentBet := 0;
      EndRound();
    }

    /**
     * The settlement inside `stick`: the player wins when the dealer busts or
     * the player is higher, loses when lower, and pushes on a tie. A win pays
     * twice the stake into the bankroll, a push gives the stake back.
     */
    method PayOut(playerValue: int, dealerValue: int) returns (outcome: Outcome)
      modifies model
      ensures outcome == Settle(playerValue, dealerValue)
      ensures model.playerMoney == old(model.playerMoney) + Payout(outcome, model.currentBet)
      ensures model.currentBet == old(model.currentBet)
      ensures model.playerHand == old(model.playerHand) && model.dealerHand == old(model.dealerHand)
      ensures model.dealerFacedown == old(model.dealerFacedown)
    {
      if dealerValue > Limit || playerValue > dealerValue {
        outcome := Win;
        model.playerMoney := model.playerMoney + model.currentBet * 2;
      } else if playerValue < dealerValue {
        outcome := Loss;
      } else {
        outcome := Push;
        model.playerMoney := model.playerMoney + model.currentBet;
      }
    }

    /**
     * The dealer's turn inside `stick`: from the value of the dealer's hand,
     * draw while it is below 17 and the deck lasts. Each card drawn is the
     * top of the deck, and the dealer drew only while below 17.
     */
    method DealerPlays() returns (dealerValue: int)
      requires model.deck.Valid()
      modifies model, model.deck
      ensures model.deck.Valid()
      ensures model.playerHand == old(model.playerHand) && model.dealerFacedown == old(model.dealerFacedown)
      ensures model.playerMoney == old(model.playerMoney) && model.currentBet == old(model.currentBet)
      ensures |old(model.dealerHand)| <= |model.dealerHand|
      ensures model.dealerHand[..|old(model.dealerHand)|] == old(model.dealerHand)
      ensures Popped(old(model.deck.cards), model.deck.cards, model.dealerHand[|old(model.dealerHand)|..])
      ensures dealerValue == HandValue(model.dealerHand)
      ensures dealerValue >= DealerStandsOn || model.deck.cards == []
      ensures forall k :: |old(model.dealerHand)| <= k < |model.dealerHand| ==>
                HandValue(model.dealerHand[..k]) < DealerStandsOn
    {
      ghost var start := model.dealerHand;
      ghost var deckBefore := model.deck.cards;
      dealerValue := model.CalculateHandValue(model.dealerHand);

      while dealerValue < DealerStandsOn
        invariant model.deck.Valid()
        invariant model.playerHand == old(model.playerHand) && model.dealerFacedown == old(model.dealerFacedown)
        invariant model.playerMoney == old(model.playerMoney) && model.currentBet == old(model.currentBet)
        invariant DealerDrew(start, deckBefore, model.dealerHand, model.deck.cards)
        invariant dealerValue == HandValue(model.dealerHand)
        decreases |model.deck.cards|
      {
        ghost var rest := model.deck.cards;
        ghost var hand := model.dealerHand;
        var card := model.deck.Draw();
        if card.None? {
          break;
        }
        model.dealerHand := model.dealerHand + [card.value];
        DealerStep(start, deckBefore, hand, rest, model.deck.cards, card.value);
        dealerValue := model.CalculateHandValue(model.dealerHand);
      }
    }

    /** Starts a new round; the bankroll is kept. */
    method PlayAgain()
      requires Valid() && phase == RoundOver
      modifies this, model, model.deck
      ensures Valid() && phase == Betting
      ensures model.playerMoney == old(model.playerMoney) && model.currentBet == 0
      ensures model.playerHand == [] && model.dealerHand == [] && model.dealerFacedown == None
      ensures multiset(model.deck.cards) == multiset(FullDeck())
    {
      MewRound();
    }

    /** Moves the face-down card, if any, to the end of the dealer's hand. */
    method RevealDealerCard()
      modifies model
      ensures model.dealerFacedown == None
      ensures old(model.dealerFacedown).Some? ==>
        model.dealerHand == old(model.dealerHand) + [old(model.dealerFacedown).value]
      ensures old(model.dealerFacedown) == None ==> model.dealerHand == old(model.dealerHand)
      ensures model.playerHand == old(model.playerHand)
      ensures model.playerMoney == old(model.playerMoney) && model.currentBet == old(model.currentBet)
    {
      if model.dealerFacedown.Some? {
        model.dealerHand := model.dealerHand + [model.dealerFacedown.value];
        model.dealerFacedown := None;
      }
    }

    /** Ends the round: a bankroll of zero leaves only the full reset. */
    method EndRound()
      modifies this
      ensures phase == (if model.playerMoney <= 0 then Bankrupt else RoundOver)
    {
      if model.playerMoney <= 0 {
        phase := Bankrupt;
      } else {
        phase := RoundOver;
      }
    }

    /** A new round (`mewRound`): clears the hands, rebuilds the deck, drops the bet. */
    method MewRound()
      requires model.deck.Valid() && model.playerMoney > 0 && model.playerMoney % BetUnit == 0
      modifies this, model, model.deck
      ensures Valid() && phase == Betting
      ensures model.playerMoney == old(model.playerMoney) && model.currentBet == 0
      ensures model.playerHand == [] && model.dealerHand == [] && model.dealerFacedown == None
      ensures |model.deck.cards| == DeckSize
      ensures multiset(model.deck.cards) == multiset(FullDeck())
    {
      model.ResetHands();
      model.deck.Reset();
      model.currentBet := 0;
      phase := Betting;
    }
  }

  /**
   * The opening of a game: a new game, one bet of 10, then the deal. The
   * player has 90 left, 10 staked, two cards, and the dealer one card up and
   * one down.
   */
  method OpeningDeal() returns (game: GameController)
    ensures game.Valid() && game.phase == PlayerTurn
    ensures game.model.playerMoney == StartingMoney - BetUnit && game.model.currentBet == BetUnit
    ensures |game.model.playerHand| == 2 && |game.model.dealerHand| == 1
    ensures game.model.dealerFacedown.Some? && |game.model.deck.cards| == DeckSize - 4
  {
    game := new GameController();
    var placed := game.PlaceBet();
    var started;
    ghost var shuffled;
    started, shuffled := game.StartGame();
  }
}
