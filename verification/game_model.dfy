/*
 * The game's state and its hand scoring (src/mvc/GameModel.ts): the bankroll,
 * the current bet, the two hands, the dealer's face-down card and the deck,
 * and the value of a hand with aces counted as 11 or 1.
 */
module Model {
  import opened Decks

  const StartingMoney: int := 100

  /** The highest total that does not bust. */
  const Limit: int := 21

  /** What lowering one ace from 11 to 1 takes off a total. */
  const AceDrop: int := 10

  /** What a sum over a hand counts: the card scores, or the aces. */
  datatype Measure = Points | Aces

  function Weight(m: Measure, c: Card): nat {
    match m
    case Points => c.score
    case Aces => if c.rank == Ace then 1 else 0
  }

  /** The sum of a measure over a hand, accumulated front to back. */
  function Total(hand: seq<Card>, m: Measure): (t: nat) {
    if hand == [] then 0 else Total(hand[..|hand| - 1], m) + Weight(m, hand[|hand| - 1])
  }

  /** The sum of the card scores, every ace counted at its table score of 11. */
  function RawSum(hand: seq<Card>): nat {
    Total(hand, Points)
  }

  function AceCount(hand: seq<Card>): nat {
    Total(hand, Aces)
  }

  /** The adjustment loop: while the total is over 21 and an ace is left, count one ace as 1. */
  function Soften(total: int, aces: nat): (v: int)
    decreases aces
  {
    if total > Limit && aces > 0 then Soften(total - AceDrop, aces - 1) else total
  }

  /** The value `calculateHandValue` gives a hand. */
  function HandValue(hand: seq<Card>): (v: int) {
    Soften(RawSum(hand), AceCount(hand))
  }

  /**
   * The adjustment takes 10 off the total some number of times, at most once
   * per ace; it changes nothing when the total does not bust; it only stops
   * above 21 once every ace is low; and it never lowers an ace it did not
   * need to, since before the last lowering the total was over 21.
   */
  lemma {:induction false} SoftenSpec(total: int, aces: nat)
    ensures total - AceDrop * aces <= Soften(total, aces) <= total
    ensures (total - Soften(total, aces)) % AceDrop == 0
    ensures total <= Limit ==> Soften(total, aces) == total
    ensures Soften(total, aces) > Limit ==> Soften(total, aces) == total - AceDrop * aces
    ensures Soften(total, aces) < total ==> Soften(total, aces) + AceDrop > Limit
  {
    if total > Limit && aces > 0 {
      SoftenSpec(total - AceDrop, aces - 1);
    }
  }

  /**
   * A hand's value is its raw sum less 10 for each of some of its aces; it is
   * the raw sum when that does not bust, and the all-aces-low total when the
   * hand busts anyway.
   */
  lemma HandValueCandidates(hand: seq<Card>)
    ensures RawSum(hand) - AceDrop * AceCount(hand) <= HandValue(hand) <= RawSum(hand)
    ensures (RawSum(hand) - HandValue(hand)) % AceDrop == 0
    ensures RawSum(hand) <= Limit ==> HandValue(hand) == RawSum(hand)
    ensures HandValue(hand) > Limit ==> HandValue(hand) == RawSum(hand) - AceDrop * AceCount(hand)
  {
    SoftenSpec(RawSum(hand), AceCount(hand));
  }

  /**
   * A hand's value is the best total: whenever counting `k` of the aces as 1
   * gives a total that does not bust, the value does not bust either and is
   * at least that total.
   */
  lemma HandValueIsBest(hand: seq<Card>, k: nat)
    requires k <= AceCount(hand)
    requires RawSum(hand) - AceDrop * k <= Limit
    ensures RawSum(hand) - AceDrop * k <= HandValue(hand) <= Limit
  {
    SoftenSpec(RawSum(hand), AceCount(hand));
  }

  lemma TotalSnoc(s: seq<Card>, x: Card, m: Measure)
    ensures Total(s + [x], m) == Total(s, m) + Weight(m, x)
  {
    assert (s + [x])[..|s|] == s;
  }

  /** Removing the card at `j` takes exactly its weight off the sum. */
  lemma {:induction false} TotalRemove(s: seq<Card>, j: nat, m: Measure)
    requires j < |s|
    ensures Total(s, m) == Weight(m, s[j]) + Total(s[..j] + s[j + 1..], m)
  {
    var last := |s| - 1;
    if j < last {
      TotalRemove(s[..last], j, m);
      var rest := s[..last][..j] + s[..last][j + 1..];
      assert s[..j] + s[j + 1..] == rest + [s[last]];
      assert (rest + [s[last]])[..|rest|] == rest;
    } else {
      assert s[..j] + s[j + 1..] == s[..last];
    }
  }

  /**
   * Taking the last card off `a` and the same card off `b`, at `j`, leaves two
   * hands that still hold the same cards.
   */
  lemma RemoveMatching(a: seq<Card>, b: seq<Card>, j: nat)
    requires multiset(a) == multiset(b) && a != [] && j < |b| && b[j] == a[|a| - 1]
    ensures multiset(a[..|a| - 1]) == multiset(b[..j] + b[j + 1..])
  {
    var last := |a| - 1;
    var x := a[last];
    assert a == a[..last] + [x];
    assert b == b[..j] + [x] + b[j + 1..];
    assert multiset(a[..last]) == multiset(a) - multiset{x};
    assert multiset(b[..j] + b[j + 1..]) == multiset(b) - multiset{x};
  }

  /** A sum of weights does not depend on the order of the cards. */
  lemma {:induction false} TotalPermutation(a: seq<Card>, b: seq<Card>, m: Measure)
    requires multiset(a) == multiset(b)
    ensures Total(a, m) == Total(b, m)
    decreases |a|
  {
    if a == [] {
      assert |b| == |multiset(b)| == 0;
    } else {
      var last := |a| - 1;
      assert a[last] in multiset(b);
      var j :| 0 <= j < |b| && b[j] == a[last];
      RemoveMatching(a, b, j);
      TotalPermutation(a[..last], b[..j] + b[j + 1..], m);
      TotalRemove(b, j, m);
      assert Total(a, m) == Total(a[..last], m) + Weight(m, a[last]);
    }
  }

  /** The value of a hand depends only on which cards it holds, not on their order. */
  lemma HandValueOrderFree(a: seq<Card>, b: seq<Card>)
    requires multiset(a) == multiset(b)
    ensures HandValue(a) == HandValue(b)
  {
    TotalPermutation(a, b, Points);
    TotalPermutation(a, b, Aces);
  }

  /** Two cards from the deck never bust: two aces count 11 + 1. */
  lemma TwoCardsDoNotBust(c: Card, d: Card)
    requires WellFormed(c) && WellFormed(d)
    ensures HandValue([c, d]) <= Limit
  {
    TotalSnoc([], c, Points);
    TotalSnoc([], c, Aces);
    TotalSnoc([c], d, Points);
    TotalSnoc([c], d, Aces);
    assert [] + [c] == [c] && [c] + [d] == [c, d];
  }

  /** Two example hands: an ace with a nine, and an ace with a nine and a five. */
  lemma HandValueExamples()
    ensures HandValue([Card(Spades, Ace, 11), Card(Hearts, Nine, 9)]) == 20
    ensures HandValue([Card(Spades, Ace, 11), Card(Hearts, Nine, 9), Card(Clubs, Five, 5)]) == 15
  {
    var a, n, f := Card(Spades, Ace, 11), Card(Hearts, Nine, 9), Card(Clubs, Five, 5);
    TotalSnoc([], a, Points);
    TotalSnoc([], a, Aces);
    TotalSnoc([a], n, Points);
    TotalSnoc([a], n, Aces);
    TotalSnoc([a, n], f, Points);
    TotalSnoc([a, n], f, Aces);
    assert [] + [a] == [a] && [a] + [n] == [a, n] && [a, n] + [f] == [a, n, f];
  }

  class GameModel {
    const deck: Deck
    var playerMoney: int
    var currentBet: int
    var playerHand: seq<Card>
    var dealerHand: seq<Card>
    var dealerFacedown: Option<Card>

    /** A fresh model: 100 in the bank, no bet, no cards dealt, a full shuffled deck. */
    constructor ()
      ensures fresh(deck) && deck.Valid()
      ensures |deck.cards| == DeckSize && multiset(deck.cards) == multiset(FullDeck())
      ensures playerMoney == StartingMoney && currentBet == 0
      ensures playerHand == [] && dealerHand == [] && dealerFacedown == None
    {
      deck := new Deck();
      playerMoney := StartingMoney;
      currentBet := 0;
      playerHand := [];
      dealerHand := [];
      dealerFacedown := None;
    }

    /** The bankroll and the bet are never negative, and the deck holds table cards, none twice. */
    ghost predicate Valid()
      reads this, deck
    {
      deck.Valid() && playerMoney >= 0 && currentBet >= 0
    }

    /** Clears both hands and the face-down card; nothing else changes. */
    method ResetHands()
      modifies this
      ensures playerHand == [] && dealerHand == [] && dealerFacedown == None
      ensures playerMoney == old(playerMoney) && currentBet == old(currentBet)
    {
      playerHand := [];
      dealerHand := [];
      dealerFacedown := None;
    }

    /** Sums the scores and counts the aces, then lowers aces while the total busts. */
    method CalculateHandValue(hand: seq<Card>) returns (total: int)
      ensures total == HandValue(hand)
    {
      total := 0;
      var aceCount: nat := 0;
      for i := 0 to |hand|
        invariant total == RawSum(hand[..i]) && aceCount == AceCount(hand[..i])
      {
        TotalSnoc(hand[..i], hand[i], Points);
        TotalSnoc(hand[..i], hand[i], Aces);
        assert hand[..i] + [hand[i]] == hand[..i + 1];
        total := total + hand[i].score;
        if hand[i].rank == Ace {
          aceCount := aceCount + 1;
        }
      }
      assert hand[..|hand|] == hand;
      while total > Limit && aceCount > 0
        invariant Soften(total, aceCount) == HandValue(hand)
      {
        total := total - AceDrop;
        aceCount := aceCount - 1;
      }
    }
  }
}
