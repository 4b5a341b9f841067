/*
 * The card source of the blackjack game: the fixed suit and rank tables, the
 * 52-card deck built from them, its Fisher-Yates shuffle and its stack-like draw
 * (src/objects/CardDeck.ts).
 */
module Decks {

  /** A card that may be missing: `draw` answers `undefined` on an empty deck. */
  datatype Option<T> = None | Some(value: T)

  datatype Suit = Spades | Hearts | Diamonds | Clubs

  datatype Rank = Ace | Two | Three | Four | Five | Six | Seven | Eight | Nine | Ten | Jack | Queen | King

  /** A card as the deck creates it: a suit, a rank and the score stored with it. */
  datatype Card = Card(suit: Suit, rank: Rank, score: nat)

  const DeckSize: nat := 52

  /** The `suits` table, in the order the deck is built. */
  const Suits: seq<Suit> := [Spades, Hearts, Diamonds, Clubs]

  /** The ranks of the `values` table, in the order the deck is built. */
  const Ranks: seq<Rank> := [Ace, Two, Three, Four, Five, Six, Seven, Eight, Nine, Ten, Jack, Queen, King]

  /** The score the `values` table pairs with each rank. */
  function ScoreOf(r: Rank): (s: nat)
    ensures 2 <= s <= 11
    ensures s == 11 <==> r == Ace
    ensures s == 10 <==> r in {Ten, Jack, Queen, King}
  {
    match r
    case Ace => 11
    case Two => 2
    case Three => 3
    case Four => 4
    case Five => 5
    case Six => 6
    case Seven => 7
    case Eight => 8
    case Nine => 9
    case Ten => 10
    case Jack => 10
    case Queen => 10
    case King => 10
  }

  /** A card the deck can hold: its score is the one its rank is given in the table. */
  predicate WellFormed(c: Card) {
    c.score == ScoreOf(c.rank)
  }

  /** The card the two building loops push at position `k`: suit-major, rank-minor. */
  function CardAt(k: nat): (c: Card)
    requires k < DeckSize
  {
    Card(Suits[k / 13], Ranks[k % 13], ScoreOf(Ranks[k % 13]))
  }

  /** The deck in the order `reset` builds it, before shuffling. */
  function FullDeck(): (d: seq<Card>) {
    seq(DeckSize, k requires 0 <= k < DeckSize => CardAt(k))
  }

  function SuitIndex(s: Suit): nat {
    match s
    case Spades => 0
    case Hearts => 1
    case Diamonds => 2
    case Clubs => 3
  }

  function RankIndex(r: Rank): nat {
    match r
    case Ace => 0
    case Two => 1
    case Three => 2
    case Four => 3
    case Five => 4
    case Six => 5
    case Seven => 6
    case Eight => 7
    case Nine => 8
    case Ten => 9
    case Jack => 10
    case Queen => 11
    case King => 12
  }

  /** Where the building loops put a card of this suit and rank. */
  function Position(c: Card): nat {
    13 * SuitIndex(c.suit) + RankIndex(c.rank)
  }

  lemma SuitTable(i: int)
    requires 0 <= i < |Suits|
    ensures SuitIndex(Suits[i]) == i
  {
    assert i == 0 || i == 1 || i == 2 || i == 3;
  }

  lemma RankTable(i: int)
    requires 0 <= i < |Ranks|
    ensures RankIndex(Ranks[i]) == i
  {
    assert i == 0 || i == 1 || i == 2 || i == 3 || i == 4 || i == 5 || i == 6
        || i == 7 || i == 8 || i == 9 || i == 10 || i == 11 || i == 12;
  }

  lemma PositionOfCardAt(k: nat)
    requires k < DeckSize
    ensures Position(CardAt(k)) == k
  {
    SuitTable(k / 13);
    RankTable(k % 13);
  }

  lemma CardAtPosition(c: Card)
    requires WellFormed(c)
    ensures Position(c) < DeckSize && CardAt(Position(c)) == c
  {
    match c.suit {
      case Spades =>
      case Hearts =>
      case Diamonds =>
      case Clubs =>
    }
    match c.rank {
      case Ace =>
      case Two =>
      case Three =>
      case Four =>
      case Five =>
      case Six =>
      case Seven =>
      case Eight =>
      case Nine =>
      case Ten =>
      case Jack =>
      case Queen =>
      case King =>
    }
  }

  ghost predicate Distinct<T>(s: seq<T>) {
    forall i, j :: 0 <= i < j < |s| ==> s[i] != s[j]
  }

  /** In a sequence without repetitions every element occurs exactly once. */
  lemma {:induction false} CountInDistinct<T>(s: seq<T>, x: T)
    requires Distinct(s)
    ensures multiset(s)[x] == if x in s then 1 else 0
  {
    if s != [] {
      assert s == [s[0]] + s[1..];
      assert Distinct(s[1..]) by {
        forall i, j | 0 <= i < j < |s[1..]| ensures s[1..][i] != s[1..][j] {
          assert s[1..][i] == s[i + 1] && s[1..][j] == s[j + 1];
        }
      }
      CountInDistinct(s[1..], x);
      if x == s[0] {
        assert x !in s[1..] by {
          forall k | 0 <= k < |s[1..]| ensures s[1..][k] != x {
            assert s[1..][k] == s[k + 1];
          }
        }
      }
    }
  }

  /** The building loops never push the same card twice. */
  lemma FullDeckDistinct()
    ensures Distinct(FullDeck())
  {
    var d := FullDeck();
    forall i, j | 0 <= i < j < |d| ensures d[i] != d[j] {
      PositionOfCardAt(i);
      PositionOfCardAt(j);
    }
  }

  /** Swapping two positions keeps a sequence free of repetitions. */
  lemma SwapKeepsDistinct<T>(s: seq<T>, i: nat, j: nat)
    requires Distinct(s) && i < |s| && j < |s|
    ensures Distinct(s[i := s[j]][j := s[i]])
  {
    var t := s[i := s[j]][j := s[i]];
    forall a, b | 0 <= a < b < |t| ensures t[a] != t[b] {
      var a' := if a == i then j else if a == j then i else a;
      var b' := if b == i then j else if b == j then i else b;
      assert t[a] == s[a'] && t[b] == s[b'];
    }
  }

  /**
   * The deck `reset` builds holds every (suit, rank) pair exactly once, each
   * with the score its rank is given, and nothing else.
   */
  lemma FullDeckExactlyOnce()
    ensures |FullDeck()| == DeckSize
    ensures WholeDeck(multiset(FullDeck()))
  {
    var d := FullDeck();
    FullDeckDistinct();
    forall c ensures multiset(d)[c] == if WellFormed(c) then 1 else 0 {
      CountInDistinct(d, c);
      if WellFormed(c) {
        CardAtPosition(c);
        assert d[Position(c)] == c;
      } else {
        forall k | 0 <= k < |d| ensures d[k] != c {
          assert WellFormed(d[k]);
        }
      }
    }
  }

  /** Exactly the 52 cards of a deck: one copy of each well-formed card, nothing else. */
  ghost predicate WholeDeck(m: multiset<Card>) {
    forall c :: m[c] == if WellFormed(c) then 1 else 0
  }

  /**
   * A valid deck is part of the deck `reset` builds: it holds no card twice,
   * and only cards of the table.
   */
  lemma ValidDeckIsPartOfFullDeck(deck: Deck)
    requires deck.Valid()
    ensures multiset(deck.cards) <= multiset(FullDeck())
    ensures forall c :: c in deck.cards ==> WellFormed(c) && multiset(deck.cards)[c] == 1
  {
    FullDeckExactlyOnce();
    forall c ensures multiset(deck.cards)[c] <= multiset(FullDeck())[c] {
      CountInDistinct(deck.cards, c);
      if c in deck.cards {
        var k :| 0 <= k < |deck.cards| && deck.cards[k] == c;
      }
    }
  }

  /** The order in which the cards of `s` come off when `s` is popped to empty. */
  function Reversed<T>(s: seq<T>): (r: seq<T>) {
    if s == [] then [] else [s[|s| - 1]] + Reversed(s[..|s| - 1])
  }

  lemma {:induction false} ReversedMultiset<T>(s: seq<T>)
    ensures |Reversed(s)| == |s|
    ensures multiset(Reversed(s)) == multiset(s)
  {
    if s != [] {
      ReversedMultiset(s[..|s| - 1]);
      assert s == s[..|s| - 1] + [s[|s| - 1]];
    }
  }

  /**
   * The deck object. Its array of cards grows with `push` and shrinks with
   * `pop`, so it is a sequence that the methods reassign; the end of the
   * sequence is the top of the deck.
   */
  class Deck {
    var cards: seq<Card>

    /**
     * The deck holds part of the 52 cards `reset` puts in it: only cards of the
     * table, and no card twice.
     */
    ghost predicate Valid()
      reads this
    {
      |cards| <= DeckSize && Distinct(cards) &&
      forall i :: 0 <= i < |cards| ==> WellFormed(cards[i])
    }

    constructor ()
      ensures Valid()
      ensures |cards| == DeckSize && multiset(cards) == multiset(FullDeck())
    {
      cards := [];
      new;
      Reset();
    }

    /** Rebuilds the 52 cards, four suits of thirteen ranks, then shuffles them. */
    method Reset()
      modifies this
      ensures Valid()
      ensures |cards| == DeckSize && multiset(cards) == multiset(FullDeck())
    {
      cards := [];
      for s := 0 to |Suits|
        invariant |cards| == 13 * s
        invariant forall k :: 0 <= k < |cards| ==> cards[k] == CardAt(k)
      {
        for v := 0 to |Ranks|
          invariant |cards| == 13 * s + v
          invariant forall k :: 0 <= k < |cards| ==> cards[k] == CardAt(k)
        {
          assert |cards| / 13 == s && |cards| % 13 == v;
          cards := cards + [Card(Suits[s], Ranks[v], ScoreOf(Ranks[v]))];
        }
      }
      assert cards == FullDeck();
      FullDeckDistinct();
      Shuffle();
    }

    /**
     * Fisher-Yates: for i from the last index down to 1, swap the cards at i
     * and at a j in [0, i]. The random choice of j is left open.
     */
    method Shuffle()
      requires Valid()
      modifies this
      ensures Valid()
      ensures |cards| == old(|cards|) && multiset(cards) == old(multiset(cards))
    {
      var i: int := |cards| - 1;
      while i > 0
        invariant -1 <= i < |cards| == old(|cards|)
        invariant multiset(cards) == old(multiset(cards))
        invariant Valid()
      {
        var j :| 0 <= j <= i;
        SwapKeepsDistinct(cards, i, j);
        cards := cards[i := cards[j]][j := cards[i]];
        i := i - 1;
      }
    }

    /** Pops the top card; `None` when the deck is empty. */
    method Draw() returns (c: Option<Card>)
      requires Valid()
      modifies this
      ensures Valid()
      ensures old(cards) == [] ==> c == None && cards == []
      ensures old(cards) != [] ==> c.Some? && old(cards) == cards + [c.value] && WellFormed(c.value)
    {
      if |cards| == 0 {
        c := None;
      } else {
        c := Some(cards[|cards| - 1]);
        cards := cards[..|cards| - 1];
      }
    }

    /** The number of cards left. */
    method Count() returns (n: nat)
      requires Valid()
      ensures n == |cards| && n <= DeckSize
    {
      n := |cards|;
    }
  }

  /**
   * Draws from a deck until it is empty: the draws return its cards top
   * first, and the draw after the last card finds nothing.
   */
  method DrawUntilEmpty(deck: Deck) returns (drawn: seq<Card>, next: Option<Card>)
    requires deck.Valid()
    modifies deck
    ensures deck.cards == [] && next == None
    ensures Reversed(drawn) == old(deck.cards)
  {
    ghost var start := deck.cards;
    drawn := [];
    var n := deck.Count();
    for k := 0 to n
      invariant deck.Valid() && |deck.cards| == n - k
      invariant Popped(start, deck.cards, drawn)
    {
      ghost var rest := deck.cards;
      var c := deck.Draw();
      PoppedStep(start, rest, drawn, deck.cards, c.value);
      drawn := drawn + [c.value];
    }
    next := deck.Draw();
    ReversedByIndex(drawn, start);
  }

  /**
   * Popping `before` down to `after` returned the cards `drawn`, in order:
   * the first card drawn was the top of `before`.
   */
  ghost predicate Popped<T>(before: seq<T>, after: seq<T>, drawn: seq<T>) {
    |before| == |after| + |drawn| && after == before[..|after|] &&
    forall i :: 0 <= i < |drawn| ==> drawn[i] == before[|before| - 1 - i]
  }

  lemma PoppedStep<T>(before: seq<T>, after: seq<T>, drawn: seq<T>, rest: seq<T>, c: T)
    requires Popped(before, after, drawn) && after == rest + [c]
    ensures Popped(before, rest, drawn + [c])
  {
    assert c == before[|after| - 1];
  }

  /** Popping loses no card: what is left and what was drawn make up the deck before. */
  lemma PoppedConserves<T>(before: seq<T>, after: seq<T>, drawn: seq<T>)
    requires Popped(before, after, drawn)
    ensures multiset(before) == multiset(after) + multiset(drawn)
  {
    var top := before[|after|..];
    ReversedByIndex(drawn, top);
    ReversedMultiset(drawn);
    assert before == after + top;
  }

  lemma {:induction false} ReversedByIndex<T>(r: seq<T>, s: seq<T>)
    requires |r| == |s|
    requires forall i :: 0 <= i < |r| ==> r[i] == s[|s| - 1 - i]
    ensures Reversed(r) == s
  {
    if r != [] {
      var m := |r| - 1;
      ReversedByIndex(r[..m], s[1..]);
      assert Reversed(r) == [r[m]] + Reversed(r[..m]);
      assert s == [s[0]] + s[1..];
    }
  }

  /**
   * Resets a deck and draws until it is empty: the 52 draws return every card
   * exactly once, in the reverse of the shuffled order, and the 53rd draw
   * finds nothing.
   */
  method DrawAfterReset(deck: Deck) returns (drawn: seq<Card>, next: Option<Card>, ghost shuffled: seq<Card>)
    modifies deck
    ensures |drawn| == DeckSize && next == None
    ensures multiset(shuffled) == multiset(FullDeck()) && Reversed(drawn) == shuffled
    ensures WholeDeck(multiset(drawn))
  {
    deck.Reset();
    shuffled := deck.cards;
    drawn, next := DrawUntilEmpty(deck);
    CountsOfShuffled(drawn, shuffled);
  }

  lemma CountsOfShuffled(drawn: seq<Card>, shuffled: seq<Card>)
    requires multiset(shuffled) == multiset(FullDeck()) && Reversed(drawn) == shuffled
    ensures |drawn| == |shuffled| && WholeDeck(multiset(drawn))
  {
    ReversedMultiset(drawn);
    FullDeckExactlyOnce();
  }
}
