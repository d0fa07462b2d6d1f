/** initializeDeck: the 60 cards of the game, built colour by colour. */
module Deck {
  import opened Cards

  /** How many copies of a card the deck holds: three of each investment card,
      one of each ranked card, none of anything else. */
  function CopiesInDeck(c: Card): nat {
    if !ValidCard(c) then 0 else if IsInvestment(c) then 3 else 1
  }

  /** A deck holding exactly the game's 60 cards, in any order. */
  ghost predicate IsFullDeck(deck: seq<Card>) {
    forall c :: multiset(deck)[c] == CopiesInDeck(c)
  }

  /** Copies of `c` among the first `pushed` cards initializeDeck pushes for
      `colour`, on top of all earlier colours. */
  function ColourPrefixCount(colour: int, pushed: nat, c: Card): nat {
    if c.color < colour then CopiesInDeck(c)
    else if c.color != colour then 0
    else if 2 <= c.value < 2 + pushed && c.value <= 10 then 1
    else if IsInvestment(c) && pushed > 9 then pushed - 9
    else 0
  }

  /** initializeDeck: for each colour, push the values 2..10, then three
      investment cards. */
  method InitializeDeck() returns (deck: seq<Card>)
    ensures |deck| == 60
    ensures IsFullDeck(deck)
  {
    deck := [];
    for colour := 0 to NumColours
      invariant |deck| == 12 * colour
      invariant forall c :: multiset(deck)[c] == (if c.color < colour then CopiesInDeck(c) else 0)
    {
      for value := 2 to 11
        invariant |deck| == 12 * colour + (value - 2)
        invariant forall c :: multiset(deck)[c] == ColourPrefixCount(colour, value - 2, c)
      {
        deck := deck + [Card(value, colour)];
      }
      for i := 0 to 3
        invariant |deck| == 12 * colour + 9 + i
        invariant forall c :: multiset(deck)[c] == ColourPrefixCount(colour, 9 + i, c)
      {
        deck := deck + [Card(Investment, colour)];
      }
    }
  }

  /** Every card of a full deck is a valid card, and there are 60 of them. */
  lemma FullDeckValid(deck: seq<Card>)
    requires IsFullDeck(deck)
    ensures forall i :: 0 <= i < |deck| ==> ValidCard(deck[i])
  {
    forall i | 0 <= i < |deck|
      ensures ValidCard(deck[i])
    {
      assert deck[i] in multiset(deck);
    }
  }
}
