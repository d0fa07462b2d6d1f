/** Cards, hands and the deck of the two-player expedition card game.

    A card has a value and a colour. Values 2..10 are ranked cards; value -1
    marks an investment card, which scores nothing by itself but multiplies its
    expedition's score. A hand is kept sorted ascending by value.
 */
module Cards {

  datatype Card = Card(value: int, color: int)


  /** Number of colours, hence of expeditions per player and of discard piles. */
  const NumColours: nat := 5
  /** Cards dealt to each player at the start. */
  const HandSize: nat := 8
  /** Value that marks an investment card. */
  const Investment: int := -1
  /** The 32-bit bounds the card-choice loops use as sentinels. */
  const IntMax: int := 0x7fff_ffff
  const IntMin: int := -0x8000_0000

  predicate IsInvestment(c: Card) {
    c.value == Investment
  }

  /** A value the deck contains: an investment or a rank 2..10. */
  predicate ValidValue(v: int) {
    v == Investment || 2 <= v <= 10
  }

  /** A card the deck contains. */
  predicate ValidCard(c: Card) {
    ValidValue(c.value) && 0 <= c.color < NumColours
  }

  /** Ascending by value; equal values may come in any colour order. */
  predicate Sorted(hand: seq<Card>) {
    forall i, j :: 0 <= i < j < |hand| ==> hand[i].value <= hand[j].value
  }

  // ---------------------------------------------------------------------------
  // Sorting the hand

  /** Where `c` goes in a sorted hand: after every card of equal or lower value. */
  function InsertPos(hand: seq<Card>, c: Card): (k: nat)
    requires Sorted(hand)
    ensures k <= |hand|
    ensures forall i :: 0 <= i < k ==> hand[i].value <= c.value
    ensures forall i :: k <= i < |hand| ==> c.value < hand[i].value
  {
    if hand == [] || c.value < hand[0].value then 0 else 1 + InsertPos(hand[1..], c)
  }

  /** Places `c` into a sorted hand, after every card of equal or lower value. */
  function Insert(hand: seq<Card>, c: Card): (r: seq<Card>)
    requires Sorted(hand)
    ensures Sorted(r)
    ensures multiset(r) == multiset(hand) + multiset{c}
    ensures |r| == |hand| + 1
  {
    var k := InsertPos(hand, c);
    assert hand == hand[..k] + hand[k..];
    hand[..k] + [c] + hand[k..]
  }

  /** sortHand: a sort of the hand by value. The model sorts stably (insertion
      sort), which is one of the orders the source's unstable sort may give. */
  function SortHand(hand: seq<Card>): (r: seq<Card>)
    ensures Sorted(r)
    ensures multiset(r) == multiset(hand)
    ensures |r| == |hand|
  {
    if hand == [] then []
    else
      var init := hand[..|hand| - 1];
      assert hand == init + [hand[|hand| - 1]];
      Insert(SortHand(init), hand[|hand| - 1])
  }

  /** drawCard: push the card at the back of the hand, then sort the hand. */
  function DrawCard(hand: seq<Card>, c: Card): (r: seq<Card>)
    ensures Sorted(r)
    ensures multiset(r) == multiset(hand) + multiset{c}
    ensures |r| == |hand| + 1
  {
    SortHand(hand + [c])
  }

  /** Inserting a card no smaller than every card of the hand appends it. */
  lemma {:induction false} InsertLargest(hand: seq<Card>, c: Card)
    requires Sorted(hand)
    requires forall i :: 0 <= i < |hand| ==> hand[i].value <= c.value
    ensures Insert(hand, c) == hand + [c]
  {
    if hand != [] {
      InsertLargest(hand[1..], c);
    }
  }

  /** Sorting an already sorted hand changes nothing. */
  lemma {:induction false} SortSortedIsIdentity(hand: seq<Card>)
    requires Sorted(hand)
    ensures SortHand(hand) == hand
  {
    if hand != [] {
      var init := hand[..|hand| - 1];
      SortSortedIsIdentity(init);
      InsertLargest(init, hand[|hand| - 1]);
    }
  }

  /** On a sorted hand, drawCard is an insertion: the new card goes after every
      card of equal or lower value and the old cards keep their order. */
  lemma DrawCardInserts(hand: seq<Card>, c: Card)
    requires Sorted(hand)
    ensures DrawCard(hand, c) == Insert(hand, c)
  {
    assert (hand + [c])[..|hand|] == hand;
    SortSortedIsIdentity(hand);
  }

  // ---------------------------------------------------------------------------
  // Removing a card from the hand

  /** Erasing the card at index `i`: the later cards move down by one. */
  function RemoveAt(hand: seq<Card>, i: nat): (r: seq<Card>)
    requires i < |hand|
    ensures |r| == |hand| - 1
    ensures multiset(r) + multiset{hand[i]} == multiset(hand)
    ensures forall k :: 0 <= k < i ==> r[k] == hand[k]
    ensures forall k :: i <= k < |r| ==> r[k] == hand[k + 1]
    ensures Sorted(hand) ==> Sorted(r)
  {
    assert hand == hand[..i] + [hand[i]] + hand[i + 1..];
    hand[..i] + hand[i + 1..]
  }
}
