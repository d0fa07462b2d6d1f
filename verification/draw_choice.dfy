/** The draw-choice policies: after putting a card down, does the player take
    the front (oldest) card of a discard pile or the back card of the deck?

    Discard piles are first-in first-out: a discarded card joins the back of
    its colour's pile and a draw takes the front.
 */
module DrawChoice {
  import opened Cards
  import opened Options

  function Front(pile: seq<Card>): Card
    requires pile != []
  {
    pile[0]
  }

  // ---------------------------------------------------------------------------
  // Threshold rule (main.cpp)

  const Threshold: int := 5

  /** Player 0 wants a front below 5; any other player a front above 5. */
  predicate Tempting(pile: seq<Card>, player: int) {
    pile != [] && (if player == 0 then Front(pile).value < Threshold else Front(pile).value > Threshold)
  }

  function TemptingFrom(piles: seq<seq<Card>>, player: int, i: nat): (r: Option<nat>)
    requires i <= |piles|
    ensures r.Some? ==> i <= r.value < |piles| && Tempting(piles[r.value], player)
    ensures r.Some? ==> forall k :: i <= k < r.value ==> !Tempting(piles[k], player)
    ensures r.None? ==> forall k :: i <= k < |piles| ==> !Tempting(piles[k], player)
    decreases |piles| - i
  {
    if i == |piles| then None
    else if Tempting(piles[i], player) then Some(i)
    else TemptingFrom(piles, player, i + 1)
  }

  /** The discard choice of main.cpp's takeTurn: the first pile, in colour
      order, whose front tempts the current player. */
  function ThresholdChoice(piles: seq<seq<Card>>, player: int): (r: Option<nat>)
    ensures r.Some? ==> r.value < |piles| && Tempting(piles[r.value], player)
    ensures r.Some? ==> forall k :: 0 <= k < r.value ==> !Tempting(piles[k], player)
    ensures r.None? ==> forall k :: 0 <= k < |piles| ==> !Tempting(piles[k], player)
  {
    TemptingFrom(piles, player, 0)
  }

  // ---------------------------------------------------------------------------
  // First non-empty pile (testes.cpp)

  function NonEmptyFrom(piles: seq<seq<Card>>, i: nat): (r: Option<nat>)
    requires i <= |piles|
    ensures r.Some? ==> i <= r.value < |piles| && piles[r.value] != []
    ensures r.Some? ==> forall k :: i <= k < r.value ==> piles[k] == []
    ensures r.None? ==> forall k :: i <= k < |piles| ==> piles[k] == []
    decreases |piles| - i
  {
    if i == |piles| then None
    else if piles[i] != [] then Some(i)
    else NonEmptyFrom(piles, i + 1)
  }

  /** The pile drawCardDecision draws from when it draws a discard: the first
      non-empty one, whatever pile the policy looked at. */
  function FirstNonEmpty(piles: seq<seq<Card>>): (r: Option<nat>)
    ensures r.Some? ==> r.value < |piles| && piles[r.value] != []
    ensures r.Some? ==> forall k :: 0 <= k < r.value ==> piles[k] == []
    ensures r.None? ==> forall k :: 0 <= k < |piles| ==> piles[k] == []
  {
    NonEmptyFrom(piles, 0)
  }

  // ---------------------------------------------------------------------------
  // Mean rules (testes.cpp)

  /** Sum of the values of the hand cards of one colour. */
  function ColourSum(hand: seq<Card>, colour: int): int {
    if hand == [] then 0
    else (if hand[0].color == colour then hand[0].value else 0) + ColourSum(hand[1..], colour)
  }

  /** Number of hand cards of one colour. */
  function ColourCount(hand: seq<Card>, colour: int): nat {
    if hand == [] then 0
    else (if hand[0].color == colour then 1 else 0) + ColourCount(hand[1..], colour)
  }

  /** `v` is above the mean `sum / n`, read in exact arithmetic: the source
      compares against a floating-point mean. */
  ghost predicate AboveMean(v: int, sum: int, n: nat)
    requires n > 0
  {
    v as real > sum as real / n as real
  }

  /** Comparing with the mean is comparing `v * n` with the sum. */
  lemma CrossMultiply(v: int, sum: int, n: nat)
    requires n > 0
    ensures AboveMean(v, sum, n) <==> v * n > sum
  {
    var m := sum as real / n as real;
    assert m * n as real == sum as real;
    assert (v * n) as real == v as real * n as real;
    if v as real > m {
      assert v as real * n as real > m * n as real;
    } else {
      assert v as real * n as real <= m * n as real;
    }
  }

  /** The hand's mean for the pile's front colour is beaten by the front card,
      or the hand holds no card of that colour. */
  ghost predicate FrontBeatsHand(pile: seq<Card>, hand: seq<Card>)
    requires pile != []
  {
    var colour := Front(pile).color;
    ColourCount(hand, colour) == 0 || AboveMean(Front(pile).value, ColourSum(hand, colour), ColourCount(hand, colour))
  }

  /** chooseBasedOnDiscardAndMedia: take the discard when the hand has no card
      of its colour, or when its value is above the hand's mean of that colour. */
  function MeanRule(pile: seq<Card>, hand: seq<Card>): (r: bool)
    requires pile != []
    ensures r <==> FrontBeatsHand(pile, hand)
  {
    var colour := Front(pile).color;
    var n := ColourCount(hand, colour);
    if n == 0 then true
    else
      CrossMultiply(Front(pile).value, ColourSum(hand, colour), n);
      Front(pile).value * n > ColourSum(hand, colour)
  }

  /** A pile that makes the multi-pile rule draw: non-empty, its front colour
      present in the hand, and its front value above that colour's mean. */
  ghost predicate PileBeatsHand(pile: seq<Card>, hand: seq<Card>) {
    && pile != []
    && ColourCount(hand, Front(pile).color) > 0
    && AboveMean(Front(pile).value, ColourSum(hand, Front(pile).color), ColourCount(hand, Front(pile).color))
  }

  function AnyPileFrom(piles: seq<seq<Card>>, hand: seq<Card>, i: nat): (r: bool)
    requires i <= |piles|
    ensures r <==> exists k :: i <= k < |piles| && PileBeatsHand(piles[k], hand)
    decreases |piles| - i
  {
    if i == |piles| then false
    else if piles[i] == [] then AnyPileFrom(piles, hand, i + 1)
    else
      var colour := Front(piles[i]).color;
      var n := ColourCount(hand, colour);
      if n == 0 then AnyPileFrom(piles, hand, i + 1)
      else
        CrossMultiply(Front(piles[i]).value, ColourSum(hand, colour), n);
        if Front(piles[i]).value * n > ColourSum(hand, colour) then true
        else AnyPileFrom(piles, hand, i + 1)
  }

  /** chooseBasedOnDiscardAndExpedition: some pile's front beats the hand's
      mean of its colour; piles whose front colour is absent from the hand are
      skipped, not taken. */
  function MultiPileRule(piles: seq<seq<Card>>, hand: seq<Card>): (r: bool)
    ensures r <==> exists k :: 0 <= k < |piles| && PileBeatsHand(piles[k], hand)
  {
    AnyPileFrom(piles, hand, 0)
  }

  /** The two mean rules differ only on a pile whose front colour is absent
      from the hand: the single-pile rule takes it, the multi-pile rule skips
      it. On a single non-empty pile of a colour the hand holds they agree. */
  lemma MeanRulesAgreeOnHeldColour(pile: seq<Card>, hand: seq<Card>)
    requires pile != []
    requires ColourCount(hand, Front(pile).color) > 0
    ensures MeanRule(pile, hand) == MultiPileRule([pile], hand)
  {
  }
}
