/** The card-choice heuristics: which hand card a player puts down.

    The lowest and highest choosers scan the hand once, starting from the
    32-bit sentinels INT_MAX and INT_MIN, and return -1 when no card beats the
    sentinel (in particular for an empty hand). The proximity chooser looks for
    the hand card closest in value to the top of one of the player's own
    expeditions with the same colour.
 */
module CardChoice {
  import opened Cards
  import opened Expeditions

  // ---------------------------------------------------------------------------
  // Lowest and highest

  /** `r` is the first index of a smallest value of the hand. */
  predicate IsFirstLowest(hand: seq<Card>, r: int) {
    && 0 <= r < |hand|
    && (forall j :: 0 <= j < |hand| ==> hand[r].value <= hand[j].value)
    && (forall j :: 0 <= j < r ==> hand[r].value < hand[j].value)
  }

  /** `r` is the first index of a largest value of the hand. */
  predicate IsFirstHighest(hand: seq<Card>, r: int) {
    && 0 <= r < |hand|
    && (forall j :: 0 <= j < |hand| ==> hand[j].value <= hand[r].value)
    && (forall j :: 0 <= j < r ==> hand[j].value < hand[r].value)
  }

  /** The scan of the lowest chooser from index `i`, with `best` the index found
      so far (-1 for none) and `least` its value (INT_MAX for none). */
  function LowestFrom(hand: seq<Card>, i: nat, best: int, least: int): (r: int)
    requires i <= |hand|
    requires best == -1 ==> least == IntMax && forall j :: 0 <= j < i ==> hand[j].value >= IntMax
    requires best != -1 ==>
      && 0 <= best < i && least == hand[best].value && least < IntMax
      && (forall j :: 0 <= j < i ==> least <= hand[j].value)
      && (forall j :: 0 <= j < best ==> least < hand[j].value)
    ensures r == -1 <==> forall j :: 0 <= j < |hand| ==> hand[j].value >= IntMax
    ensures r != -1 ==> IsFirstLowest(hand, r)
    decreases |hand| - i
  {
    if i == |hand| then best
    else if hand[i].value < least then LowestFrom(hand, i + 1, i, hand[i].value)
    else LowestFrom(hand, i + 1, best, least)
  }

  /** chooseCardToPlayForPlayer1 of main.cpp, chooseCardToPlayForPlayer2 of
      testes.cpp, and the fallback of the proximity chooser: the first index of
      the lowest value; -1 only when no card is below INT_MAX. */
  function ChooseLowest(hand: seq<Card>): (r: int)
    ensures r == -1 <==> forall j :: 0 <= j < |hand| ==> hand[j].value >= IntMax
    ensures r != -1 ==> IsFirstLowest(hand, r)
  {
    LowestFrom(hand, 0, -1, IntMax)
  }

  /** The scan of the highest chooser, mirroring LowestFrom with INT_MIN. */
  function HighestFrom(hand: seq<Card>, i: nat, best: int, greatest: int): (r: int)
    requires i <= |hand|
    requires best == -1 ==> greatest == IntMin && forall j :: 0 <= j < i ==> hand[j].value <= IntMin
    requires best != -1 ==>
      && 0 <= best < i && greatest == hand[best].value && greatest > IntMin
      && (forall j :: 0 <= j < i ==> hand[j].value <= greatest)
      && (forall j :: 0 <= j < best ==> hand[j].value < greatest)
    ensures r == -1 <==> forall j :: 0 <= j < |hand| ==> hand[j].value <= IntMin
    ensures r != -1 ==> IsFirstHighest(hand, r)
    decreases |hand| - i
  {
    if i == |hand| then best
    else if hand[i].value > greatest then HighestFrom(hand, i + 1, i, hand[i].value)
    else HighestFrom(hand, i + 1, best, greatest)
  }

  /** chooseCardToPlayForPlayer2 of main.cpp: the first index of the highest
      value; -1 only when no card is above INT_MIN. */
  function ChooseHighest(hand: seq<Card>): (r: int)
    ensures r == -1 <==> forall j :: 0 <= j < |hand| ==> hand[j].value <= IntMin
    ensures r != -1 ==> IsFirstHighest(hand, r)
  {
    HighestFrom(hand, 0, -1, IntMin)
  }

  /** On a hand of deck cards the two choosers fail only on an empty hand, and
      on a sorted hand the lowest card is the first one. */
  lemma ChoosersOnDeckCards(hand: seq<Card>)
    requires forall j :: 0 <= j < |hand| ==> ValidCard(hand[j])
    ensures ChooseLowest(hand) == -1 <==> hand == []
    ensures ChooseHighest(hand) == -1 <==> hand == []
    ensures hand != [] && Sorted(hand) ==> ChooseLowest(hand) == 0
  {
    if hand != [] {
      assert hand[0].value < IntMax && hand[0].value > IntMin;
    }
  }

  // ---------------------------------------------------------------------------
  // Random

  /** chooseCardToPlayForPlayer1 of testes.cpp draws a uniform index of the
      hand; the draw is the oracle `pick`, and every index is some pick. */
  function RandomIndex(hand: seq<Card>, pick: nat): (r: nat)
    requires hand != []
    ensures r < |hand|
    ensures pick < |hand| ==> r == pick
  {
    pick % |hand|
  }

  // ---------------------------------------------------------------------------
  // Proximity (chooseCardToPlayForPlayer3 of testes.cpp)

  /** Hand card `i` has the colour of the top of expedition `j`. */
  predicate Matches(hand: seq<Card>, exps: seq<seq<Card>>, i: int, j: int) {
    0 <= i < |hand| && 0 <= j < |exps| && exps[j] != [] && Top(exps[j]).color == hand[i].color
  }

  function Distance(hand: seq<Card>, exps: seq<seq<Card>>, i: int, j: int): nat
    requires Matches(hand, exps, i, j)
  {
    var d := hand[i].value - Top(exps[j]).value;
    if d < 0 then -d else d
  }

  /** Pair (i, j) is strictly better than pair (i2, j2): closer in value, or as
      close with a smaller hand card. */
  predicate Prefer(hand: seq<Card>, exps: seq<seq<Card>>, i: int, j: int, i2: int, j2: int)
    requires Matches(hand, exps, i, j) && Matches(hand, exps, i2, j2)
  {
    || Distance(hand, exps, i, j) < Distance(hand, exps, i2, j2)
    || (Distance(hand, exps, i, j) == Distance(hand, exps, i2, j2) && hand[i].value < hand[i2].value)
  }

  /** The scan visits pair (i, j) before pair (i2, j2): card by card, and
      expedition by expedition within a card. */
  predicate Before(i: int, j: int, i2: int, j2: int) {
    i < i2 || (i == i2 && j < j2)
  }

  /** The proximity chooser's answer: card `i`, matched with expedition `j`, is
      beaten by no pair, and beats every pair of an earlier card. */
  ghost predicate IsClosestPair(hand: seq<Card>, exps: seq<seq<Card>>, i: int, j: int) {
    && Matches(hand, exps, i, j)
    && (forall i2, j2 :: Matches(hand, exps, i2, j2) ==> !Prefer(hand, exps, i2, j2, i, j))
    && (forall i2, j2 :: Matches(hand, exps, i2, j2) && i2 < i ==> Prefer(hand, exps, i, j, i2, j2))
  }

  /** The best pair found so far by the proximity scan. */
  datatype Best = NoBest | BestAt(card: nat, exp: nat)

  /** What the proximity scan knows when it reaches pair (i, j). */
  ghost predicate ScanState(hand: seq<Card>, exps: seq<seq<Card>>, i: int, j: int, best: Best) {
    match best
    case NoBest =>
      forall i2, j2 :: Matches(hand, exps, i2, j2) && Before(i2, j2, i, j) ==> false
    case BestAt(bi, bj) =>
      && Matches(hand, exps, bi, bj)
      && Before(bi, bj, i, j)
      && (forall i2, j2 :: Matches(hand, exps, i2, j2) && Before(i2, j2, i, j) ==>
            !Prefer(hand, exps, i2, j2, bi, bj))
      && (forall i2, j2 :: Matches(hand, exps, i2, j2) && Before(i2, j2, bi, bj) ==>
            Prefer(hand, exps, bi, bj, i2, j2))
  }

  /** The nested loops of the proximity chooser, from pair (i, j). A matching
      pair replaces the best one when it is strictly better. */
  function ClosestFrom(hand: seq<Card>, exps: seq<seq<Card>>, i: nat, j: nat, best: Best): (r: Best)
    requires i <= |hand| && j <= |exps|
    requires ScanState(hand, exps, i, j, best)
    ensures r.NoBest? ==> forall i2, j2 :: !Matches(hand, exps, i2, j2)
    ensures r.BestAt? ==> IsClosestPair(hand, exps, r.card, r.exp)
    decreases |hand| - i, |exps| - j
  {
    if i == |hand| then best
    else if j == |exps| then ClosestFrom(hand, exps, i + 1, 0, best)
    else if Matches(hand, exps, i, j) && (best.NoBest? || Prefer(hand, exps, i, j, best.card, best.exp)) then
      ClosestFrom(hand, exps, i, j + 1, BestAt(i, j))
    else
      ClosestFrom(hand, exps, i, j + 1, best)
  }

  /** The first loop of chooseCardToPlayForPlayer3: the index of the card
      closest to a same-coloured expedition top, or -1 when no card shares a
      colour with a top. */
  function ChooseClosest(hand: seq<Card>, exps: seq<seq<Card>>): (r: int)
    ensures r == -1 ==> forall i, j :: !Matches(hand, exps, i, j)
    ensures r != -1 ==> exists j :: IsClosestPair(hand, exps, r, j)
  {
    match ClosestFrom(hand, exps, 0, 0, NoBest)
    case NoBest => -1
    case BestAt(i, j) => i
  }

  /** The closest pair names a single hand card: the contract of ChooseClosest
      determines its answer. */
  lemma ClosestCardIsUnique(hand: seq<Card>, exps: seq<seq<Card>>, i: int, j: int, i2: int, j2: int)
    requires IsClosestPair(hand, exps, i, j)
    requires IsClosestPair(hand, exps, i2, j2)
    ensures i == i2
  {
  }

  /** chooseCardToPlayForPlayer3: the closest card when some card shares a
      colour with one of the player's expedition tops, otherwise the lowest
      card. (Its third candidate, bestCardIndex, is never set, so that branch
      is dead.) */
  function ChooseProximity(hand: seq<Card>, exps: seq<seq<Card>>): (r: int)
    ensures (exists i, j :: Matches(hand, exps, i, j)) ==> exists j :: IsClosestPair(hand, exps, r, j)
    ensures (forall i, j :: !Matches(hand, exps, i, j)) ==>
      && (r == -1 <==> forall k :: 0 <= k < |hand| ==> hand[k].value >= IntMax)
      && (r != -1 ==> IsFirstLowest(hand, r))
  {
    var close := ChooseClosest(hand, exps);
    if close != -1 then close else ChooseLowest(hand)
  }
}
