/** The game: the deck, the five discard piles, two players and the turn.

    A turn puts one hand card down (on an expedition, or on the discard pile
    of its colour) and then draws one card (the back of the deck, or the front
    of a discard pile). The game ends when the deck is empty.
 */
module Game {
  import opened Cards
  import opened Deck
  import opened Expeditions
  import opened Scoring
  import opened CardChoice
  import opened DrawChoice
  import opened Players
  import opened Options

  const NumPlayers: nat := 2
  /** Above this many deck cards a turn plays on the first legal expedition;
      at or below it, on the expedition of greatest look-ahead. */
  const EndgameDeck: nat := 10
  /** The starting best score of the endgame expedition search. */
  const NoPoints: int := -1000

  datatype GameState = GameState(
    deck: seq<Card>,            // the back of the deck is its last card
    piles: seq<seq<Card>>,      // discard piles by colour, front first
    players: seq<Player>,
    current: nat)

  /** Two players of five expeditions each, five discard piles. */
  predicate Shaped(g: GameState) {
    && |g.players| == NumPlayers
    && g.current < NumPlayers
    && |g.piles| == NumColours
    && |g.players[0].expeditions| == NumColours
    && |g.players[1].expeditions| == NumColours
  }

  function Current(g: GameState): Player
    requires Shaped(g)
  {
    g.players[g.current]
  }

  /** The state with the current player replaced. */
  function WithCurrent(g: GameState, p: Player): GameState
    requires Shaped(g)
  {
    g.(players := g.players[g.current := p])
  }

  /** Every card of the game: deck, discard piles, hands and expeditions. */
  function AllCards(g: GameState): multiset<Card>
    requires |g.players| == NumPlayers
  {
    multiset(g.deck) + Flatten(g.piles) + PlayerCards(g.players[0]) + PlayerCards(g.players[1])
  }

  // ---------------------------------------------------------------------------
  // Where the chosen card goes

  datatype Destination = ToExpedition(index: nat) | ToDiscard

  /** The scan of the early-game search from expedition `i`. */
  function FirstLegalFrom(c: Card, exps: seq<seq<Card>>, i: nat): (r: Option<nat>)
    requires i <= |exps|
    ensures r.Some? ==> i <= r.value < |exps| && CanPlay(c, exps[r.value])
    ensures r.Some? ==> forall k :: i <= k < r.value ==> !CanPlay(c, exps[k])
    ensures r.None? ==> forall k :: i <= k < |exps| ==> !CanPlay(c, exps[k])
    decreases |exps| - i
  {
    if i == |exps| then None
    else if CanPlay(c, exps[i]) then Some(i)
    else FirstLegalFrom(c, exps, i + 1)
  }

  /** Expedition `k` is what the endgame search answers: legal, with a
      look-ahead above -1000, no legal expedition foresees more, and every
      earlier legal expedition foresees strictly less. */
  ghost predicate IsBestDestination(rules: Rules, c: Card, exps: seq<seq<Card>>, k: int) {
    && 0 <= k < |exps|
    && CanPlay(c, exps[k])
    && Potential(rules, exps[k], c) > NoPoints
    && (forall j :: 0 <= j < |exps| && CanPlay(c, exps[j]) ==> Potential(rules, exps[j], c) <= Potential(rules, exps[k], c))
    && (forall j :: 0 <= j < k && CanPlay(c, exps[j]) ==> Potential(rules, exps[j], c) < Potential(rules, exps[k], c))
  }

  /** The scan of the endgame search from expedition `i`, with `best` the
      expedition kept so far and `most` its look-ahead (-1000 for none). A
      legal expedition replaces it only when it foresees strictly more. */
  function BestFrom(rules: Rules, c: Card, exps: seq<seq<Card>>, i: nat, best: Option<nat>, most: int): (r: Option<nat>)
    requires i <= |exps|
    requires best.None? ==>
      && most == NoPoints
      && (forall j :: 0 <= j < i && CanPlay(c, exps[j]) ==> Potential(rules, exps[j], c) <= NoPoints)
    requires best.Some? ==>
      && best.value < i && CanPlay(c, exps[best.value])
      && most == Potential(rules, exps[best.value], c) && most > NoPoints
      && (forall j :: 0 <= j < i && CanPlay(c, exps[j]) ==> Potential(rules, exps[j], c) <= most)
      && (forall j :: 0 <= j < best.value && CanPlay(c, exps[j]) ==> Potential(rules, exps[j], c) < most)
    ensures r.Some? ==> IsBestDestination(rules, c, exps, r.value)
    ensures r.None? ==> forall j :: 0 <= j < |exps| && CanPlay(c, exps[j]) ==> Potential(rules, exps[j], c) <= NoPoints
    decreases |exps| - i
  {
    if i == |exps| then best
    else if CanPlay(c, exps[i]) && Potential(rules, exps[i], c) > most then
      BestFrom(rules, c, exps, i + 1, Some(i), Potential(rules, exps[i], c))
    else BestFrom(rules, c, exps, i + 1, best, most)
  }

  /** The expedition search of takeTurn: with more than 10 cards in the deck
      the first legal expedition; otherwise the legal expedition of greatest
      look-ahead above -1000, the earliest on a tie; the discard pile when the
      search finds nothing. A chosen expedition is always legal. */
  function ChooseDestination(rules: Rules, c: Card, exps: seq<seq<Card>>, deckSize: nat): (r: Destination)
    ensures r.ToExpedition? ==> r.index < |exps| && CanPlay(c, exps[r.index])
    ensures deckSize > EndgameDeck && r.ToExpedition? ==>
      forall k :: 0 <= k < r.index ==> !CanPlay(c, exps[k])
    ensures deckSize > EndgameDeck ==>
      (r.ToDiscard? <==> forall k :: 0 <= k < |exps| ==> !CanPlay(c, exps[k]))
    ensures deckSize <= EndgameDeck && r.ToExpedition? ==> IsBestDestination(rules, c, exps, r.index)
    ensures deckSize <= EndgameDeck ==>
      (r.ToDiscard? <==> forall k :: 0 <= k < |exps| && CanPlay(c, exps[k]) ==> Potential(rules, exps[k], c) <= NoPoints)
  {
    var found := if deckSize > EndgameDeck then FirstLegalFrom(c, exps, 0) else BestFrom(rules, c, exps, 0, None, NoPoints);
    match found
    case Some(k) => ToExpedition(k)
    case None => ToDiscard
  }

  /** Every card is at least -1, so skipping 0 sums to at least minus the
      length. */
  lemma {:induction false} SumSkippingZeroBound(e: seq<Card>)
    requires forall i :: 0 <= i < |e| ==> ValidValue(e[i].value)
    ensures SumSkipping(e, 0) >= -|e|
    ensures CountOf(e, 0) == 0
  {
    if e != [] {
      SumSkippingZeroBound(e[1..]);
    }
  }

  /** On deck cards and expeditions no longer than the deck, every look-ahead
      is above -1000, so the endgame search discards exactly when no
      expedition is legal: the -1000 floor never turns down a legal play. */
  lemma EndgameDiscardsOnlyWhenStuck(rules: Rules, c: Card, exps: seq<seq<Card>>, deckSize: nat)
    requires ValidValue(c.value)
    requires forall k, i :: 0 <= k < |exps| && 0 <= i < |exps[k]| ==> ValidValue(exps[k][i].value)
    requires forall k :: 0 <= k < |exps| ==> |exps[k]| <= 60
    ensures ChooseDestination(rules, c, exps, deckSize).ToDiscard? <==>
      forall k :: 0 <= k < |exps| ==> !CanPlay(c, exps[k])
  {
    forall k | 0 <= k < |exps|
      ensures Potential(rules, exps[k], c) > NoPoints
    {
      SumSkippingZeroBound(exps[k]);
    }
  }

  // ---------------------------------------------------------------------------
  // The invariant of a game in progress

  /** Every discard pile holds cards of its own colour only. */
  predicate PilesByColour(piles: seq<seq<Card>>) {
    forall k, j :: 0 <= k < |piles| && 0 <= j < |piles[k]| ==> piles[k][j].color == k
  }

  /** A player holding `n` cards in sorted order, with five expeditions each
      built by legal plays. */
  predicate PlayerHolds(p: Player, n: nat) {
    && |p.hand| == n
    && Sorted(p.hand)
    && |p.expeditions| == NumColours
    && forall k :: 0 <= k < |p.expeditions| ==> WellShaped(p.expeditions[k])
  }

  /** The state of a game in progress, with the current player holding `n`
      cards and the other player a full hand: the 60 cards of the deck are
      all there, each exactly once (three times for an investment card). */
  ghost predicate Holding(g: GameState, n: nat) {
    && Shaped(g)
    && PlayerHolds(Current(g), n)
    && PlayerHolds(g.players[1 - g.current], HandSize)
    && PilesByColour(g.piles)
    && AllCounted(g)
  }

  /** The invariant at the start of every turn. */
  ghost predicate Consistent(g: GameState) {
    Holding(g, HandSize)
  }

  /** A card the source's choosers and discard pile can handle: its colour
      indexes a pile, and its value lies strictly between the 32-bit
      sentinels. */
  predicate Playable(c: Card) {
    0 <= c.color < NumColours && IntMin < c.value < IntMax
  }

  /** What takeTurn needs of the current player: a non-empty hand of playable
      cards. On an empty hand the choosers answer -1, which the source then
      uses as an index. */
  predicate TurnReady(g: GameState) {
    && Shaped(g)
    && Current(g).hand != []
    && forall i :: 0 <= i < |Current(g).hand| ==> Playable(Current(g).hand[i])
  }

  /** Every card of the game is counted as the deck counts it. */
  ghost predicate AllCounted(g: GameState)
    requires |g.players| == NumPlayers
  {
    forall c :: AllCards(g)[c] == CopiesInDeck(c)
  }

  /** A card the game holds somewhere is a deck card. */
  lemma CountedValid(g: GameState, c: Card)
    requires |g.players| == NumPlayers && AllCounted(g)
    requires AllCards(g)[c] > 0
    ensures ValidCard(c)
  {
    assert AllCards(g)[c] == CopiesInDeck(c);
  }

  lemma HandCardsValid(g: GameState, q: nat)
    requires |g.players| == NumPlayers && AllCounted(g) && q < NumPlayers
    ensures forall i :: 0 <= i < |g.players[q].hand| ==> ValidCard(g.players[q].hand[i])
  {
    forall i | 0 <= i < |g.players[q].hand|
      ensures ValidCard(g.players[q].hand[i])
    {
      var c := g.players[q].hand[i];
      assert c in multiset(g.players[q].hand);
      assert PlayerCards(g.players[q])[c] > 0;
      CountedValid(g, c);
    }
  }

  lemma ExpeditionCardsValid(g: GameState, q: nat, k: nat)
    requires |g.players| == NumPlayers && AllCounted(g) && q < NumPlayers
    requires k < |g.players[q].expeditions|
    ensures forall i :: 0 <= i < |g.players[q].expeditions[k]| ==> ValidCard(g.players[q].expeditions[k][i])
  {
    FlattenMember(g.players[q].expeditions, k);
    forall i | 0 <= i < |g.players[q].expeditions[k]|
      ensures ValidCard(g.players[q].expeditions[k][i])
    {
      var c := g.players[q].expeditions[k][i];
      assert c in multiset(g.players[q].expeditions[k]);
      assert PlayerCards(g.players[q])[c] > 0;
      CountedValid(g, c);
    }
  }

  lemma PileCardsValid(g: GameState, k: nat)
    requires |g.players| == NumPlayers && AllCounted(g) && k < |g.piles|
    ensures forall i :: 0 <= i < |g.piles[k]| ==> ValidCard(g.piles[k][i])
  {
    FlattenMember(g.piles, k);
    forall i | 0 <= i < |g.piles[k]|
      ensures ValidCard(g.piles[k][i])
    {
      var c := g.piles[k][i];
      assert c in multiset(g.piles[k]);
      CountedValid(g, c);
    }
  }

  /** The cards of a consistent game are deck cards, wherever they lie. */
  lemma HoldingCardsValid(g: GameState, n: nat)
    requires Holding(g, n)
    ensures forall i :: 0 <= i < |g.deck| ==> ValidCard(g.deck[i])
    ensures forall q, i :: 0 <= q < NumPlayers && 0 <= i < |g.players[q].hand| ==> ValidCard(g.players[q].hand[i])
    ensures forall q, k, i :: 0 <= q < NumPlayers && 0 <= k < NumColours && 0 <= i < |g.players[q].expeditions[k]| ==>
      ValidCard(g.players[q].expeditions[k][i])
    ensures forall k, i :: 0 <= k < NumColours && 0 <= i < |g.piles[k]| ==> ValidCard(g.piles[k][i])
  {
    assert AllCounted(g);
    forall i | 0 <= i < |g.deck|
      ensures ValidCard(g.deck[i])
    {
      assert g.deck[i] in multiset(g.deck);
      CountedValid(g, g.deck[i]);
    }
    forall q | 0 <= q < NumPlayers
      ensures forall i :: 0 <= i < |g.players[q].hand| ==> ValidCard(g.players[q].hand[i])
    {
      HandCardsValid(g, q);
    }
    forall q, k | 0 <= q < NumPlayers && 0 <= k < NumColours
      ensures forall i :: 0 <= i < |g.players[q].expeditions[k]| ==> ValidCard(g.players[q].expeditions[k][i])
    {
      ExpeditionCardsValid(g, q, k);
    }
    forall k | 0 <= k < NumColours
      ensures forall i :: 0 <= i < |g.piles[k]| ==> ValidCard(g.piles[k][i])
    {
      PileCardsValid(g, k);
    }
  }

  /** At the start of a turn of a consistent game, takeTurn is well defined. */
  lemma ConsistentIsTurnReady(g: GameState)
    requires Consistent(g)
    ensures TurnReady(g)
  {
    HoldingCardsValid(g, HandSize);
  }

  // ---------------------------------------------------------------------------
  // Putting the card down

  /** The end of takeTurn's first half: play the card on the destination
      expedition, or discard it on the pile of its colour. */
  function PutDown(g: GameState, idx: nat, d: Destination): (r: GameState)
    requires Shaped(g) && idx < |Current(g).hand|
    requires 0 <= Current(g).hand[idx].color < NumColours
    requires d.ToExpedition? ==> d.index < NumColours && CanPlay(Current(g).hand[idx], Current(g).expeditions[d.index])
    ensures Shaped(r) && r.deck == g.deck && r.current == g.current
    ensures r.players[1 - g.current] == g.players[1 - g.current]
    ensures d.ToExpedition? ==> r.piles == g.piles && Current(r) == PlayCard(Current(g), idx, d.index)
    ensures d.ToDiscard? ==> (Current(r), r.piles) == DiscardCard(Current(g), g.piles, idx)
  {
    match d
    case ToExpedition(k) => WithCurrent(g, PlayCard(Current(g), idx, k))
    case ToDiscard =>
      var moved := DiscardCard(Current(g), g.piles, idx);
      WithCurrent(g, moved.0).(piles := moved.1)
  }

  /** A move of the current player that keeps the sum of the deck, the
      piles and that player's cards keeps every card of the game. */
  lemma CurrentMoveKeepsCards(g: GameState, r: GameState)
    requires Shaped(g) && Shaped(r) && r.current == g.current
    requires r.players[1 - g.current] == g.players[1 - g.current]
    requires multiset(r.deck) + Flatten(r.piles) + PlayerCards(Current(r))
          == multiset(g.deck) + Flatten(g.piles) + PlayerCards(Current(g))
    ensures AllCards(r) == AllCards(g)
  {
    var o := 1 - g.current;
    if g.current == 0 {
      calc {
        AllCards(r);
        (multiset(r.deck) + Flatten(r.piles) + PlayerCards(Current(r))) + PlayerCards(r.players[o]);
        (multiset(g.deck) + Flatten(g.piles) + PlayerCards(Current(g))) + PlayerCards(g.players[o]);
        AllCards(g);
      }
    } else {
      calc {
        AllCards(r);
        (multiset(r.deck) + Flatten(r.piles) + PlayerCards(Current(r))) + PlayerCards(r.players[o]);
        (multiset(g.deck) + Flatten(g.piles) + PlayerCards(Current(g))) + PlayerCards(g.players[o]);
        AllCards(g);
      }
    }
  }

  /** Putting a card down loses no card. */
  lemma PutDownKeepsCards(g: GameState, idx: nat, d: Destination)
    requires Shaped(g) && idx < |Current(g).hand|
    requires 0 <= Current(g).hand[idx].color < NumColours
    requires d.ToExpedition? ==> d.index < NumColours && CanPlay(Current(g).hand[idx], Current(g).expeditions[d.index])
    ensures AllCards(PutDown(g, idx, d)) == AllCards(g)
  {
    var r := PutDown(g, idx, d);
    match d
    case ToExpedition(k) =>
      PlayCardKeepsCards(Current(g), idx, k);
      CurrentMoveKeepsCards(g, r);
    case ToDiscard =>
      DiscardCardKeepsCards(Current(g), g.piles, idx);
      calc {
        multiset(r.deck) + Flatten(r.piles) + PlayerCards(Current(r));
        multiset(g.deck) + (PlayerCards(Current(r)) + Flatten(r.piles));
        multiset(g.deck) + (PlayerCards(Current(g)) + Flatten(g.piles));
        multiset(g.deck) + Flatten(g.piles) + PlayerCards(Current(g));
      }
      CurrentMoveKeepsCards(g, r);
  }

  /** A legal play of a deck card keeps the player's hand sorted and every
      expedition well-shaped. */
  lemma PlayKeepsPlayerHolds(p: Player, idx: nat, k: nat, n: nat)
    requires PlayerHolds(p, n + 1) && idx < n + 1 && k < NumColours
    requires CanPlay(p.hand[idx], p.expeditions[k]) && ValidValue(p.hand[idx].value)
    ensures PlayerHolds(PlayCard(p, idx, k), n)
  {
    PlayCardKeepsCards(p, idx, k);
  }

  /** A discard keeps the player's hand sorted and every pile of one colour. */
  lemma DiscardKeepsShape(p: Player, piles: seq<seq<Card>>, idx: nat, n: nat)
    requires PlayerHolds(p, n + 1) && idx < n + 1
    requires |piles| == NumColours && 0 <= p.hand[idx].color < NumColours
    requires PilesByColour(piles)
    ensures PlayerHolds(DiscardCard(p, piles, idx).0, n)
    ensures PilesByColour(DiscardCard(p, piles, idx).1)
  {
    DiscardCardKeepsCards(p, piles, idx);
  }

  /** Putting a card down keeps the game's shape: the hand is one card
      shorter and still sorted, the expedition still well-shaped, the discard
      pile still of one colour. */
  lemma PutDownKeepsHolding(g: GameState, idx: nat, d: Destination, n: nat)
    requires Holding(g, n + 1) && idx < n + 1
    requires d.ToExpedition? ==> d.index < NumColours && CanPlay(Current(g).hand[idx], Current(g).expeditions[d.index])
    ensures 0 <= Current(g).hand[idx].color < NumColours
    ensures Holding(PutDown(g, idx, d), n)
  {
    HoldingCardsValid(g, n + 1);
    var p := Current(g);
    assert ValidCard(p.hand[idx]);
    PutDownKeepsCards(g, idx, d);
    match d
    case ToExpedition(k) =>
      PlayKeepsPlayerHolds(p, idx, k, n);
    case ToDiscard =>
      DiscardKeepsShape(p, g.piles, idx, n);
  }

  // ---------------------------------------------------------------------------
  // Drawing

  function Back(deck: seq<Card>): Card
    requires deck != []
  {
    deck[|deck| - 1]
  }

  /** drawCardFromDeck: the back card of the deck joins the current hand; an
      empty deck changes nothing. */
  function DrawFromDeck(g: GameState): (r: GameState)
    requires Shaped(g)
    ensures Shaped(r) && r.current == g.current && r.piles == g.piles
    ensures r.players[1 - g.current] == g.players[1 - g.current]
    ensures g.deck == [] ==> r == g
    ensures g.deck != [] ==>
      && r.deck == g.deck[..|g.deck| - 1]
      && Current(r) == DrawInto(Current(g), Back(g.deck))
  {
    if g.deck == [] then g
    else WithCurrent(g, DrawInto(Current(g), Back(g.deck))).(deck := g.deck[..|g.deck| - 1])
  }

  /** The discard draw: the front card of pile `k` joins the current hand. */
  function DrawDiscard(g: GameState, k: nat): (r: GameState)
    requires Shaped(g) && k < NumColours
    ensures Shaped(r) && r.current == g.current && r.deck == g.deck
    ensures r.players[1 - g.current] == g.players[1 - g.current]
    ensures (Current(r), r.piles) == DrawFromDiscard(Current(g), g.piles, k)
  {
    var moved := DrawFromDiscard(Current(g), g.piles, k);
    WithCurrent(g, moved.0).(piles := moved.1)
  }

  /** A deck draw moves the back card of the deck into the hand. */
  lemma DrawFromDeckKeepsCards(g: GameState)
    requires Shaped(g)
    ensures AllCards(DrawFromDeck(g)) == AllCards(g)
  {
    var r := DrawFromDeck(g);
    if g.deck != [] {
      var d := g.deck;
      assert d == d[..|d| - 1] + [Back(d)];
      calc {
        multiset(r.deck) + Flatten(r.piles) + PlayerCards(Current(r));
        multiset(d[..|d| - 1]) + Flatten(g.piles) + (PlayerCards(Current(g)) + multiset{Back(d)});
        (multiset(d[..|d| - 1]) + multiset{Back(d)}) + Flatten(g.piles) + PlayerCards(Current(g));
        multiset(g.deck) + Flatten(g.piles) + PlayerCards(Current(g));
      }
      CurrentMoveKeepsCards(g, r);
    }
  }

  /** A discard draw moves the front card of the pile into the hand. */
  lemma DrawDiscardKeepsCards(g: GameState, k: nat)
    requires Shaped(g) && k < NumColours
    ensures AllCards(DrawDiscard(g, k)) == AllCards(g)
  {
    var r := DrawDiscard(g, k);
    DrawFromDiscardKeepsCards(Current(g), g.piles, k);
    calc {
      multiset(r.deck) + Flatten(r.piles) + PlayerCards(Current(r));
      multiset(g.deck) + (PlayerCards(Current(r)) + Flatten(r.piles));
      multiset(g.deck) + (PlayerCards(Current(g)) + Flatten(g.piles));
      multiset(g.deck) + Flatten(g.piles) + PlayerCards(Current(g));
    }
    CurrentMoveKeepsCards(g, r);
  }

  /** A deck draw keeps the game's shape: the hand grows by one and stays
      sorted. */
  lemma DrawFromDeckKeepsHolding(g: GameState, n: nat)
    requires Holding(g, n) && g.deck != []
    ensures Holding(DrawFromDeck(g), n + 1)
  {
    DrawFromDeckKeepsCards(g);
  }

  /** A discard draw from a non-empty pile keeps the game's shape: the hand
      grows by one and stays sorted, and the pile keeps its colour. */
  lemma DrawDiscardKeepsHolding(g: GameState, k: nat, n: nat)
    requires Holding(g, n) && k < NumColours && g.piles[k] != []
    ensures Holding(DrawDiscard(g, k), n + 1)
  {
    var r := DrawDiscard(g, k);
    DrawDiscardKeepsCards(g, k);
    forall j, i | 0 <= j < |r.piles| && 0 <= i < |r.piles[j]|
      ensures r.piles[j][i].color == j
    {
      if j == k {
        assert r.piles[j][i] == g.piles[k][i + 1];
      }
    }
  }

  /** The draw of main.cpp's takeTurn. With more than 10 cards in the deck,
      the front of the first pile that tempts the current player (below 5 for
      the first player, above 5 for the second), else the deck; with 10 or
      fewer, always the deck. */
  function DrawMain(g: GameState): (r: GameState)
    requires Shaped(g)
    ensures Shaped(r) && r.current == g.current
    ensures r.players[1 - g.current] == g.players[1 - g.current]
    ensures |g.deck| <= EndgameDeck ==> r == DrawFromDeck(g)
    ensures |g.deck| > EndgameDeck ==>
      (r.deck == g.deck <==> exists k :: 0 <= k < NumColours && Tempting(g.piles[k], g.current))
    ensures |g.deck| > EndgameDeck && r.deck == g.deck ==>
      exists k ::
        && 0 <= k < NumColours && Tempting(g.piles[k], g.current)
        && (forall j :: 0 <= j < k ==> !Tempting(g.piles[j], g.current))
        && Current(r) == DrawInto(Current(g), Front(g.piles[k]))
        && r.piles == g.piles[k := g.piles[k][1..]]
    ensures |g.deck| > EndgameDeck && r.deck != g.deck ==> r == DrawFromDeck(g)
  {
    if |g.deck| > EndgameDeck then
      match ThresholdChoice(g.piles, g.current)
      case Some(k) => DrawDiscard(g, k)
      case None => DrawFromDeck(g)
    else DrawFromDeck(g)
  }

  /** The typed players' reason to take a discard: there is a non-empty pile,
      and the coin says so (type 0), or the front of the first non-empty pile
      beats the hand's mean of its colour (type 1), or some pile's front beats
      the hand's mean of its colour (type 2). */
  ghost predicate WantsDiscard(g: GameState, kind: int, coin: bool)
    requires Shaped(g)
  {
    match FirstNonEmpty(g.piles)
    case None => false
    case Some(k) =>
      || (kind == 0 && coin)
      || (kind == 1 && FrontBeatsHand(g.piles[k], Current(g).hand))
      || (kind == 2 && exists j :: 0 <= j < |g.piles| && PileBeatsHand(g.piles[j], Current(g).hand))
  }

  /** The policy answer of drawCardDecision for player types 0, 1 and 2,
      with `k` the first non-empty pile: take the discard or not. */
  function DiscardDecision(g: GameState, kind: int, coin: bool, k: nat): (r: bool)
    requires Shaped(g) && 0 <= kind <= 2
    requires FirstNonEmpty(g.piles) == Some(k)
    ensures r <==> WantsDiscard(g, kind, coin)
  {
    if kind == 0 then coin
    else if kind == 1 then MeanRule(g.piles[k], Current(g).hand)
    else MultiPileRule(g.piles, Current(g).hand)
  }

  /** drawCardDecision of testes.cpp. Nothing happens on an empty deck. The
      discard drawn is always the first non-empty pile, whichever pile the
      policy looked at; with every pile empty the deck is drawn. A player type
      other than 0, 1 or 2 draws nothing while some pile is non-empty. */
  function DrawTyped(g: GameState, kind: int, coin: bool): (r: GameState)
    requires Shaped(g)
    ensures Shaped(r) && r.current == g.current
    ensures r.players[1 - g.current] == g.players[1 - g.current]
    ensures g.deck == [] ==> r == g
    ensures g.deck != [] && WantsDiscard(g, kind, coin) ==>
      && FirstNonEmpty(g.piles).Some?
      && r == DrawDiscard(g, FirstNonEmpty(g.piles).value)
    ensures g.deck != [] && !WantsDiscard(g, kind, coin) && (0 <= kind <= 2 || FirstNonEmpty(g.piles).None?) ==>
      r == DrawFromDeck(g)
    ensures g.deck != [] && FirstNonEmpty(g.piles).Some? && !(0 <= kind <= 2) ==> r == g
  {
    if g.deck == [] then g
    else
      match FirstNonEmpty(g.piles)
      case None => DrawFromDeck(g)
      case Some(k) =>
        if !(0 <= kind <= 2) then g
        else if DiscardDecision(g, kind, coin, k) then DrawDiscard(g, k)
        else DrawFromDeck(g)
  }

  // ---------------------------------------------------------------------------
  // The turn

  /** The card choice of main.cpp's takeTurn: the first player puts down its
      lowest card, the second its highest. */
  function MainCardChoice(g: GameState): (idx: nat)
    requires TurnReady(g)
    ensures idx < |Current(g).hand|
    ensures g.current == 0 ==> IsFirstLowest(Current(g).hand, idx)
    ensures g.current != 0 ==> IsFirstHighest(Current(g).hand, idx)
  {
    var hand := Current(g).hand;
    assert Playable(hand[0]);
    if g.current == 0 then ChooseLowest(hand) else ChooseHighest(hand)
  }

  /** takeTurn of main.cpp: choose a card, put it down, draw, and hand the turn
      to the other player. The deck loses at most its back card. */
  function TakeTurnMain(g: GameState): (r: GameState)
    requires TurnReady(g)
    ensures Shaped(r) && r.current == 1 - g.current
  {
    var after := DrawMain(PutDownMain(g));
    after.(current := 1 - after.current)
  }

  /** The first half of main.cpp's takeTurn: choose the card by seat and put
      it down where the main.cpp look-ahead says. */
  function PutDownMain(g: GameState): (r: GameState)
    requires TurnReady(g)
    ensures Shaped(r) && r.current == g.current && r.deck == g.deck
  {
    var p := Current(g);
    var idx := MainCardChoice(g);
    assert Playable(p.hand[idx]);
    PutDown(g, idx, ChooseDestination(MainRules, p.hand[idx], p.expeditions, |g.deck|))
  }

  /** The player type whose turn it is. */
  function CurrentKind(g: GameState, kinds: (int, int)): int {
    if g.current == 0 then kinds.0 else kinds.1
  }

  /** The oracle of one typed turn: the uniform index of the random card
      choice and the coin of the random draw choice. */
  datatype Oracle = Oracle(pick: nat, coin: bool)

  /** The card choice of testes.cpp's takeTurn: a random card for type 0,
      the lowest for type 1, the proximity choice for any other type. */
  function TypedCardChoice(g: GameState, kind: int, pick: nat): (idx: nat)
    requires TurnReady(g)
    ensures idx < |Current(g).hand|
    ensures kind == 0 && pick < |Current(g).hand| ==> idx == pick
    ensures kind == 1 ==> IsFirstLowest(Current(g).hand, idx)
    ensures kind != 0 && kind != 1 && (exists i, j :: Matches(Current(g).hand, Current(g).expeditions, i, j)) ==>
      exists j :: IsClosestPair(Current(g).hand, Current(g).expeditions, idx, j)
    ensures kind != 0 && kind != 1 && (forall i, j :: !Matches(Current(g).hand, Current(g).expeditions, i, j)) ==>
      IsFirstLowest(Current(g).hand, idx)
  {
    var hand := Current(g).hand;
    assert Playable(hand[0]);
    if kind == 0 then RandomIndex(hand, pick)
    else if kind == 1 then ChooseLowest(hand)
    else
      var r := ChooseProximity(hand, Current(g).expeditions);
      assert r != -1 ==> 0 <= r < |hand|;
      r
  }

  /** The player switch of testes.cpp, the next seat modulo the number of
      players: for two players it is the other seat, as in main.cpp. */
  function NextSeat(current: nat): (r: nat)
    requires current < NumPlayers
    ensures r < NumPlayers && r != current
    ensures r == 1 - current
  {
    (current + 1) % 2
  }

  /** The first half of testes.cpp's takeTurn: choose a card by type and
      put it down where the testes.cpp look-ahead says. */
  function PutDownTyped(g: GameState, kind: int, pick: nat): (r: GameState)
    requires TurnReady(g)
    ensures Shaped(r) && r.current == g.current && r.deck == g.deck
  {
    var p := Current(g);
    var idx := TypedCardChoice(g, kind, pick);
    assert Playable(p.hand[idx]);
    PutDown(g, idx, ChooseDestination(TestRules, p.hand[idx], p.expeditions, |g.deck|))
  }

  /** takeTurn of testes.cpp: the current player's type picks the card and
      the draw policy; the look-ahead is the testes.cpp variant. */
  function TakeTurnTyped(g: GameState, kinds: (int, int), o: Oracle): (r: GameState)
    requires TurnReady(g)
    ensures Shaped(r) && r.current == 1 - g.current
  {
    var kind := CurrentKind(g, kinds);
    var after := DrawTyped(PutDownTyped(g, kind, o.pick), kind, o.coin);
    after.(current := NextSeat(after.current))
  }

  /** Handing the turn over keeps the invariant, the other player holding a
      full hand too. */
  lemma SwitchKeepsConsistent(g: GameState)
    requires Holding(g, HandSize)
    ensures Consistent(g.(current := 1 - g.current))
  {
  }

  /** The draw of main.cpp neither loses nor creates a card. */
  lemma DrawMainKeepsCards(g: GameState)
    requires Shaped(g)
    ensures AllCards(DrawMain(g)) == AllCards(g)
  {
    if |g.deck| > EndgameDeck && ThresholdChoice(g.piles, g.current).Some? {
      DrawDiscardKeepsCards(g, ThresholdChoice(g.piles, g.current).value);
    } else {
      DrawFromDeckKeepsCards(g);
    }
  }

  /** The draw of testes.cpp neither loses nor creates a card. */
  lemma DrawTypedKeepsCards(g: GameState, kind: int, coin: bool)
    requires Shaped(g)
    ensures AllCards(DrawTyped(g, kind, coin)) == AllCards(g)
  {
    DrawFromDeckKeepsCards(g);
    if FirstNonEmpty(g.piles).Some? {
      DrawDiscardKeepsCards(g, FirstNonEmpty(g.piles).value);
    }
  }

  /** The draw of main.cpp, at a turn where the deck is not empty, always
      draws exactly one card. */
  lemma DrawMainKeepsHolding(g: GameState, n: nat)
    requires Holding(g, n) && g.deck != []
    ensures Holding(DrawMain(g), n + 1)
  {
    if |g.deck| > EndgameDeck && ThresholdChoice(g.piles, g.current).Some? {
      DrawDiscardKeepsHolding(g, ThresholdChoice(g.piles, g.current).value, n);
    } else {
      DrawFromDeckKeepsHolding(g, n);
    }
  }

  /** The draw of testes.cpp, for player types 0, 1 and 2 at a turn where the
      deck is not empty, always draws exactly one card. */
  lemma DrawTypedKeepsHolding(g: GameState, kind: int, coin: bool, n: nat)
    requires Holding(g, n) && g.deck != [] && 0 <= kind <= 2
    ensures Holding(DrawTyped(g, kind, coin), n + 1)
  {
    match FirstNonEmpty(g.piles)
    case None =>
      DrawFromDeckKeepsHolding(g, n);
    case Some(k) =>
      if DiscardDecision(g, kind, coin, k) {
        DrawDiscardKeepsHolding(g, k, n);
      } else {
        DrawFromDeckKeepsHolding(g, n);
      }
  }

  /** One turn of main.cpp neither loses nor creates a card. */
  lemma TurnMainKeepsCards(g: GameState)
    requires TurnReady(g)
    ensures AllCards(TakeTurnMain(g)) == AllCards(g)
  {
    var p := Current(g);
    var idx := MainCardChoice(g);
    var d := ChooseDestination(MainRules, p.hand[idx], p.expeditions, |g.deck|);
    assert Playable(p.hand[idx]);
    PutDownKeepsCards(g, idx, d);
    DrawMainKeepsCards(PutDownMain(g));
  }

  /** One turn of testes.cpp neither loses nor creates a card. */
  lemma TurnTypedKeepsCards(g: GameState, kinds: (int, int), o: Oracle)
    requires TurnReady(g)
    ensures AllCards(TakeTurnTyped(g, kinds, o)) == AllCards(g)
  {
    var p := Current(g);
    var kind := CurrentKind(g, kinds);
    var idx := TypedCardChoice(g, kind, o.pick);
    var d := ChooseDestination(TestRules, p.hand[idx], p.expeditions, |g.deck|);
    assert Playable(p.hand[idx]);
    PutDownKeepsCards(g, idx, d);
    DrawTypedKeepsCards(PutDownTyped(g, kind, o.pick), kind, o.coin);
  }

  /** A turn of main.cpp on a consistent game with a non-empty deck is well
      defined and leaves a consistent game: every turn starts with two full
      sorted hands, well-shaped expeditions, one-coloured piles and all 60
      cards. */
  lemma TurnMainKeepsConsistent(g: GameState)
    requires Consistent(g) && g.deck != []
    ensures TurnReady(g)
    ensures Consistent(TakeTurnMain(g))
  {
    ConsistentIsTurnReady(g);
    var p := Current(g);
    var idx := MainCardChoice(g);
    var d := ChooseDestination(MainRules, p.hand[idx], p.expeditions, |g.deck|);
    PutDownKeepsHolding(g, idx, d, HandSize - 1);
    DrawMainKeepsHolding(PutDownMain(g), HandSize - 1);
    SwitchKeepsConsistent(DrawMain(PutDownMain(g)));
  }

  /** The same for testes.cpp, when both player types are 0, 1 or 2. */
  lemma TurnTypedKeepsConsistent(g: GameState, kinds: (int, int), o: Oracle)
    requires Consistent(g) && g.deck != []
    requires 0 <= kinds.0 <= 2 && 0 <= kinds.1 <= 2
    ensures TurnReady(g)
    ensures Consistent(TakeTurnTyped(g, kinds, o))
  {
    ConsistentIsTurnReady(g);
    var p := Current(g);
    var kind := CurrentKind(g, kinds);
    var idx := TypedCardChoice(g, kind, o.pick);
    var d := ChooseDestination(TestRules, p.hand[idx], p.expeditions, |g.deck|);
    PutDownKeepsHolding(g, idx, d, HandSize - 1);
    DrawTypedKeepsHolding(PutDownTyped(g, kind, o.pick), kind, o.coin, HandSize - 1);
    SwitchKeepsConsistent(DrawTyped(PutDownTyped(g, kind, o.pick), kind, o.coin));
  }

  /** A turn of main.cpp takes at most the back card of the deck, and with 10
      or fewer cards left it always takes it. */
  lemma TurnMainDeck(g: GameState)
    requires TurnReady(g)
    ensures var r := TakeTurnMain(g);
      r.deck == g.deck || (g.deck != [] && r.deck == g.deck[..|g.deck| - 1])
    ensures var r := TakeTurnMain(g);
      |g.deck| <= EndgameDeck && g.deck != [] ==> r.deck == g.deck[..|g.deck| - 1]
  {
  }

  /** A turn of testes.cpp takes at most the back card of the deck. */
  lemma TurnTypedDeck(g: GameState, kinds: (int, int), o: Oracle)
    requires TurnReady(g)
    ensures var r := TakeTurnTyped(g, kinds, o);
      r.deck == g.deck || (g.deck != [] && r.deck == g.deck[..|g.deck| - 1])
  {
  }

  // ---------------------------------------------------------------------------
  // Setting up

  /** dealInitialCards for one player: the back card of the deck joins the
      hand until `keep` cards are left. The player gets the cards after the
      first `keep`. */
  function DealTo(p: Player, deck: seq<Card>, keep: nat): (r: (Player, seq<Card>))
    requires keep <= |deck|
    ensures r.1 == deck[..keep]
    ensures multiset(r.0.hand) == multiset(p.hand) + multiset(deck[keep..])
    ensures |r.0.hand| == |p.hand| + |deck| - keep
    ensures r.0.expeditions == p.expeditions
    ensures keep < |deck| || Sorted(p.hand) ==> Sorted(r.0.hand)
    decreases |deck|
  {
    if |deck| == keep then
      assert deck[keep..] == [];
      (p, deck)
    else
      DealStep(deck, keep);
      DealTo(DrawInto(p, Back(deck)), deck[..|deck| - 1], keep)
  }

  /** Dealing down to `keep` cards is dealing the back card, then dealing the
      rest down to `keep` cards. */
  lemma DealStep(deck: seq<Card>, keep: nat)
    requires keep < |deck|
    ensures var rest := deck[..|deck| - 1];
      && multiset(deck[keep..]) == multiset{Back(deck)} + multiset(rest[keep..])
      && deck[..keep] == rest[..keep]
  {
    var rest := deck[..|deck| - 1];
    assert deck[keep..] == rest[keep..] + [Back(deck)];
  }

  /** The five empty discard piles. */
  function NoPiles(): (r: seq<seq<Card>>)
    ensures |r| == NumColours && Flatten(r) == multiset{}
    ensures forall k :: 0 <= k < |r| ==> r[k] == []
  {
    var r := [[], [], [], [], []];
    FlattenEmpty(r);
    r
  }

  /** A fresh player dealt the last `n` cards of the deck: a sorted hand of
      exactly those cards and five empty expeditions. */
  function DealPlayer(deck: seq<Card>, n: nat): (r: (Player, seq<Card>))
    requires n <= |deck|
    ensures PlayerHolds(r.0, n)
    ensures PlayerCards(r.0) == multiset(deck[|deck| - n..])
    ensures multiset(r.0.hand) == multiset(deck[|deck| - n..])
    ensures r.1 == deck[..|deck| - n]
    ensures forall k :: 0 <= k < NumColours ==> r.0.expeditions[k] == []
  {
    var blank := NewPlayer();
    var r := DealTo(blank, deck, |deck| - n);
    assert r.0.expeditions == blank.expeditions;
    assert forall k :: 0 <= k < NumColours ==> WellShaped(r.0.expeditions[k]) by {
      forall k | 0 <= k < NumColours
        ensures WellShaped(r.0.expeditions[k])
      {
        assert r.0.expeditions[k] == [];
      }
    }
    r
  }

  /** The constructor of Game, after initializeDeck and shuffleDeck: the
      shuffled deck is any order of the 60 cards. The first player gets the
      last 8 cards, the second the 8 before them; the first player moves
      first. */
  function NewGame(shuffled: seq<Card>): (r: GameState)
    requires IsFullDeck(shuffled) && |shuffled| == 60
    ensures Consistent(r) && r.current == 0
    ensures r.deck == shuffled[..44]
    ensures multiset(r.players[0].hand) == multiset(shuffled[52..])
    ensures multiset(r.players[1].hand) == multiset(shuffled[44..52])
    ensures forall q, k :: 0 <= q < NumPlayers && 0 <= k < NumColours ==> r.players[q].expeditions[k] == []
    ensures forall k :: 0 <= k < NumColours ==> r.piles[k] == []
  {
    var first := DealPlayer(shuffled, HandSize);
    var second := DealPlayer(first.1, HandSize);
    var r := GameState(second.1, NoPiles(), [first.0, second.0], 0);
    NewGameCounted(shuffled);
    assert first.1[44..] == shuffled[44..52];
    assert Shaped(r) && Current(r) == first.0;
    assert PilesByColour(r.piles);
    assert Holding(r, HandSize);
    r
  }

  /** After the deal the game holds exactly the cards of the shuffled deck. */
  lemma NewGameCounted(shuffled: seq<Card>)
    requires IsFullDeck(shuffled) && |shuffled| == 60
    ensures var first := DealPlayer(shuffled, HandSize);
      var second := DealPlayer(first.1, HandSize);
      AllCounted(GameState(second.1, NoPiles(), [first.0, second.0], 0))
  {
    var first := DealPlayer(shuffled, HandSize);
    var second := DealPlayer(first.1, HandSize);
    var r := GameState(second.1, NoPiles(), [first.0, second.0], 0);
    assert first.1[44..] == shuffled[44..52];
    DealtCards(shuffled, first.0, second.0, second.1);
    assert AllCards(r) == multiset(shuffled);
  }

  /** The three parts of the shuffled deck after the deal hold its cards. */
  lemma DealtCards(shuffled: seq<Card>, p0: Player, p1: Player, deck: seq<Card>)
    requires |shuffled| == 60
    requires PlayerCards(p0) == multiset(shuffled[52..])
    requires PlayerCards(p1) == multiset(shuffled[44..52])
    requires deck == shuffled[..44]
    ensures multiset(deck) + Flatten(NoPiles()) + PlayerCards(p0) + PlayerCards(p1) == multiset(shuffled)
  {
    assert shuffled == shuffled[..44] + shuffled[44..52] + shuffled[52..];
  }

  // ---------------------------------------------------------------------------
  // Playing a game

  /** isGameOver: the game ends when the deck is empty. */
  predicate IsGameOver(g: GameState) {
    g.deck == []
  }

  /** `short` is `long` with some cards taken off its back. */
  predicate DeckPrefix(short: seq<Card>, long: seq<Card>) {
    |short| <= |long| && short == long[..|short|]
  }

  /** playGame of main.cpp, for at most `fuel` turns: turns until the deck is
      empty. The game stays consistent, and the deck only ever loses cards
      from its back. Once the deck is down to 10 cards every turn draws from
      it, so from there the game ends within that many turns. */
  function PlayMain(g: GameState, fuel: nat): (r: GameState)
    requires Consistent(g)
    ensures Consistent(r)
    ensures DeckPrefix(r.deck, g.deck)
    ensures IsGameOver(g) ==> r == g
    ensures |g.deck| <= EndgameDeck && fuel >= |g.deck| ==> IsGameOver(r)
    decreases fuel
  {
    if IsGameOver(g) || fuel == 0 then g
    else
      TurnMainStep(g);
      PlayMain(TakeTurnMain(g), fuel - 1)
  }

  /** A deck that is kept or loses its back card keeps a prefix of the old
      deck. */
  lemma DeckStep(deck: seq<Card>, after: seq<Card>)
    requires after == deck || (deck != [] && after == deck[..|deck| - 1])
    ensures DeckPrefix(after, deck)
  {
  }

  /** One turn of main.cpp, as the game loop sees it. */
  lemma TurnMainStep(g: GameState)
    requires Consistent(g) && !IsGameOver(g)
    ensures TurnReady(g)
    ensures Consistent(TakeTurnMain(g))
    ensures DeckPrefix(TakeTurnMain(g).deck, g.deck)
    ensures |g.deck| <= EndgameDeck ==> |TakeTurnMain(g).deck| == |g.deck| - 1
  {
    TurnMainKeepsConsistent(g);
    TurnMainDeck(g);
    DeckStep(g.deck, TakeTurnMain(g).deck);
  }

  /** One turn of testes.cpp, as the game loop sees it. */
  lemma TurnTypedStep(g: GameState, kinds: (int, int), o: Oracle)
    requires Consistent(g) && !IsGameOver(g)
    requires 0 <= kinds.0 <= 2 && 0 <= kinds.1 <= 2
    ensures TurnReady(g)
    ensures Consistent(TakeTurnTyped(g, kinds, o))
    ensures DeckPrefix(TakeTurnTyped(g, kinds, o).deck, g.deck)
  {
    TurnTypedKeepsConsistent(g, kinds, o);
    TurnTypedDeck(g, kinds, o);
    DeckStep(g.deck, TakeTurnTyped(g, kinds, o).deck);
  }

  /** choosePlayersForMatch: the first player is of type 1, the second of
      type 2. */
  function ChoosePlayersForMatch(): (kinds: (int, int))
    ensures 0 <= kinds.0 <= 2 && 0 <= kinds.1 <= 2
  {
    (1, 2)
  }

  lemma DeckPrefixTrans(a: seq<Card>, b: seq<Card>, c: seq<Card>)
    requires DeckPrefix(a, b) && DeckPrefix(b, c)
    ensures DeckPrefix(a, c)
  {
  }

  /** playGame of testes.cpp, one oracle per turn: turns until the deck is
      empty or the oracles run out. */
  function PlayTyped(g: GameState, kinds: (int, int), oracles: seq<Oracle>): (r: GameState)
    requires Consistent(g)
    requires 0 <= kinds.0 <= 2 && 0 <= kinds.1 <= 2
    ensures Consistent(r)
    ensures DeckPrefix(r.deck, g.deck)
    ensures IsGameOver(g) ==> r == g
    decreases |oracles|
  {
    if IsGameOver(g) || oracles == [] then g
    else
      TurnTypedStep(g, kinds, oracles[0]);
      var next := TakeTurnTyped(g, kinds, oracles[0]);
      var r := PlayTyped(next, kinds, oracles[1..]);
      DeckPrefixTrans(r.deck, next.deck, g.deck);
      r
  }

  /** A match of testes.cpp: the players chosen by choosePlayersForMatch. */
  function PlayMatch(g: GameState, oracles: seq<Oracle>): (r: GameState)
    requires Consistent(g)
    ensures Consistent(r)
    ensures DeckPrefix(r.deck, g.deck)
  {
    PlayTyped(g, ChoosePlayersForMatch(), oracles)
  }

  /** calculateScores: each player's score, walking each expedition from
      its top. */
  method CalculateScores(g: GameState) returns (first: int, second: int)
    requires |g.players| == NumPlayers
    ensures first == PlayerScore(g.players[0].expeditions)
    ensures second == PlayerScore(g.players[1].expeditions)
  {
    first := PlayerScoreFromTop(g.players[0].expeditions);
    second := PlayerScoreFromTop(g.players[1].expeditions);
  }
}
