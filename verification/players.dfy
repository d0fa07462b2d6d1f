/** A player: a sorted hand and five expeditions, and the moves that change
    them (the class Player of both source files).
 */
module Players {
  import opened Cards
  import opened Expeditions
  import opened DrawChoice

  datatype Player = Player(hand: seq<Card>, expeditions: seq<seq<Card>>)

  /** Every card of a sequence of piles. */
  function Flatten(ss: seq<seq<Card>>): multiset<Card> {
    if ss == [] then multiset{} else multiset(ss[0]) + Flatten(ss[1..])
  }

  /** Every card a player holds or has played. */
  function PlayerCards(p: Player): multiset<Card> {
    multiset(p.hand) + Flatten(p.expeditions)
  }

  /** Replacing one pile replaces its cards in the flattened multiset. */
  lemma {:induction false} FlattenUpdate(ss: seq<seq<Card>>, k: nat, t: seq<Card>)
    requires k < |ss|
    ensures Flatten(ss[k := t]) + multiset(ss[k]) == Flatten(ss) + multiset(t)
  {
    var u := ss[k := t];
    if k == 0 {
      assert u[1..] == ss[1..];
    } else {
      var tail := ss[1..];
      assert u[0] == ss[0];
      assert u[1..] == tail[k - 1 := t];
      assert tail[k - 1] == ss[k];
      FlattenUpdate(tail, k - 1, t);
      var a := multiset(ss[0]);
      var b := Flatten(tail[k - 1 := t]);
      assert Flatten(u) == a + b;
      assert Flatten(ss) == a + Flatten(tail);
      calc {
        Flatten(u) + multiset(ss[k]);
        a + (b + multiset(ss[k]));
        a + (Flatten(tail) + multiset(t));
        Flatten(ss) + multiset(t);
      }
    }
  }

  lemma MultisetCancel(x: multiset<Card>, y: multiset<Card>, m: multiset<Card>)
    requires x + m == y + m
    ensures x == y
  {
    forall c | true
      ensures x[c] == y[c]
    {
      assert (x + m)[c] == (y + m)[c];
    }
  }

  /** Pushing a card on pile `k` adds it to the flattened multiset. */
  lemma FlattenPush(ss: seq<seq<Card>>, k: nat, c: Card)
    requires k < |ss|
    ensures Flatten(ss[k := ss[k] + [c]]) == Flatten(ss) + multiset{c}
  {
    FlattenUpdate(ss, k, ss[k] + [c]);
    assert multiset(ss[k] + [c]) == multiset(ss[k]) + multiset{c};
    MultisetCancel(Flatten(ss[k := ss[k] + [c]]), Flatten(ss) + multiset{c}, multiset(ss[k]));
  }

  /** Taking the front card of pile `k` removes it from the flattened multiset. */
  lemma FlattenPop(ss: seq<seq<Card>>, k: nat)
    requires k < |ss| && ss[k] != []
    ensures Flatten(ss[k := ss[k][1..]]) + multiset{ss[k][0]} == Flatten(ss)
  {
    var pile := ss[k];
    FlattenUpdate(ss, k, pile[1..]);
    assert pile == [pile[0]] + pile[1..];
    assert multiset(pile) == multiset{pile[0]} + multiset(pile[1..]);
    MultisetCancel(Flatten(ss[k := pile[1..]]) + multiset{pile[0]}, Flatten(ss), multiset(pile[1..]));
  }

  /** Piles that are all empty hold no cards. */
  lemma {:induction false} FlattenEmpty(ss: seq<seq<Card>>)
    requires forall k :: 0 <= k < |ss| ==> ss[k] == []
    ensures Flatten(ss) == multiset{}
  {
    if ss != [] {
      FlattenEmpty(ss[1..]);
    }
  }

  lemma {:induction false} FlattenMember(ss: seq<seq<Card>>, k: nat)
    requires k < |ss|
    ensures multiset(ss[k]) <= Flatten(ss)
  {
    if k > 0 {
      FlattenMember(ss[1..], k - 1);
    }
  }

  /** Player(): an empty hand and five empty expeditions. */
  function NewPlayer(): (r: Player)
    ensures r.hand == [] && |r.expeditions| == NumColours
    ensures forall k :: 0 <= k < NumColours ==> r.expeditions[k] == []
    ensures Flatten(r.expeditions) == multiset{}
    ensures PlayerCards(r) == multiset{}
  {
    var r := Player([], [[], [], [], [], []]);
    FlattenEmpty(r.expeditions);
    r
  }

  /** drawCard: the card joins the hand, which is then sorted. */
  function DrawInto(p: Player, c: Card): (r: Player)
    ensures Sorted(r.hand) && |r.hand| == |p.hand| + 1
    ensures multiset(r.hand) == multiset(p.hand) + multiset{c}
    ensures r.expeditions == p.expeditions
    ensures PlayerCards(r) == PlayerCards(p) + multiset{c}
  {
    p.(hand := DrawCard(p.hand, c))
  }

  /** playCard, for a legal pair only: the source retries an illegal play by
      calling itself with the same arguments, which never returns. The card
      leaves the hand and goes on top of expedition `k`. */
  function PlayCard(p: Player, idx: nat, k: nat): (r: Player)
    requires idx < |p.hand| && k < |p.expeditions|
    requires CanPlay(p.hand[idx], p.expeditions[k])
    ensures |r.expeditions| == |p.expeditions| && |r.hand| == |p.hand| - 1
    ensures r.expeditions[k] == p.expeditions[k] + [p.hand[idx]]
    ensures forall j :: 0 <= j < |p.expeditions| && j != k ==> r.expeditions[j] == p.expeditions[j]
    ensures multiset(r.hand) + multiset{p.hand[idx]} == multiset(p.hand)
  {
    Player(RemoveAt(p.hand, idx), p.expeditions[k := p.expeditions[k] + [p.hand[idx]]])
  }

  /** A play moves a card and loses none: the player's cards are the same
      multiset, the hand stays sorted and the expedition keeps its shape. */
  lemma PlayCardKeepsCards(p: Player, idx: nat, k: nat)
    requires idx < |p.hand| && k < |p.expeditions|
    requires CanPlay(p.hand[idx], p.expeditions[k])
    ensures PlayerCards(PlayCard(p, idx, k)) == PlayerCards(p)
    ensures Sorted(p.hand) ==> Sorted(PlayCard(p, idx, k).hand)
    ensures WellShaped(p.expeditions[k]) && ValidValue(p.hand[idx].value) ==>
      WellShaped(PlayCard(p, idx, k).expeditions[k])
  {
    var c := p.hand[idx];
    var e := p.expeditions[k];
    var r := PlayCard(p, idx, k);
    FlattenPush(p.expeditions, k, c);
    if WellShaped(e) && ValidValue(c.value) {
      CanPlayIffShapeKept(c, e);
    }
  }

  /** discardCard: the card leaves the hand and joins the back of the pile of
      its colour. */
  function DiscardCard(p: Player, piles: seq<seq<Card>>, idx: nat): (r: (Player, seq<seq<Card>>))
    requires idx < |p.hand| && 0 <= p.hand[idx].color < |piles|
    ensures r.0.expeditions == p.expeditions && |r.0.hand| == |p.hand| - 1
    ensures multiset(r.0.hand) + multiset{p.hand[idx]} == multiset(p.hand)
    ensures |r.1| == |piles|
    ensures r.1[p.hand[idx].color] == piles[p.hand[idx].color] + [p.hand[idx]]
    ensures forall j :: 0 <= j < |piles| && j != p.hand[idx].color ==> r.1[j] == piles[j]
  {
    var c := p.hand[idx];
    (p.(hand := RemoveAt(p.hand, idx)), piles[c.color := piles[c.color] + [c]])
  }

  /** A discard moves a card from the hand to a pile and loses none. */
  lemma DiscardCardKeepsCards(p: Player, piles: seq<seq<Card>>, idx: nat)
    requires idx < |p.hand| && 0 <= p.hand[idx].color < |piles|
    ensures var r := DiscardCard(p, piles, idx);
      PlayerCards(r.0) + Flatten(r.1) == PlayerCards(p) + Flatten(piles)
    ensures Sorted(p.hand) ==> Sorted(DiscardCard(p, piles, idx).0.hand)
  {
    var c := p.hand[idx];
    var r := DiscardCard(p, piles, idx);
    FlattenPush(piles, c.color, c);
    calc {
      PlayerCards(r.0) + Flatten(r.1);
      multiset(r.0.hand) + Flatten(p.expeditions) + (Flatten(piles) + multiset{c});
      (multiset(r.0.hand) + multiset{c}) + Flatten(p.expeditions) + Flatten(piles);
      PlayerCards(p) + Flatten(piles);
    }
  }

  /** drawFromDiscard, and the discard draw of drawCardDecision: the front
      (oldest) card of the pile joins the hand; an empty pile changes nothing. */
  function DrawFromDiscard(p: Player, piles: seq<seq<Card>>, colour: nat): (r: (Player, seq<seq<Card>>))
    requires colour < |piles|
    ensures piles[colour] == [] ==> r == (p, piles)
    ensures piles[colour] != [] ==>
      && multiset(r.0.hand) == multiset(p.hand) + multiset{Front(piles[colour])}
      && Sorted(r.0.hand) && |r.0.hand| == |p.hand| + 1
      && r.1 == piles[colour := piles[colour][1..]]
    ensures r.0.expeditions == p.expeditions && |r.1| == |piles|
  {
    if piles[colour] == [] then (p, piles)
    else (DrawInto(p, Front(piles[colour])), piles[colour := piles[colour][1..]])
  }

  /** Taking from a discard pile moves its front card to the hand and loses
      none. */
  lemma DrawFromDiscardKeepsCards(p: Player, piles: seq<seq<Card>>, colour: nat)
    requires colour < |piles|
    ensures var r := DrawFromDiscard(p, piles, colour);
      PlayerCards(r.0) + Flatten(r.1) == PlayerCards(p) + Flatten(piles)
  {
    if piles[colour] != [] {
      FlattenPop(piles, colour);
    }
  }
}
