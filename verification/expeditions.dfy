/** Expeditions and the move-legality rule.

    An expedition is a pile of played cards with its top at the end of the
    sequence. Cards are only ever pushed, never removed.
 */
module Expeditions {
  import opened Cards

  function Top(e: seq<Card>): Card
    requires e != []
  {
    e[|e| - 1]
  }

  /** canPlayCard: an empty expedition takes an investment or any value of at
      least 2; a non-empty one takes an investment on an investment, or any
      card above its top. The colour is not consulted. */
  predicate CanPlay(c: Card, e: seq<Card>) {
    if e == [] then c.value == Investment || c.value >= 2
    else (c.value == Investment && Top(e).value == Investment) || Top(e).value < c.value
  }

  /** The shape of an expedition built by legal plays: zero or more investment
      cards, then ranked cards of value at least 2 in strictly increasing order. */
  predicate WellShaped(e: seq<Card>) {
    && (forall i :: 0 <= i < |e| ==> e[i].value == Investment || e[i].value >= 2)
    // an investment card is preceded only by investment cards
    && (forall i, j :: 0 <= i < j < |e| && e[j].value == Investment ==> e[i].value == Investment)
    // a ranked card is below every card played after it
    && (forall i, j :: 0 <= i < j < |e| && e[i].value != Investment ==> e[i].value < e[j].value)
  }

  /** The legality table: what canPlayCard answers, case by case, for the
      values the deck holds. */
  lemma LegalityTable(c: Card, e: seq<Card>)
    requires ValidValue(c.value)
    ensures e == [] ==> CanPlay(c, e)
    ensures e != [] && IsInvestment(Top(e)) ==> CanPlay(c, e)
    ensures e != [] && !IsInvestment(Top(e)) ==> (CanPlay(c, e) <==> Top(e).value < c.value)
    ensures e != [] && !IsInvestment(Top(e)) && Top(e).value >= 2 && IsInvestment(c) ==> !CanPlay(c, e)
    ensures forall colour :: CanPlay(Card(c.value, colour), e) == CanPlay(c, e)
  {
  }

  /** On a well-shaped expedition, a deck card is legal exactly when pushing it
      keeps the expedition well-shaped. So canPlayCard neither rejects a push
      that keeps the shape nor admits one that breaks it. */
  lemma {:induction false} CanPlayIffShapeKept(c: Card, e: seq<Card>)
    requires WellShaped(e)
    requires ValidValue(c.value)
    ensures CanPlay(c, e) <==> WellShaped(e + [c])
  {
    var e' := e + [c];
    if CanPlay(c, e) {
      if e != [] {
        var t := Top(e);
        forall i, j | 0 <= i < j < |e'| && e'[j].value == Investment
          ensures e'[i].value == Investment
        {
          if j == |e| {
            assert t.value == Investment;
            if i < |e| - 1 {
              assert e[i].value == Investment;
            }
          }
        }
        forall i, j | 0 <= i < j < |e'| && e'[i].value != Investment
          ensures e'[i].value < e'[j].value
        {
          if j == |e| && i < |e| - 1 {
            assert e[i].value < t.value;
          }
        }
      }
    } else {
      assert e != [];
      var t := Top(e);
      assert e'[|e| - 1] == t && e'[|e|] == c;
    }
  }
}
