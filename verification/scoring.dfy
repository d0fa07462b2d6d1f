/** Scoring: the final expedition score and the two look-ahead variants.

    A started expedition costs 20 points. Its final score is the sum of its
    ranked values minus 20, times one plus the number of investment cards. The
    look-ahead ("potential points") used to pick an expedition near the end of
    the game adds a bonus of 20 when the expedition would reach 8 cards.
 */
module Scoring {
  import opened Cards

  /** Which copy of the engine: the one in main.cpp or the one in testes.cpp.
      The copies differ in the look-ahead, the card choice and the draw policy. */
  datatype Rules = MainRules | TestRules

  const EntryCost: int := 20
  const LongExpedition: nat := 8
  const LengthBonus: int := 20

  /** Sum of the values of the cards whose value is not `skip`. */
  function SumSkipping(s: seq<Card>, skip: int): int {
    if s == [] then 0
    else (if s[0].value == skip then 0 else s[0].value) + SumSkipping(s[1..], skip)
  }

  /** Number of cards of value `v`. */
  function CountOf(s: seq<Card>, v: int): nat {
    if s == [] then 0
    else (if s[0].value == v then 1 else 0) + CountOf(s[1..], v)
  }

  /** Final score of one expedition: an empty expedition contributes nothing. */
  function ExpeditionScore(e: seq<Card>): int {
    if e == [] then 0
    else (SumSkipping(e, Investment) - EntryCost) * (1 + CountOf(e, Investment))
  }

  /** A player's final score: the sum over the five expeditions. */
  function PlayerScore(exps: seq<seq<Card>>): int {
    if exps == [] then 0 else ExpeditionScore(exps[0]) + PlayerScore(exps[1..])
  }

  function Bonus(count: int): int {
    if count >= LongExpedition then LengthBonus else 0
  }

  /** calculatePotentialPoints, shared by both copies: the cards already on the
      expedition count value 0 as a multiplier card and add every other value
      (an investment card adds -1); the candidate card is a multiplier when its
      value is `marker`, and adds its value otherwise. */
  function Lookahead(e: seq<Card>, c: Card, marker: int): int {
    var points := SumSkipping(e, 0) + (if c.value == marker then 0 else c.value);
    var multiplier := 1 + CountOf(e, 0) + (if c.value == marker then 1 else 0);
    (points - EntryCost) * multiplier + Bonus(|e| + 1)
  }

  /** The value that marks a multiplier candidate: 0 in main.cpp, -1 in testes.cpp. */
  function CandidateMarker(rules: Rules): int {
    match rules
    case MainRules => 0
    case TestRules => Investment
  }

  function Potential(rules: Rules, e: seq<Card>, c: Card): int {
    Lookahead(e, c, CandidateMarker(rules))
  }

  // ---------------------------------------------------------------------------
  // The stack walk of calculateScores

  /** The loop of calculateScores over one expedition: pop cards from the top,
      counting investment cards and adding the other values. */
  method ExpeditionScoreFromTop(e: seq<Card>) returns (score: int)
    ensures score == ExpeditionScore(e)
  {
    var points := 0;
    var investments := 0;
    var k := |e|;
    while k > 0
      invariant 0 <= k <= |e|
      invariant points == SumSkipping(e[k..], Investment)
      invariant investments == CountOf(e[k..], Investment)
    {
      k := k - 1;
      assert e[k..][1..] == e[k + 1..];
      if e[k].value == Investment {
        investments := investments + 1;
      } else {
        points := points + e[k].value;
      }
    }
    assert e[0..] == e;
    score := points;
    if e != [] {
      score := (points - EntryCost) * (1 + investments);
    }
  }

  /** calculateScores for one player: the sum of the expedition scores. */
  method PlayerScoreFromTop(exps: seq<seq<Card>>) returns (score: int)
    ensures score == PlayerScore(exps)
  {
    score := 0;
    for i := 0 to |exps|
      invariant score + PlayerScore(exps[i..]) == PlayerScore(exps)
    {
      assert exps[i..][1..] == exps[i + 1..];
      var s := ExpeditionScoreFromTop(exps[i]);
      score := score + s;
    }
    assert exps[|exps|..] == [];
  }

  // ---------------------------------------------------------------------------
  // Properties

  lemma {:induction false} SumSkippingAppend(a: seq<Card>, b: seq<Card>, skip: int)
    ensures SumSkipping(a + b, skip) == SumSkipping(a, skip) + SumSkipping(b, skip)
    ensures CountOf(a + b, skip) == CountOf(a, skip) + CountOf(b, skip)
  {
    if a == [] {
      assert a + b == b;
    } else {
      assert (a + b)[0] == a[0];
      assert (a + b)[1..] == a[1..] + b;
      SumSkippingAppend(a[1..], b, skip);
    }
  }

  /** The sum and the count depend only on which cards there are, not on their
      order. */
  lemma {:induction false} SumSkippingPermutation(a: seq<Card>, b: seq<Card>, skip: int)
    requires multiset(a) == multiset(b)
    ensures SumSkipping(a, skip) == SumSkipping(b, skip)
    ensures CountOf(a, skip) == CountOf(b, skip)
    decreases |a|
  {
    if a == [] {
      assert |b| == |multiset(b)| == 0;
    } else {
      var x := a[0];
      assert x in multiset(b);
      var k :| 0 <= k < |b| && b[k] == x;
      var rest := b[..k] + b[k + 1..];
      assert b == b[..k] + ([x] + b[k + 1..]);
      SumSkippingAppend(b[..k], [x] + b[k + 1..], skip);
      SumSkippingAppend(b[..k], b[k + 1..], skip);
      assert a == [x] + a[1..];
      assert multiset(b) == multiset(b[..k]) + multiset{x} + multiset(b[k + 1..]);
      assert multiset(a) == multiset{x} + multiset(a[1..]);
      assert multiset(rest) == multiset(b[..k]) + multiset(b[k + 1..]);
      assert multiset(a[1..]) == multiset(a) - multiset{x};
      assert multiset(rest) == multiset(b) - multiset{x};
      SumSkippingPermutation(a[1..], rest, skip);
    }
  }

  /** The final score of an expedition depends only on the multiset of its
      cards: the order the stack walk visits them in does not matter. */
  lemma ScoreIsOrderFree(a: seq<Card>, b: seq<Card>)
    requires multiset(a) == multiset(b)
    ensures ExpeditionScore(a) == ExpeditionScore(b)
  {
    SumSkippingPermutation(a, b, Investment);
    if a == [] {
      assert |b| == |multiset(b)| == 0;
    } else {
      assert |b| == |multiset(b)| > 0;
    }
  }

  /** Pushing one card onto a non-empty expedition changes its score as the
      formula says: a ranked card adds its value to the sum, an investment card
      adds one to the multiplier. */
  lemma ScoreAfterPush(e: seq<Card>, c: Card)
    ensures ExpeditionScore(e + [c]) ==
      (SumSkipping(e, Investment) + (if IsInvestment(c) then 0 else c.value) - EntryCost)
      * (1 + CountOf(e, Investment) + (if IsInvestment(c) then 1 else 0))
  {
    SumSkippingAppend(e, [c], Investment);
  }

  /** Values worked out by hand: an empty expedition scores 0, not -20; 2,3,4
      scores -11; one investment card doubles it to -22; length earns nothing. */
  lemma ScoreExamples()
    ensures ExpeditionScore([]) == 0
    ensures ExpeditionScore([Card(2, 0), Card(3, 0), Card(4, 0)]) == -11
    ensures ExpeditionScore([Card(-1, 0), Card(2, 0), Card(3, 0), Card(4, 0)]) == -22
    ensures ExpeditionScore([Card(2, 1), Card(3, 1), Card(4, 1), Card(5, 1), Card(6, 1), Card(7, 1), Card(8, 1), Card(9, 1)]) == 24
  {
  }

  /** Skipping value 0 leaves the full sum, which is the sum of the ranked cards
      minus one per investment card. */
  lemma {:induction false} SkipZeroCountsInvestmentsAsMinusOne(s: seq<Card>)
    ensures SumSkipping(s, 0) == SumSkipping(s, Investment) - CountOf(s, Investment)
  {
    if s != [] {
      SkipZeroCountsInvestmentsAsMinusOne(s[1..]);
    }
  }

  /** The look-ahead of main.cpp, on deck cards (no value 0), never multiplies:
      every investment card, the candidate included, counts as -1 point. */
  lemma MainLookaheadNeverMultiplies(e: seq<Card>, c: Card)
    requires CountOf(e, 0) == 0
    requires c.value != 0
    ensures Potential(MainRules, e, c) ==
      SumSkipping(e + [c], Investment) - CountOf(e + [c], Investment) - EntryCost + Bonus(|e| + 1)
  {
    SkipZeroCountsInvestmentsAsMinusOne(e + [c]);
    SumSkippingAppend(e, [c], 0);
  }

  /** The look-ahead of testes.cpp, on deck cards, multiplies only for an
      investment candidate, and counts investment cards already on the
      expedition as -1 point each. */
  lemma TestLookaheadOnDeckCards(e: seq<Card>, c: Card)
    requires CountOf(e, 0) == 0
    ensures Potential(TestRules, e, c) ==
      (SumSkipping(e, Investment) - CountOf(e, Investment) + (if IsInvestment(c) then 0 else c.value) - EntryCost)
      * (if IsInvestment(c) then 2 else 1) + Bonus(|e| + 1)
  {
    SkipZeroCountsInvestmentsAsMinusOne(e);
  }

  /** Where the look-ahead and the final score agree: on an expedition with no
      investment card yet, the testes.cpp look-ahead is the final score after
      the push plus the length bonus; the main.cpp look-ahead agrees with it
      only when the candidate is ranked too. */
  lemma LookaheadMatchesScore(e: seq<Card>, c: Card)
    requires CountOf(e, 0) == 0 && CountOf(e, Investment) == 0
    requires c.value != 0
    ensures Potential(TestRules, e, c) == ExpeditionScore(e + [c]) + Bonus(|e| + 1)
    ensures !IsInvestment(c) ==> Potential(MainRules, e, c) == ExpeditionScore(e + [c]) + Bonus(|e| + 1)
  {
    TestLookaheadOnDeckCards(e, c);
    MainLookaheadNeverMultiplies(e, c);
    ScoreAfterPush(e, c);
    SumSkippingAppend(e, [c], Investment);
  }

  /** Where they disagree: opening an expedition with an investment card. The
      final score of that expedition is -40; testes.cpp foresees -40, main.cpp
      foresees -21. An investment card already on the expedition is foreseen
      as -1 point by both. */
  lemma LookaheadDisagreements()
    ensures ExpeditionScore([Card(-1, 0)]) == -40
    ensures Potential(TestRules, [], Card(-1, 0)) == -40
    ensures Potential(MainRules, [], Card(-1, 0)) == -21
    ensures ExpeditionScore([Card(-1, 0), Card(5, 0)]) == -30
    ensures Potential(TestRules, [Card(-1, 0)], Card(5, 0)) == -16
    ensures Potential(MainRules, [Card(-1, 0)], Card(5, 0)) == -16
  {
  }
}
