# Expedition card game engine, modelled in Dafny

This project models the engine of a two-player expedition card game, in the
style of Lost Cities. Two C++ files hold near-identical copies of the engine:
`main.cpp` and `testes.cpp`. The shared rules are modelled once. The places
where the copies differ are modelled side by side:

- the look-ahead score;
- the card choice;
- the draw policy;
- the turn switch.

The game works like this:

- **Deck.** The deck has 60 cards. Each of 5 colours has the ranks 2..10 once and the investment card (value -1) three times.
- **Setup.** The deck is shuffled, and each player is dealt 8 cards from its back. A hand is always kept sorted by value.
- **Turn.** On a turn the current player puts one card down, then draws one card.
  - The card goes either on one of the player's five expeditions or on the discard pile of its colour.
  - An expedition takes an investment card on an empty expedition or on another investment card. It takes a ranked card of at least 2 on an empty expedition, or above its top card. Colour is not checked.
  - The draw takes either the back card of the deck or the front card of a discard pile. Discard piles are first-in first-out.
- **End and scoring.** The game ends when the deck is empty. A started expedition scores `(sum of ranks - 20) * (1 + investment cards)`.
- **`main.cpp` players.** The first player puts down its lowest card and the second its highest.
  - With more than 10 cards left in the deck, the card goes on the first legal expedition.
  - With 10 or fewer, it goes on the legal expedition with the best look-ahead score. The look-ahead also adds a bonus of 20 when the expedition would reach 8 cards.
  - A player draws from the first discard pile whose front card tempts it: below 5 for the first player, above 5 for the second. Otherwise it draws from the deck. With 10 or fewer cards left it always draws from the deck.
- **`testes.cpp` players.** The players have types.
  - Type 0 puts down a random card, type 1 the lowest card, and type 2 the card closest in value to a same-coloured expedition top.
  - Whatever a policy inspects, the discard it takes is the front card of the first non-empty pile.
  - Type 0 takes it on a coin flip.
  - Type 1 takes it when the hand has no card of its colour, or when its front card beats the hand's mean for that colour.
  - Type 2 looks at every pile. It takes the discard when some pile's front card beats the hand's mean for a colour the hand holds.

Modules, one file each:

- `Options` (`options.dfy`): the optional index a scan returns.
- `Cards` (`cards.dfy`): cards, the sorted hand, inserting a card into the hand and removing one.
- `Deck` (`deck.dfy`): building the deck.
- `Expeditions` (`expeditions.dfy`): the rule for playing on an expedition, and the shape of an expedition that legal plays produce.
- `Scoring` (`scoring.dfy`): the final score and both look-ahead variants.
- `CardChoice` (`card_choice.dfy`): the card choosers.
- `DrawChoice` (`draw_choice.dfy`): the draw policies.
- `Players` (`players.dfy`): the Player moves.
- `Game` (`game.dfy`): the state, the turn of each file, setup, the game loop and the scores.

The invariant `Game.Consistent` holds at the start of every turn. It says:

- both hands hold 8 sorted cards;
- every expedition is well-shaped;
- every discard pile holds cards of its own colour only;
- the deck, piles, hands and expeditions together hold exactly the 60 cards.

The model proves that setup establishes this invariant and that every turn keeps it.

The source's integer comparison of a value with a mean is a floating-point
comparison. The model states it over the reals and decides it by
cross-multiplication.

The final score has no length bonus: `calculateScores` adds none. Only the
look-ahead `calculatePotentialPoints` adds 20 for an expedition of at least
eight cards (main.cpp:139-142, testes.cpp:249-252).

## Model

| member | source | states |
|---|---|---|
| `Cards.InsertPos` | main.cpp:39-43 | the position for a drawn card in a sorted hand: every card before it is no higher, every card from it on is higher |
| `Cards.Insert` | main.cpp:34-43 | inserting a card into a sorted hand gives a sorted hand with exactly that card added |
| `Cards.SortHand` | main.cpp:39-43 | sortHand returns a permutation of the hand that is sorted by value |
| `Cards.DrawCard` | main.cpp:34-37 | drawCard leaves a sorted hand one card longer holding exactly the old cards plus the drawn one |
| `Cards.InsertLargest` | main.cpp:39-43 | a card no lower than every hand card goes to the back |
| `Cards.SortSortedIsIdentity` | main.cpp:39-43 | sorting a sorted hand changes nothing |
| `Cards.DrawCardInserts` | main.cpp:34-43 | on a sorted hand, push-back-then-sort is a single insertion after the cards of equal value |
| `Cards.RemoveAt` | main.cpp:56-69 | erasing a hand card removes exactly that card, shifts the later cards down by one and keeps a sorted hand sorted |
| `Deck.InitializeDeck` | main.cpp:163-172 | initializeDeck builds 60 cards: each investment card three times, each rank of each colour once, nothing else |
| `Deck.FullDeckValid` | testes.cpp:273-282 | every card of a full deck has value -1 or 2..10 and a colour 0..4 |
| `Expeditions.LegalityTable` | main.cpp:45-54 | canPlayCard case by case: an empty expedition takes any deck card, an investment top takes any card, a ranked top takes exactly the higher cards and never an investment card, and colour never matters |
| `Expeditions.CanPlayIffShapeKept` | main.cpp:45-64 | on an expedition built by legal plays, a deck card is legal exactly when pushing it keeps the shape (investment cards first, then strictly rising ranks) |
| `Scoring.ExpeditionScoreFromTop` | main.cpp:384-399 | the stack walk of calculateScores gives the expedition score: 0 when empty, else (ranks - 20) times (1 + investment cards) |
| `Scoring.PlayerScoreFromTop` | main.cpp:381-403 | a player's score is the sum of the five expedition scores |
| `Scoring.SumSkippingAppend` | main.cpp:388-395 | the walk's sum and count split over a concatenation |
| `Scoring.SumSkippingPermutation` | main.cpp:388-395 | the walk's sum and count depend only on the multiset of cards |
| `Scoring.ScoreIsOrderFree` | main.cpp:384-399 | an expedition's final score does not depend on the order of its cards |
| `Scoring.ScoreAfterPush` | main.cpp:384-399 | pushing a ranked card adds its value to the sum; pushing an investment card adds one to the multiplier |
| `Scoring.ScoreExamples` | main.cpp:396-398 | an empty expedition scores 0, 2-3-4 scores -11, an investment card doubles it to -22, and eight cards earn no bonus |
| `Scoring.SkipZeroCountsInvestmentsAsMinusOne` | main.cpp:118-126 | the look-ahead's walk, which treats value 0 as the multiplier card, adds every investment card as -1 point |
| `Scoring.MainLookaheadNeverMultiplies` | main.cpp:107-145 | on deck cards the main.cpp look-ahead never multiplies: the candidate and existing investment cards each count -1 |
| `Scoring.TestLookaheadOnDeckCards` | testes.cpp:217-255 | on deck cards the testes.cpp look-ahead doubles only for an investment candidate, and counts existing investment cards as -1 each |
| `Scoring.LookaheadMatchesScore` | testes.cpp:217-255 | without investment cards on the expedition, the testes.cpp look-ahead is the final score after the push plus the length bonus; main.cpp agrees only for a ranked candidate |
| `Scoring.LookaheadDisagreements` | main.cpp:128-142 | opening with an investment card: final score -40, testes.cpp foresees -40, main.cpp foresees -21; an existing investment card is foreseen as -1 point |
| `CardChoice.LowestFrom` | main.cpp:79-91 | the lowest-card scan from any point answers the first index of the lowest value, or -1 when no value is below INT_MAX |
| `CardChoice.ChooseLowest` | main.cpp:79-91 | chooseCardToPlayForPlayer1 answers the first index of the lowest value, -1 exactly when no card is below INT_MAX |
| `CardChoice.HighestFrom` | main.cpp:93-105 | the highest-card scan answers the first index of the highest value, or -1 when no value is above INT_MIN |
| `CardChoice.ChooseHighest` | main.cpp:93-105 | chooseCardToPlayForPlayer2 answers the first index of the highest value, -1 exactly when no card is above INT_MIN |
| `CardChoice.ChoosersOnDeckCards` | main.cpp:79-105 | on deck cards both choosers fail only on an empty hand, and on a sorted hand the lowest card is at index 0 |
| `CardChoice.RandomIndex` | testes.cpp:73-80 | the random card choice is always an index of the hand, and every index can be drawn |
| `CardChoice.ClosestFrom` | testes.cpp:106-131 | the nested proximity scan ends with no pair when no hand card shares a colour with an expedition top, else with a closest pair |
| `CardChoice.ChooseClosest` | testes.cpp:96-136 | the proximity choice is a card in a closest pair: no matching pair is closer or as close with a lower card, and it beats every pair of an earlier card |
| `CardChoice.ClosestCardIsUnique` | testes.cpp:124-128 | the closest-pair property determines the hand card |
| `CardChoice.ChooseProximity` | testes.cpp:96-145 | chooseCardToPlayForPlayer3 answers the closest card when some card matches a top's colour, else the lowest card |
| `DrawChoice.TemptingFrom` | main.cpp:264-270 | the pile scan answers the first pile at or after the start whose front tempts the player, or none |
| `DrawChoice.ThresholdChoice` | main.cpp:263-271 | the main.cpp discard choice is the first non-empty pile whose front is below 5 (first player) or above 5 (second player), or none |
| `DrawChoice.NonEmptyFrom` | testes.cpp:312-318 | the pile scan answers the first non-empty pile at or after the start, or none |
| `DrawChoice.FirstNonEmpty` | testes.cpp:312-318 | drawCardDecision's discard choice is the first non-empty pile, or none when all are empty |
| `DrawChoice.CrossMultiply` | testes.cpp:175-180 | a value is above the mean sum/n exactly when value*n exceeds the sum |
| `DrawChoice.MeanRule` | testes.cpp:156-181 | chooseBasedOnDiscardAndMedia is true exactly when the hand has no card of the front's colour or the front beats that colour's mean |
| `DrawChoice.AnyPileFrom` | testes.cpp:194-212 | the pile scan is true exactly when some later pile's front beats the hand's mean of a colour the hand holds |
| `DrawChoice.MultiPileRule` | testes.cpp:184-215 | chooseBasedOnDiscardAndExpedition is true exactly when some pile's front beats the hand's mean of its colour, skipping colours the hand lacks |
| `DrawChoice.MeanRulesAgreeOnHeldColour` | testes.cpp:156-215 | for one pile of a colour the hand holds, the single-pile rule and the multi-pile rule agree |
| `Players.FlattenPush` | main.cpp:66-69 | pushing a card on a pile adds exactly that card to the piles' cards |
| `Players.FlattenPop` | main.cpp:71-77 | popping a pile's front removes exactly that card from the piles' cards |
| `Players.FlattenEmpty` | main.cpp:30-32 | piles that are all empty, such as a new player's five expeditions, hold no cards |
| `Players.NewPlayer` | main.cpp:30-32 | a new player has an empty hand and five empty expeditions |
| `Players.DrawInto` | main.cpp:34-37 | drawing adds exactly the drawn card to a sorted hand and leaves the expeditions alone |
| `Players.PlayCard` | main.cpp:56-64 | a legal play moves the chosen card from the hand onto the top of the chosen expedition and changes no other expedition |
| `Players.PlayCardKeepsCards` | main.cpp:56-64 | a play keeps the player's cards, keeps the hand sorted and keeps the expedition well-shaped |
| `Players.DiscardCard` | main.cpp:66-69 | discardCard moves the chosen card to the back of the pile of its colour and changes no other pile |
| `Players.DiscardCardKeepsCards` | main.cpp:66-69 | a discard keeps the player's and the piles' cards together and keeps the hand sorted |
| `Players.DrawFromDiscard` | main.cpp:71-77 | drawFromDiscard moves the front card of a non-empty pile into the sorted hand and does nothing on an empty pile |
| `Players.DrawFromDiscardKeepsCards` | main.cpp:71-77 | taking a discard keeps the player's and the piles' cards together |
| `Game.FirstLegalFrom` | main.cpp:222-227 | the early-game scan answers the first legal expedition from the start, or none |
| `Game.BestFrom` | main.cpp:230-239 | the endgame scan answers a legal expedition of greatest look-ahead above -1000, the earliest of equals, or none when none exceeds -1000 |
| `Game.ChooseDestination` | main.cpp:218-240 | the chosen expedition is always legal: the first legal one above 10 deck cards, the best by look-ahead at 10 or fewer; it discards exactly when no expedition qualifies |
| `Game.SumSkippingZeroBound` | main.cpp:116-126 | on deck cards the look-ahead's walk sums to at least minus the expedition's length and finds no value-0 card |
| `Game.EndgameDiscardsOnlyWhenStuck` | main.cpp:229-248 | on deck cards every look-ahead exceeds -1000, so the endgame discards exactly when no expedition is legal |
| `Game.HoldingCardsValid` | main.cpp:163-199 | while the 60 cards are all accounted for, every card in the deck, a hand, an expedition or a pile is a deck card |
| `Game.ConsistentIsTurnReady` | main.cpp:211-216 | at the start of a turn the hand is non-empty and its cards have legal colours and values, so the choosers return an index |
| `Game.PutDown` | main.cpp:243-249 | the card goes onto the destination expedition, or to the back of its colour's pile, and the other player and the deck are untouched |
| `Game.PutDownKeepsCards` | main.cpp:243-249 | putting a card down keeps all 60 cards |
| `Game.PlayKeepsPlayerHolds` | main.cpp:56-64 | a legal play of a deck card leaves a sorted hand one shorter and well-shaped expeditions |
| `Game.DiscardKeepsShape` | main.cpp:66-69 | a discard leaves a sorted hand one shorter and every pile of one colour |
| `Game.PutDownKeepsHolding` | main.cpp:243-249 | putting a card down keeps the invariant with one card fewer in the current hand |
| `Game.DrawFromDeck` | main.cpp:193-198 | drawCardFromDeck moves the back card of the deck into the current hand and does nothing on an empty deck |
| `Game.DrawDiscard` | testes.cpp:324-326 | the discard draw moves the front of the pile into the current hand |
| `Game.DrawFromDeckKeepsCards` | main.cpp:193-198 | a deck draw keeps all 60 cards |
| `Game.DrawDiscardKeepsCards` | testes.cpp:324-326 | a discard draw keeps all 60 cards |
| `Game.DrawFromDeckKeepsHolding` | main.cpp:193-198 | a deck draw keeps the invariant with one more card in the current hand |
| `Game.DrawDiscardKeepsHolding` | main.cpp:71-77 | a discard draw from a non-empty pile keeps the invariant, one-coloured piles included |
| `Game.DrawMain` | main.cpp:263-283 | above 10 deck cards the player takes the first tempting discard exactly when one exists, else the deck; at 10 or fewer always the deck |
| `Game.DiscardDecision` | testes.cpp:321-352 | types 0, 1 and 2 take the discard on the coin, on the single-pile mean rule, or on the multi-pile mean rule |
| `Game.DrawTyped` | testes.cpp:310-361 | drawCardDecision does nothing on an empty deck, draws from the first non-empty pile when the type's policy says so, else from the deck, and draws nothing for other types |
| `Game.DrawMainKeepsCards` | main.cpp:262-283 | the main.cpp draw keeps all 60 cards |
| `Game.DrawTypedKeepsCards` | testes.cpp:310-361 | the testes.cpp draw keeps all 60 cards |
| `Game.DrawMainKeepsHolding` | main.cpp:262-283 | with a non-empty deck the main.cpp draw always draws one card and keeps the invariant |
| `Game.DrawTypedKeepsHolding` | testes.cpp:310-361 | with a non-empty deck the testes.cpp draw of types 0, 1 and 2 always draws one card and keeps the invariant |
| `Game.MainCardChoice` | main.cpp:211-216 | the first player puts down its first lowest card, the second its first highest |
| `Game.TakeTurnMain` | main.cpp:201-289 | a main.cpp turn hands the move to the other player |
| `Game.PutDownMain` | main.cpp:211-249 | the first half of the main.cpp turn leaves the deck and the seat alone |
| `Game.TypedCardChoice` | testes.cpp:364-374 | type 0 puts down the drawn random index, type 1 the first lowest card, others the closest card or the lowest when none matches |
| `Game.NextSeat` | testes.cpp:407 | for two players `(current + 1) % 2` is the other seat `1 - current` |
| `Game.PutDownTyped` | testes.cpp:364-403 | the first half of the testes.cpp turn leaves the deck and the seat alone |
| `Game.TakeTurnTyped` | testes.cpp:364-408 | a testes.cpp turn hands the move to the other player |
| `Game.SwitchKeepsConsistent` | main.cpp:288 | handing the move over keeps the invariant |
| `Game.TurnMainKeepsCards` | main.cpp:201-289 | a main.cpp turn keeps all 60 cards |
| `Game.TurnTypedKeepsCards` | testes.cpp:364-408 | a testes.cpp turn keeps all 60 cards |
| `Game.TurnMainKeepsConsistent` | main.cpp:201-289 | a main.cpp turn with a non-empty deck is well defined and keeps the invariant |
| `Game.TurnTypedKeepsConsistent` | testes.cpp:364-408 | a testes.cpp turn with a non-empty deck and types 0 to 2 is well defined and keeps the invariant |
| `Game.TurnMainDeck` | main.cpp:262-283 | a main.cpp turn takes at most the back card of the deck, and always takes it at 10 cards or fewer |
| `Game.TurnTypedDeck` | testes.cpp:310-361 | a testes.cpp turn takes at most the back card of the deck |
| `Game.TurnMainStep` | main.cpp:373-376 | one iteration of the main.cpp game loop keeps the invariant and shortens the deck only from its back |
| `Game.TurnTypedStep` | testes.cpp:416-418 | one iteration of the testes.cpp game loop keeps the invariant and shortens the deck only from its back |
| `Game.DealTo` | main.cpp:184-191 | dealing moves the back cards of the deck, in any number, into a sorted hand and leaves the rest of the deck in order |
| `Game.DealStep` | main.cpp:186-189 | dealing n cards is dealing the back card and then n - 1 from the rest |
| `Game.NoPiles` | main.cpp:156 | the game starts with five empty discard piles |
| `Game.DealPlayer` | testes.cpp:289-296 | a fresh player dealt 8 cards holds exactly the deck's last 8, sorted, with five empty expeditions |
| `Game.NewGame` | main.cpp:155-161 | setup from any order of the 60 cards: first player gets the last 8, second the 8 before, 44 remain, first player to move, and the invariant holds |
| `Game.DealtCards` | testes.cpp:289-296 | the two hands and the remaining deck together hold the shuffled deck |
| `Game.PlayMain` | main.cpp:369-379 | the main.cpp game loop keeps the invariant, only shortens the deck from its back, and from 10 cards or fewer ends within that many turns |
| `Game.ChoosePlayersForMatch` | testes.cpp:298-307 | the fixed pair of player types lies among the three defined types 0, 1 and 2, so a match keeps the invariant |
| `Game.PlayTyped` | testes.cpp:410-421 | the testes.cpp game loop keeps the invariant and only shortens the deck from its back |
| `Game.PlayMatch` | testes.cpp:414-418 | a match between the chosen types keeps the invariant |
| `Game.CalculateScores` | main.cpp:381-403 | calculateScores computes each player's sum of expedition scores |

## Left out

- Console output, timing and the `main` functions that run and tally many games (main.cpp:406-486, testes.cpp:448-563). These are driver code with no game logic.
- `shuffleDeck` and its seeding are not modelled. `Game.NewGame` accepts any order of the 60 cards.
- Randomness in `testes.cpp` becomes input through the `Game.Oracle` datatype, whose `pick` and `coin` fields stand in for the two random calls:
  - the uniform index of `chooseCardToPlayForPlayer1` is `pick`;
  - the coin of `chooseRandomly` is `coin`.
- The commented-out first version of `takeTurn` in main.cpp:294-366 is not modelled.
- `Cards.SortHand`: `std::sort` is not stable, so it may order cards of equal value in any way. The model uses a stable insertion sort, which is one of those orders. Its contract states only "sorted and a permutation", which every possible order meets.
- `Players.PlayCard` requires a legal play. In the source an illegal play calls itself again with the same arguments, which never returns. Both turns only ever ask for a legal play, and `Game.ChooseDestination` proves this.
- `CardChoice.ChooseProximity` handles "no candidate yet" with an explicit case instead of the INT_MAX difference sentinel. The two agree whenever a value difference is below INT_MAX, which holds for every deck card.
  - The chooser's `bestCardIndex` branch is dead code: that index is never set.
- `Game.TurnReady` asks for a non-empty hand of cards whose colour is 0..4 and whose value lies strictly between INT_MIN and INT_MAX. On an empty hand the source indexes the hand at -1. `Game.ConsistentIsTurnReady` shows that every turn of a real game meets this.
- 32-bit overflow of scores and sums is not modelled. Integers are unbounded. With deck cards no sum leaves a few hundred.
- The floating-point mean of the draw policies is modelled as an exact rational comparison.
- `Game.PlayMain`: `playGame` has no general termination guarantee, because a player may keep drawing discards. The loop is therefore bounded by a fuel count, and it is proved to end once the deck is down to 10 cards.
- `Game.PlayTyped`: the loop is bounded by the length of the oracle sequence.
- `Game.CalculateScores` returns the two scores. The source computes them and drops them.
- `Game.NewGame` asks for a deck of length 60 alongside the exact card counts. The counts already imply that length; the model states it separately to avoid a cardinality proof.
- `Game.TurnTypedKeepsConsistent` covers player types 0, 1 and 2 only. For any other type `drawCardDecision` draws nothing while a pile is non-empty, so the hand shrinks. `Game.DrawTyped` states this case.
