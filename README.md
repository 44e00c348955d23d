# Hold'em simulator core, modelled in Dafny

This project models the core of a Texas Hold'em simulator: cards and the deck, the seven-card
hand evaluator, the packed sort code that orders hands, the classifier that maps two hole
cards to one of 169 hole-hand classes, the statistics aggregator that tallies winning hands
and class-against-class results over many simulated deals, the game loop that deals and
collects each street, and the two player models with their factory.

The modules follow the program:

- `Cards` (`cards.dfy`): ranks, suits and cards; the four card comparators; rank and suit rendering; the `Deck` class with its cursor.
- `Hands` (`hands.dfy`): hand types, hands, the sort-code packing and unpacking, equality and hashing by sort code, and hand rendering.
- `Poker` (`table.dfy`): the `Player` and `Table` classes.
- `EvaluatorSpec` (`evaluator_spec.dfy`): a functional reference for the evaluator. It has the same rank scan, flush check and assembly as the evaluator. `Evaluation(cards)` is the hand it returns.
- `Evaluator` (`evaluator.dfy`): the `HandEvaluator` class. It works in place on arrays of rank and suit buckets, and each method is proved equal to its reference function.
- `EvaluatorProps` (`evaluator_props.dfy`): what an evaluation means, as lemmas:
  - pairs, quads, straights, flushes and straight flushes are never missed, and what is reported is held;
  - straights are the highest held;
  - kickers are the highest remaining ranks;
  - every code fits the counters.
- `Holdem`, `HoleIndex`, `HandIndex` (`holdem.dfy`, `hole_index.dfy`, `hand_index.dfy`):
  - rounds;
  - the hole-hand classifier;
  - the dense 0..168 numbering of the classes and the loop that builds the map.
- `Tally`, `Counting`, `Stats`, `Streets`, `Report`: the statistics.
  - `Tally`: ranking players by code, the pair credits and their order-free meaning.
  - `Counting`: the counter updates.
  - `Stats`: the `Statistics` class.
  - `Streets`: per-street evaluation of every player.
  - `Report`: the integer parts of the report.
- `PlayerModels` (`player_models.dfy`): player actions, the `showdown` and `miller_tight` models, and the factory.
- `HoldemGame` (`game.dfy`): seat rotation and the Hold'em `Game` class. It covers the deal of each street, the betting round and one full game.

Where the prose description of the system and the code differ, the model follows the code, except for the one defect listed under "## Findings" (the unset sort code), where the model ranks by the code the hand evidently should carry:

- The river beat matrix is credited once per ordered pair of players in the ranking whose codes differ. Identical hands are not merged into one credit: four players AA, AA, KTo, KTo credit the cell [AA][KTo] four times. See `Tally.DuplicatesAllCount`.
- A lone pair of aces evaluates as two pair: aces over the ace alias in slot ONE.
- Two ranks held three times each, with no pair, evaluate as three of a kind, not a full house.
- After its first player, the betting round asks the seat one before the button every time, rather than advancing around the table.

## Model

| member | source | states |
|---|---|---|
| Cards.OffsetRank | cards.h:16-18 | shifting a rank by an offset moves it by exactly that offset |
| Cards.ByRankAceHighLess | cards.h:20-24 | less exactly when (rank, suit) is lexicographically smaller |
| Cards.ByRankAceLowLess | cards.h:26-35 | on valid cards, lexicographic on (rank with the ace counted below TWO, suit) |
| Cards.BySuitAceHighLess | cards.h:37-41 | lexicographic on (suit, rank) |
| Cards.BySuitAceLowLess | cards.h:43-53 | on distinct valid cards, lexicographic on (suit, ace-low rank) |
| Cards.AcesFirstByRankAceLow | cards.h:26-35 | an ace sorts before every non-ace under the ace-low rank order |
| Cards.BySuitAceLowNotIrreflexive | cards.h:43-53 | an ace compares less than itself under the ace-low suit order, so the comparator is not a strict order |
| Cards.RankToString | cards.cc:3-31 | one character, which is "?" exactly for ranks outside ONE..ACE |
| Cards.RankToWide | cards.cc:33-60 | the wide rendering of a rank equals the narrow one |
| Cards.RankRoundTrip | cards.cc:3-31 | parsing a rendered rank gives the rank back |
| Cards.RankToStringInjective | cards.cc:3-31 | distinct valid ranks render differently |
| Cards.SuitGlyph | cards.cc:62-81 | every suit renders as three wide characters, the three UTF-8 byte values of its symbol, with no space |
| Cards.CardToWide | cards.cc:83-86 | a card renders as four characters: its rank character, then its suit glyph |
| Cards.JoinCardsShape | cards.cc:88-99 | n cards render to 5n-1 characters, with n-1 separating spaces and none at either end |
| Cards.NewDeckOrder | cards.h:57-69 | the new deck holds 52 cards |
| Cards.NewDeckIsComplete | cards.h:57-69 | every valid card is in the new deck exactly once |
| Cards.SortBy | cards.h:75-78 | sorting with a comparator is a permutation |
| Cards.SortByOrders | cards.h:75-78 | sorting valid cards with a strict weak order leaves no card less than a card before it |
| Cards.InsertByOrders | cards.h:75-78 | inserting a valid card into cards ordered by a strict weak order keeps them ordered |
| Cards.SortByValid | cards.h:75-78 | sorting keeps every card valid |
| Cards.ByRankAceHighIsStrictWeak | cards.h:20-24 | the rank-first ace-high comparator is a strict weak order on valid cards, as std::sort requires |
| Cards.ByRankAceLowIsStrictWeak | cards.h:26-35 | the rank-first ace-low comparator is a strict weak order on valid cards |
| Cards.BySuitAceHighIsStrictWeak | cards.h:37-41 | the suit-first ace-high comparator is a strict weak order on valid cards |
| Cards.BySuitAceLowNotStrictWeak | cards.h:43-53 | the suit-first ace-low comparator is not a strict weak order, so std::sort's precondition fails for it |
| Cards.Deck.constructor | cards.h:57-69 | a new deck holds the 52 cards in deck order, cursor at 0 |
| Cards.Deck.Shuffle | cards.h:70-74 | the cards become the shuffled order (same multiset), cursor at 0 |
| Cards.Deck.Sort | cards.h:75-78 | the cards become a permutation of the old cards, ordered when the cards are valid and the comparator is a strict weak order; cursor at 0 |
| Cards.Deck.DealCard | cards.h:80 | returns the card under the cursor and advances the cursor by one |
| Cards.Deck.Render | cards.cc:88-99 | the deck renders as its cards joined by single spaces |
| Hands.RankWeight | poker.h:37-38 | each rank slot weighs sixteen times the next, the first a sixteenth of the type's weight |
| Hands.SortCodeToHand | poker.h:37-38 | decoding always yields five rank slots |
| Hands.SortCodeRoundTrip | poker.h:37-38 | decoding the code of a well-formed hand gives the hand back, padded to five slots |
| Hands.PaddedInjective | poker.h:37-38 | padding loses nothing on well-formed hands |
| Hands.FilledSlots | poker.h:37-38 | a padded hand has exactly as many filled slots as the hand has ranks |
| Hands.SortCodeInjective | poker.h:37-38 | distinct well-formed hands have distinct codes |
| Hands.DigitsOrder | poker.h:37-38 | comparing base-16 values of equal-length digit strings is lexicographic comparison |
| Hands.SortCodeOrder | poker.h:37-38 | code order is the order on (type, rank 1, ..., rank 5) |
| Hands.SortCodeLimit | holdem_stats.cc:44-55 | every well-formed code is below SORT_CODE_LIMIT, which is one past the code of a straight flush of five aces |
| Hands.HashConsistent | poker.h:17-23 | the hash agrees with equality, and on well-formed hands equal hashes mean equal hands |
| Hands.HandEqIsEquality | poker.h:29-32 | sort-code equality is structural equality on well-formed hands |
| Hands.RanksRoundTrip | poker.cc:7-43 | rendered ranks read back as the same ranks |
| Hands.HandToStringRoundTrip | poker.cc:7-43 | a named hand renders to a string that reads back as the same hand |
| Hands.UnnamedTypeRendering | poker.cc:36-37 | an unnamed type renders as "?" directly followed by the ranks |
| Hands.TwoPairRendering | poker.cc:7-43 | two pair K K 7 7 A renders as "two-pair KK77A" |
| Poker.Player.constructor | poker.h:62-79 | a new player has no cards, no hands and is not folded |
| Poker.Player.AddCard | poker.h:65 | the card is appended to the hole cards |
| Poker.Player.HandAt | poker.h:67 | the hand at an index is the hand stored at that index |
| Poker.Player.SetHand | poker.h:68 | the list grows to i+1 only when too short; slot i holds h; every other slot is unchanged |
| Poker.Player.Fold | poker.h:71 | the player is folded |
| Poker.Player.Reset | poker.h:73 | no cards and not folded; stored hands stay |
| Poker.Table.constructor | poker.h:81-97 | a new table has no players and no community cards |
| Poker.Table.SetPlayers | poker.h:84 | the players are replaced |
| Poker.Table.SetButton | poker.h:87 | the button is set |
| Poker.Table.AddCommunityCard | poker.h:90 | the card is appended to the community cards |
| Poker.Table.ClearCommunityCards | poker.h:91 | no community cards |
| EvaluatorSpec.RankSizes | poker.cc:68-73 | one size per rank slot; slot ONE copies the ACE bucket |
| EvaluatorSpec.SuitBuckets | poker.cc:68-73 | the suit buckets hold, per suit, the ranks of its cards |
| EvaluatorSpec.Promote | poker.cc:76-79 | the best type only rises, and becomes the new type exactly when that type is better |
| EvaluatorSpec.SortDescending | poker.cc:158-161 | the sorted flush ranks are a descending permutation |
| EvaluatorSpec.InsertDescending | poker.cc:158-161 | inserting a rank into a descending list keeps it descending, adding that rank |
| EvaluatorSpec.EvaluationParts | poker.cc:67-286 | on at least five cards, the scan's recorded ranks are rank slots and enough cards remain for the kickers |
| EvaluatorSpec.ScanInvAll | poker.cc:91-151 | the meaning of the scan's trackers (straight run, quads, trips, pairs) holds at the end of the scan |
| EvaluatorSpec.ScanMonotone | poker.cc:91-151 | the best type never decreases over the scan |
| EvaluatorSpec.KickerSupply | poker.cc:266-273 | whatever pattern the scan settles on, the kicker loop finds its cards in real rank slots |
| EvaluatorSpec.PatternSupply | poker.cc:209-273 | the pattern of a finished scan over at least five cards leaves enough cards for the kickers |
| EvaluatorSpec.FlushFromKeepsLowerBest | poker.cc:156-207 | the flush check keeps a pattern type better than a flush |
| Evaluator.SlotSizes | poker.cc:91-151 | slot 0 reads as empty and every other slot as its bucket's size |
| Evaluator.CountsAbove | poker.cc:91-151 | the counts the scan has recorded above slot i are the slot sizes, and zero below |
| Evaluator.LoadedBuckets | poker.cc:68-73 | buckets loaded with the cards and the ace alias give the reference sizes and suit buckets |
| Evaluator.HandEvaluator.constructor | poker.h:49-60 | a new evaluator has rank and suit arrays of the fixed sizes |
| Evaluator.HandEvaluator.Reset | poker.cc:45-65 | the buckets hold exactly the community cards, and the reset limits are their lengths |
| Evaluator.HandEvaluator.Evaluate | poker.cc:67-286 | returns Evaluation(community + hole) and leaves the buckets as Reset left them |
| Evaluator.HandEvaluator.Score | poker.cc:91-274 | scan, flush check and assembly over loaded buckets return Evaluation(cards) |
| Evaluator.HandEvaluator.PushHole | poker.cc:68-73 | after the push every bucket is the bucket of community + hole |
| Evaluator.HandEvaluator.ScanRanks | poker.cc:91-151 | the scan loop ends in the reference scan state, with the per-slot counts recorded |
| Evaluator.HandEvaluator.ScanSlot | poker.cc:95-150 | one pass of the scan body is the reference scan step |
| Evaluator.HandEvaluator.CheckFlush | poker.cc:156-207 | the flush loop over the suits is the reference flush check |
| Evaluator.HandEvaluator.CheckSuit | poker.cc:157-205 | one suit of five or more is the reference check of that suit |
| Evaluator.HandEvaluator.StraightFlushScan | poker.cc:163-196 | the straight-flush walk returns the reference run top |
| Evaluator.HandEvaluator.AddRun | poker.cc:180-189 | appends the five ranks of the run, with the ace written for slot ONE |
| Evaluator.HandEvaluator.AssembleHand | poker.cc:209-274 | the pattern and kicker code returns the reference assembly |
| Evaluator.HandEvaluator.AddKickers | poker.cc:266-273 | the kicker loop returns the reference kickers |
| Evaluator.HandEvaluator.TakeSlot | poker.cc:267-272 | one slot gives min(count, room) kickers of that rank, and the other slots are untouched |
| Evaluator.HandEvaluator.RestoreBuckets | poker.cc:276-284 | every bucket is cut back to its community part |
| Evaluator.HandEvaluator.TruncateTouched | poker.cc:277-282 | the restore loop over the hole cards cuts each touched bucket to its reset limit |
| EvaluatorProps.KickersAreTop | poker.cc:266-273 | the kickers are the first 5-ki of the remaining cards, highest rank first |
| EvaluatorProps.ExpandDescending | poker.cc:266-273 | the remaining cards listed by slot are in descending order |
| EvaluatorProps.KickersFromCardSlots | poker.cc:266-273 | with enough cards, exactly 5-ki kickers are placed, all from slots TWO..ACE |
| EvaluatorProps.ScanFinds | poker.cc:91-151 | the scan finds a pair for every repeated rank, quads for every rank held four times, and the highest straight |
| EvaluatorProps.FirstFlushSuit | poker.cc:156-157 | the first suit with five cards, every earlier suit having fewer |
| EvaluatorProps.FlushFromSkips | poker.cc:156-157 | suits with fewer than five cards are passed over |
| EvaluatorProps.FlushFromAfterStraightFlush | poker.cc:156-207 | once a straight flush is taken, later suits do not replace it |
| EvaluatorProps.NoFlushOutcome | poker.cc:156-207 | with no suit of five, the flush check leaves the pattern's type and an empty hand |
| EvaluatorProps.FlushOutcome | poker.cc:156-207 | the outcome of the flush check, as the evaluator starts it, in every case |
| EvaluatorProps.StraightFlushSound | poker.cc:163-196 | a run the walk reports lies in the flush, with its top at least FIVE |
| EvaluatorProps.RankBucketHolds | poker.cc:68-73 | a rank bucket is non-empty exactly when a card of that rank is held |
| EvaluatorProps.SuitBucketHolds | poker.cc:68-73 | a suit bucket lists a rank exactly when a card of that suit and rank is held |
| EvaluatorProps.StraightInSlots | poker.cc:95-110 | a straight among the cards is exactly five non-empty scan slots |
| EvaluatorProps.EvaluationType | poker.cc:67-286 | the type is a real hand type, at least the scan's pattern; it is the pattern with no suit of five, and at least FLUSH otherwise |
| EvaluatorProps.EvaluationFinds | poker.cc:67-286 | a pair, quads, straight or flush among the cards is never missed |
| EvaluatorProps.EvaluationStraight | poker.cc:95-110 | a straight is the highest straight held, ranks from the top down, with the ace last in a wheel |
| EvaluatorProps.ScanStraightHighest | poker.cc:95-110 | the scan's straight top is held, and no higher straight is held |
| EvaluatorProps.WheelRanks | poker.cc:229-238 | the wheel is FIVE, FOUR, THREE, TWO, ACE |
| EvaluatorProps.EvaluationFlush | poker.cc:197-205 | a flush comes from the first suit with five cards: its five highest ranks in descending order |
| EvaluatorProps.EvaluationStraightFlush | poker.cc:163-196 | a straight flush is a run found in the first suit of five, held in that suit, and the hand opens with the run |
| EvaluatorProps.SuitBucketDistinct | poker.cc:68-73 | among distinct cards, a suit bucket holds each rank at most once |
| EvaluatorProps.SortStrictly | poker.cc:158-161 | sorting distinct ranks gives a strictly descending list |
| EvaluatorProps.RunPositions | poker.cc:167-195 | in a strictly descending list holding h-m+1..h, those values are consecutive from h's position |
| EvaluatorProps.WalkFindsRun | poker.cc:167-195 | the walk over a strictly descending flush holding a run finds a run at least as high |
| EvaluatorProps.FlushRunFound | poker.cc:163-196 | a flush holding five consecutive ranks has five cards, and the walk finds a run topped at least there |
| EvaluatorProps.ScanKeepsStraight | poker.cc:95-110 | once a straight is the best type, the scan keeps a straight top |
| EvaluatorProps.SuitRunFound | poker.cc:156-196 | a run of five held in one suit makes that suit a flush, and the walk finds the run |
| EvaluatorProps.ScanKeepsStraightTop | poker.cc:95-110 | when the cards hold a straight, the scan ends with a straight top |
| EvaluatorProps.EvaluationStraightFlushFound | poker.cc:156-196 | among distinct cards, a run of five in the first suit of five gives a straight flush topped by the highest such run, which the hand's ranks open with |
| EvaluatorProps.EvaluationWithoutFlush | poker.cc:209-274 | without a suit of five, the hand is the scan's pattern followed by the highest remaining card ranks |
| EvaluatorProps.AliasAll | poker.cc:119-150 | the ace alias is never the high pair of a full house |
| EvaluatorProps.PatternCardRanks | poker.cc:212-264 | the pattern's ranks are card ranks, except the alias as the low pair of a two pair |
| EvaluatorProps.EvaluationRanks | poker.cc:67-286 | every rank is TWO..ACE, except that a lone pair of aces comes out as aces over the alias ONE |
| EvaluatorProps.TwoTripsAreThreeOfAKind | poker.cc:119-136 | two ranks held three times, with no pair, quads, straight or flush, evaluate as three of a kind of the higher |
| EvaluatorProps.TwoTripsScanOf | poker.cc:119-136 | under those conditions no suit has five cards and the scan ends on trips of the higher rank |
| EvaluatorProps.LoneAceScan | poker.cc:139-150 | the scan of a lone pair of aces ends on two pair, aces over the alias |
| EvaluatorProps.LoneAcePairIsTwoPair | poker.cc:139-150 | a lone pair of aces, with no straight or flush, evaluates as two pair AA11 plus one kicker |
| EvaluatorProps.AcesOverAlias | poker.cc:246-255 | the two-pair pattern of aces over the alias is A A 1 1 |
| EvaluatorProps.EvaluationSortCode | holdem_stats.cc:44-55 | every evaluation's code is below SORT_CODE_LIMIT |
| EvaluatorProps.RankedSortCode | holdem_stats.cc:44-55 | a typed hand with ranks in ONE..ACE codes below SORT_CODE_LIMIT however many ranks it lists |
| Holdem.RoundName | holdem.h:35-53 | a named round renders as a word of at least four characters, never "?" |
| Holdem.RoundNamesDistinct | holdem.h:35-53 | distinct rounds render differently |
| Holdem.HoleHandOf | holdem.cc:28-40 | the given type, the two ranks with the higher first |
| Holdem.HoleHand | holdem.cc:8-26 | pair when the ranks agree, else suited (FLUSH) or offsuit (HIGH_CARD), with the two card ranks, higher first |
| Holdem.HoleHandRanks | holdem.cc:8-26 | the hand's ranks are the two cards' ranks |
| Holdem.HoleHandIsKey | holdem.cc:8-40 | classifying two cards builds the key of their ranks and type |
| Holdem.HoleHandSymmetric | holdem.cc:8-40 | neither the card order nor the rank order matters |
| Holdem.HoleHandSuitBlind | holdem.cc:8-26 | suits matter only through whether the two cards share one |
| Holdem.HoleHandIsClass | holdem.cc:8-26 | every two valid cards fall into a class |
| Holdem.EveryClassIsDealt | holdem.cc:8-26 | every class is the class of some two cards |
| HoleIndex.BlockStartBounds | holdem_stats.cc:22-36 | the classes above rank r number (ACE-r)(r+12), 169 in all |
| HoleIndex.BlockOf | holdem_stats.cc:22-36 | the block that holds position i |
| HoleIndex.ClassAt | holdem_stats.cc:22-36 | the class at each position 0..168 |
| HoleIndex.ClassIndexRoundTrip | holdem_stats.cc:22-36 | every class has a position below 169, which gives the class back |
| HoleIndex.ClassInBlock | holdem_stats.cc:22-36 | a class sits in the block of its high rank |
| HoleIndex.BlockStep | holdem_stats.cc:22-36 | block r holds its pair and two classes per lower rank |
| HoleIndex.BlockOfFinds | holdem_stats.cc:22-36 | the block search finds the one block holding i |
| HoleIndex.BlockStartMonotone | holdem_stats.cc:22-36 | blocks of higher ranks start earlier |
| HoleIndex.ClassAtRoundTrip | holdem_stats.cc:22-36 | each position holds exactly one class |
| HoleIndex.ClassIndexInjective | holdem_stats.cc:22-36 | distinct classes have distinct positions |
| HoleIndex.IndexLandmarks | holdem_stats.cc:22-36 | position 0 is AA, then AKs and AKo; position 168 is 22 |
| HandIndex.ClassIsKey | holdem.cc:28-40 | a class is determined by its two ranks and its type |
| HandIndex.PairStep | holdem_stats.cc:27-28 | numbering the pair of r1 moves the loop state on |
| HandIndex.SideStep | holdem_stats.cc:31-34 | numbering the suited and offsuit classes of (r1, r2) moves the state on |
| HandIndex.RowDone | holdem_stats.cc:22-36 | after the lowest rank the state is the one before the next high rank |
| HandIndex.BuildHandIndex | holdem_stats.cc:22-36 | the loop numbers every class at its position, and nothing else, with 169 entries |
| HandIndex.AllIndexed | holdem_stats.cc:22-36 | past the lowest rank, every class is numbered |
| HandIndex.NumberRow | holdem_stats.cc:25-36 | one pass of the outer loop numbers the row of rank1 |
| HandIndex.NumberSides | holdem_stats.cc:29-35 | one pass of the inner loop numbers the suited and the offsuit class |
| Tally.Insert | holdem_stats.cc:114-117 | inserting into a descending ranking keeps it descending, adding exactly x |
| Tally.RankByCode | holdem_stats.cc:114-117 | players ranked by code, highest first: a permutation |
| Tally.MaxCode | holdem_stats.cc:118-120 | the highest code, held by some player |
| Tally.RankTop | holdem_stats.cc:118-120 | the first of the ranking holds the highest code |
| Tally.AgainstIsWins | holdem_stats.cc:121-138 | against later players in a ranking, a credit is exactly a win |
| Tally.RankedCreditsAreWins | holdem_stats.cc:121-138 | on a ranking, the pair credits are the order-free wins |
| Tally.WinsPermutation | holdem_stats.cc:121-138 | wins against players depend on them only as a multiset |
| Tally.BeatsRemove | holdem_stats.cc:121-138 | any one player's pairs can be counted first |
| Tally.BeatsPermutation | holdem_stats.cc:121-138 | the wins of a class over another do not depend on player order |
| Tally.RankCredits | holdem_stats.cc:114-138 | whatever order the ranking gives tied players, the credits are the wins |
| Tally.TiesCreditNothing | holdem_stats.cc:131 | players with equal codes credit nothing |
| Tally.TiesWinNothing | holdem_stats.cc:131 | when every player holds the same code, no class wins over any other |
| Tally.HigherCodeWins | holdem_stats.cc:121-138 | a player with a higher code than another gives their class at least one win over the other's |
| Tally.SharedClassOnDiagonal | holdem_stats.cc:131-135 | two players of one class with different codes credit the diagonal |
| Tally.DuplicatesAllCount | holdem_stats.cc:121-138 | AA, AA, KTo, KTo credits [AA][KTo] four times and [AA][AA] not at all |
| Tally.TagCountPermutation | holdem_stats.cc:139-141 | per-class counts do not depend on player order |
| Tally.SumUpdate | holdem_stats.cc:139-141 | adding d to one counter adds d to the total |
| Counting.Zeros | holdem_stats.cc:39-59 | n zero counters |
| Counting.TallyBeats | holdem_stats.cc:121-138 | every cell gains the pair credits of the ranking |
| Counting.BeatStep | holdem_stats.cc:125-137 | one inner step extends i's credits to the players up to j |
| Counting.CreditCell | holdem_stats.cc:131-135 | a credit adds one to exactly its cell |
| Counting.CountAppearances | holdem_stats.cc:139-141 | every class gains its number of players, and the total grows by the number of players |
| Counting.CountTop | holdem_stats.cc:118-120 | the counter of the highest code gains one win |
| Counting.CreditRiver | holdem_stats.cc:121-143 | beat matrix gains the order-free wins; appearances are counted; one top player's class gains a win |
| Counting.CreditWin | holdem_stats.cc:142 | the class of a player holding the highest code gains a win |
| Counting.CreditPairs | holdem_stats.cc:121-138 | the pair loop over the ranking is the order-free count |
| Counting.CreditAppearances | holdem_stats.cc:139-141 | the appearance loop is the per-class count of the players |
| Counting.CountStreet | holdem_stats.cc:82-145 | a street's counters change exactly as the options ask, nothing else changes |
| Counting.StreetsCompose | holdem.h:88-101 | counting the flop, then the turn, then the river, each as `StreetCounted` says, is counting the game as `GameCounted` says |
| Counting.TopWins | holdem_stats.cc:142 | a win for the class of any player holding the highest code is a counted class win |
| Counting.StoredCodes | poker.cc:153-285 | as written: the standings the stored hands give carry the unset code 0 for every player, with their classes kept |
| Counting.StoredCodesCount | holdem_stats.cc:88-92 | as written: counted from the stored codes, each street's win goes to counter 0 whatever the hands, and the beat matrix never changes |
| Counting.StoredCodesAnyWinner | holdem_stats.cc:142 | as written: counted from the stored codes, the class win may go to any player |
| Counting.StoredCodesLoseBeats | holdem_stats.cc:121-138 | where two players' codes differ, ranking by the hands' codes credits the better class over the other, while the stored codes credit nothing |
| Report.DominatedCountIsSize | holdem_stats.cc:187-191 | the count is the size of the set of dominated classes |
| Report.DominatedAtMostOthers | holdem_stats.cc:187-191 | a class never dominates itself |
| Report.HeadToHeadWins | holdem_stats.cc:187-191 | each class's wins are the number of classes it beat more often than they beat it, fewer than 169 |
| Report.SharesComplement | holdem_stats.cc:192-198 | the two sides of a met pair share its pairs, and the side above half dominates; no pairs shows the sentinel on both sides |
| Report.WinningHandSummary | holdem_stats.cc:301-338 | wins per type are the totals by type and sum to the total; the median code is the first code from 1 whose running total reaches half the games |
| Report.TotalMonotone | holdem_stats.cc:313-338 | running totals never fall |
| Report.MedianStaysReached | holdem_stats.cc:313-338 | once the median code is found, every later running total stays at or above the median |
| Report.TypesCoverTotal | holdem_stats.cc:313-338 | summed over types, the distribution counts every win |
| Stats.IndexOf | holdem_stats.cc:132-133 | on a bounded index, every lookup lands in 0..168 |
| Stats.IndexOfClass | holdem_stats.cc:132-133 | a class looks up to its position |
| Stats.Statistics.constructor | holdem_stats.cc:20-60 | the index numbers every class, the beat matrix is zero, and the counters are zero at SORT_CODE_LIMIT and 169 entries |
| Stats.Statistics.NewGame | holdem_stats.cc:62-70 | binds the table and players and counts the game |
| Stats.Statistics.Standings | holdem_stats.cc:110-133 | each player, in seat order, stands with the sort code of their stored hand for the street (the code the hand evidently should carry, see Findings) and the index of their hole-hand class |
| Stats.Statistics.StandingsKept | holdem_stats.cc:110-133 | a street's standings stay as they are while the players, their classes and their hands for that street do |
| Stats.Statistics.StandingsInRange | holdem_stats.cc:119-142 | with every street code below the counters' size, each standing's code indexes a per-code counter and its class a per-class counter |
| Stats.Statistics.Collect | holdem_stats.cc:72-149 | INITIAL records each player's class of their hole cards and leaves the counters; an evaluated later street (the flop and the turn only with the winning-hand statistics on, the river always) stores every player's best hand and changes the counters exactly as `Counting.StreetCounted` says for the players' standings; the table, the players, their cards and the game count are unchanged, as are the other streets' hands and the flop and turn hands of a street that is not evaluated |
| Stats.Statistics.CollectStreet | holdem_stats.cc:82-145 | every player's hand for the street becomes the best hand of the community and their cards, and the counters change exactly as `Counting.StreetCounted` says for the resulting standings; classes, cards, community, game count and the other streets' hands are unchanged |
| Stats.Statistics.StoreStreetHands | holdem_stats.cc:110-113 | every player's street hand becomes the evaluation of the community and their cards, with a code below the counters' size; classes, cards, community and the other streets' hands are unchanged |
| Stats.Statistics.StoredStreet | holdem_stats.cc:110-113 | stored evaluations make the street evaluated, with codes in bounds |
| Stats.Statistics.CountRound | holdem_stats.cc:114-143 | the counters change exactly as `Counting.StreetCounted` says for the standings; the players' classes, cards and stored hands, and whether the street is evaluated, are unchanged |
| Stats.Statistics.TallyRound | holdem_stats.cc:114-143 | the counters change exactly as `Counting.StreetCounted` says for the standings and stay shaped; table, players, cards and the flop and turn hands of the other streets are unchanged |
| Stats.Statistics.CollectHoleHands | holdem_stats.cc:77-81 | each player's class becomes the class of their hole cards; counters, cards and street hands are unchanged |
| Streets.EvaluateStreet | holdem_stats.cc:110-113 | one evaluator, reset per player, stores each player's Evaluation(community + cards) |
| Streets.StoreNext | holdem_stats.cc:110-113 | the next player's hand is stored and earlier ones are kept |
| Streets.EvaluatePlayer | holdem_stats.cc:110-113 | the player's street hand is Evaluation(community + cards) |
| Streets.EvaluateWith | holdem_stats.cc:111-112 | reset then evaluate gives Evaluation(community + hole) |
| Streets.FlopHands | holdem_stats.cc:84-87 | one flop hand per player, in seat order |
| Streets.FlopHandsKept | holdem_stats.cc:82-94 | the flop hands are unchanged while no player's flop hand changes |
| Streets.FlopHandsAt | holdem_stats.cc:84-87 | entry k of the flop hands is player k's flop hand |
| Streets.TurnHands | holdem_stats.cc:97-100 | one turn hand per player, in seat order |
| Streets.TurnHandsKept | holdem_stats.cc:95-107 | the turn hands are unchanged while no player's turn hand changes |
| Streets.TurnHandsAt | holdem_stats.cc:97-100 | entry k of the turn hands is player k's turn hand |
| PlayerModels.ActionValue | player_model_holdem.cc:9-17 | actions are numbered 0..4, 0 exactly for UNSPECIFIED |
| PlayerModels.ModelName | player_model_holdem.h:19-27 | every model has a non-empty name |
| PlayerModels.Create | player_model_holdem.h:34-44 | a created model has the given name; otherwise the error names the argument |
| PlayerModels.CreateByName | player_model_holdem.h:34-44 | each model is created from its own name |
| PlayerModels.CreateFailsOnUnknown | player_model_holdem.h:34-44 | creation fails exactly on names no model has |
| PlayerModels.CreateIsExact | player_model_holdem.h:34-44 | names are matched whole and with case |
| PlayerModels.Act | player_model_holdem.cc:9-17 | both models always check |
| HoldemGame.Rotation | poker.h:115-125 | the seat is in 0..n-1 |
| HoldemGame.ShiftBySeats | poker.h:115-125 | one turn of the table either way lands on the same seat |
| HoldemGame.SeatIsRemainder | poker.h:115-125 | a seat congruent to x is x's remainder |
| HoldemGame.ActionOutcome | holdem.h:155-170 | the round goes on exactly on CHECK |
| HoldemGame.ShuffledDeckValid | cards.h:70-74 | a shuffle of the new deck is 52 valid cards |
| HoldemGame.Game.constructor | holdem.h:65-77 | the table's players are the game's players, the button is the drawn seat, and the deck is new |
| HoldemGame.Game.RotatePosition | poker.h:115-125 | the seat is position+offset modulo the player count |
| HoldemGame.Game.ResetForNextHand | poker.h:108-112 | no community cards, the deck is the shuffled order, and the button moves one seat back |
| HoldemGame.Game.NewGame | holdem.h:115-121 | every player is reset, the table and deck are readied, and the statistics are bound and count the game; the counters are unchanged and stay shaped; the players' flop and turn hands are untouched |
| HoldemGame.Game.ResetPlayers | holdem.h:116-118 | every player has no cards and is not folded |
| HoldemGame.Game.Deal | holdem.h:123-146 | two consecutive cards per player in seat order before the flop, then 3, 1 and 1 community cards off the deck |
| HoldemGame.Game.DealTwo | holdem.h:127-130 | a player receives the next two cards |
| HoldemGame.Game.BettingRound | holdem.h:148-173 | one ask per player: first three (preflop) or one seat before the button, then always one seat before it |
| HoldemGame.Game.StreetInitial | holdem.h:83-86 | player k holds deck cards 2k and 2k+1, the board is empty, each player's class is the class of their hole cards, and the counters, the deck order, the game count and the button are unchanged |
| HoldemGame.Game.DealHoles | holdem.h:83-85 | player k holds deck cards 2k and 2k+1 and the cursor is past them, the board is empty, the betting round passes, and the counters, the deck order and the game count are unchanged |
| HoldemGame.Game.CollectHoles | holdem.h:86 | each player's class is the class of their hole cards; the counters, the statistics' table and players, the game count, the board and every player's cards are unchanged |
| HoldemGame.Game.Street | holdem.h:88-101 | the street's community cards are the next ones off the deck after those already dealt; the returned standings are the players' standings for the street, and the counters change exactly as `Counting.StreetCounted` says for them; on an evaluated flop or turn player k's hand for it is the best hand of that street's community cards as they came off the deck (cards 2n to 2n+2 at the flop, 2n to 2n+3 at the turn, for n players) and of deck cards 2k and 2k+1; the flop and turn hands of a street not evaluated, classes, the button and the standings of the other later streets are kept; at the river every hand is the best hand of the board and the hole cards |
| HoldemGame.Game.CollectDealt | holdem.h:91-101 | collecting a dealt street keeps the cards dealt, the classes and the button and changes the counters exactly as `Counting.StreetCounted` says for the street's standings; on an evaluated flop or turn player k's hand for it is the best hand of that street's community cards as they came off the deck (cards 2n to 2n+2 at the flop, 2n to 2n+3 at the turn, for n players) and of deck cards 2k and 2k+1; otherwise the flop and turn hands are as they were; at the river every hand is evaluated |
| HoldemGame.Game.CollectStatistics | holdem.h:91-101 | the statistics count the street as `Counting.StreetCounted` says for its standings; when the street is evaluated every player's hand for it is the best hand of the board and their cards; cards, classes, board and game count are unchanged, and so are the other streets' hands and the flop and turn hands of a street that is not evaluated; at the river the players' river hands are evaluated |
| HoldemGame.Game.RecordedFromStatistics | holdem_stats.cc:82-107 | the hands the statistics evaluated for a dealt flop or turn are, seat by seat, the best hands of that street's community cards off the deck and of the player's two hole cards off the deck |
| HoldemGame.Game.RiverFromStatistics | holdem.h:98-101 | the statistics' river hands are the players' river hands |
| HoldemGame.Game.DealStreet | holdem.h:132-142 | a later street's community cards are the next cards of the deck after those already dealt, every player can be evaluated, and the deck order, game count, button, classes and stored hands are unchanged |
| HoldemGame.Game.DealtCanEvaluate | holdem.h:88-101 | from the flop on, every player has at least five valid cards to evaluate |
| HoldemGame.Game.Play | holdem.h:79-102 | the deck is the shuffle; player k holds cards 2k and 2k+1, the board the next five; the button moves one seat back, as `Rotation(button, -1, n)`, and no player has folded; classes and river hands are recorded; with the winning-hand statistics on, player k's flop hand is the best hand of deck cards 2n to 2n+2 and cards 2k and 2k+1, and their turn hand that of cards 2n to 2n+3 and the same two; with them off, the flop and turn hands are those held before the game; the statistics stay bound to this game's table and players; the returned flop, turn and river standings are the players' standings, and the counters change exactly as `Counting.GameCounted` says for them; one more game |
| HoldemGame.Game.PlayStreets | holdem.h:83-101 | the four streets dealt, bet and collected in order: hole cards then five community cards off the deck, classes and river hands recorded; with the winning-hand statistics on, player k's flop hand is the best hand of deck cards 2n to 2n+2 and cards 2k and 2k+1, and their turn hand that of cards 2n to 2n+3 and the same two; with them off, both are those held before; the button is unchanged; the counters change exactly as `Counting.GameCounted` says for the flop, turn and river standings returned |
| HoldemGame.StreetsRecordedCompose | holdem.h:88-101 | collecting the flop, then the turn, then the river leaves, with the winning-hand statistics on, both the flop and the turn hands recorded from the deck, and with them off, both as they were before the flop |

## Left out

- Randomness: the shuffle order and the button draw of the game constructor are parameters, and the mersenne-twister engine is not part of this model.
- Floating point: percentages in the report are kept as integer pairs (`Report.Share`), and the standard-deviation offsets of the disabled report block are not modelled.
- Report output: the CSV files, the stream formatting, the column striping and the sorting of the win table for display.
- Cards.Deck.Sort: modelled as a stable insertion sort; the standard library's sort leaves the order of equivalent cards, and the result for a comparator that is not a strict weak order (the ace-low suit order), unspecified.
- Tally.RankByCode: keeps tied players in their original order; the standard library's sort does not promise an order for equal codes. The flop, turn and river win counters and the beat matrix do not depend on that order (`Tally.RankCredits`); for the class credited with the river win, the model states only that it is the class of some player holding the highest code (`Counting.CreditWin`).
- Stats.Statistics.Collect: requires that the index holds every class. Looking up a missing key with `operator[]` would insert it; lookups here stay within the index.
- Stats.Statistics.Collect: requires at least one player where the source reads `players[0]`. With no players, `players.size()-1` wraps around as an unsigned value.
- Stats.Statistics.Collect: requires distinct players and evaluable cards, as every deal from one deck provides.
- Counters are unbounded integers; overflow of the 32-bit counters is not modelled.
- Evaluator.HandEvaluator.Evaluate: requires at least five cards in all. With fewer, the kicker loop reads below slot 0.
- EvaluatorProps.EvaluationStraightFlushFound: requires that no card is listed twice and that earlier suits have fewer than five cards, as in any deal of at most seven cards from one deck.
- HoldemGame.Game.Deal: requires a named round. The source only asserts on the unknown round.
- HoldemGame.Game.Play: requires that 2n + 5 cards fit in the deck. The deck's cursor is not bounds-checked in the source.
- The bodies of `HandToSortCode` and `SortCodeToHand` are declared in poker.h but not shown. The packing is taken from the counter size, one past the code of five aces in a straight flush: 4 bits per field, type first.
- The bodies of `HandCardsToString`, `CommunityCardsToString` and `HoleHandToString`, declared in poker.h, are not part of this model.
- The debug output on standard error during assembly, and the debug assert in rank rendering.
- Cards.SuitGlyph: the `?` written for a suit outside the four has no counterpart; the model's `Suit` holds only the four suits.
- The preflop, flop, turn and river hand fields used by the statistics are not declared in the shown `Player`; the model adds them to `Poker.Player`. Where holdem_stats.h declares a different layout from holdem_stats.cc, the model follows holdem_stats.cc.
- The disabled `#if 0` blocks in holdem.h and holdem_stats.cc.
- Suit ordinals follow the order in which the deck lists the suits; the enumeration's own numbering is not shown. With at most seven cards only one suit can hold five, so the flush check does not depend on it.
- Player models ignore the table, round, seat and player they are given.

## Findings

| source | as written | input that shows it | evidently intended | confidence | as-written member | corrected member |
|---|---|---|---|---|---|---|
| holdem_stats.cc:84-143 | `HandEvaluator::Evaluate` (poker.cc:153-285) returns its hand without setting the sort code, unlike holdem.cc:24 and holdem_stats.cc:52, so every stored street hand carries code 0: the sorts compare equal codes, each street's win goes to counter 0, and the beat matrix is never credited | any river with two players whose best hands differ, e.g. a flush against a pair, with hole-card statistics on: the flush player's class gains nothing over the pair's | rank each player by `HandToSortCode` of their best hand, as the counter size computed at holdem_stats.cc:52-55 assumes | medium (the `Hand` type is not shown; an unset code is taken to read as 0); not executed | Counting.StoredCodesLoseBeats | Stats.Statistics.Standings |
