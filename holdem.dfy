/** Hold'em rounds and the hole-hand classifier: two hole cards become a two-rank hand
    whose type says pair, suited or offsuit. */
module Holdem {
  import opened Cards
  import opened Hands

  /** The betting rounds of a hand. */
  datatype Round = UNSPECIFIED | INITIAL | FLOP | TURN | RIVER

  /** The stream form of a round. */
  function RoundName(round: Round): (s: string)
    ensures round != UNSPECIFIED ==> |s| >= 4 && s != "?"
  {
    match round
    case INITIAL => "initial"
    case FLOP => "flop"
    case TURN => "turn"
    case RIVER => "river"
    case UNSPECIFIED => "?"
  }

  /** Distinct rounds render differently. */
  lemma RoundNamesDistinct(a: Round, b: Round)
    ensures RoundName(a) == RoundName(b) <==> a == b
  {
  }

  /** The hole hand of a rank pair and a type: the higher rank first. */
  function HoleHandOf(rank1: Rank, rank2: Rank, handType: HandType): (h: Hand)
    ensures h.handType == handType && |h.ranks| == 2
    ensures h.ranks[0] >= h.ranks[1]
    ensures multiset(h.ranks) == multiset{rank1, rank2}
  {
    if rank1 > rank2 then Hand(handType, [rank1, rank2]) else Hand(handType, [rank2, rank1])
  }

  /** The class of two hole cards: a pair when the ranks agree, otherwise suited (FLUSH)
      when the suits agree, otherwise offsuit (HIGH_CARD); ranks highest first. Only the
      first two cards are looked at. */
  function HoleHand(cards: seq<Card>): (h: Hand)
    requires |cards| >= 2
    ensures h.handType == (if cards[0].rank == cards[1].rank then ONE_PAIR
                           else if cards[0].suit == cards[1].suit then FLUSH
                           else HIGH_CARD)
    ensures |h.ranks| == 2 && h.ranks[0] >= h.ranks[1]
    ensures h.ranks[0] == cards[0].rank || h.ranks[0] == cards[1].rank
  {
    var handType :=
      if cards[0].rank == cards[1].rank then ONE_PAIR
      else if cards[0].suit == cards[1].suit then FLUSH
      else HIGH_CARD;
    if cards[0].rank > cards[1].rank then Hand(handType, [cards[0].rank, cards[1].rank])
    else Hand(handType, [cards[1].rank, cards[0].rank])
  }

  /** The ranks of a hole hand are the ranks of its two cards. */
  lemma HoleHandRanks(cards: seq<Card>)
    requires |cards| >= 2
    ensures multiset(HoleHand(cards).ranks) == multiset{cards[0].rank, cards[1].rank}
  {
  }

  /** The type HoleHand gives two cards. */
  function HoleType(c0: Card, c1: Card): HandType
  {
    if c0.rank == c1.rank then ONE_PAIR else if c0.suit == c1.suit then FLUSH else HIGH_CARD
  }

  /** Classifying two cards is building the key of their ranks and type. */
  lemma HoleHandIsKey(cards: seq<Card>)
    requires |cards| >= 2
    ensures HoleHand(cards) == HoleHandOf(cards[0].rank, cards[1].rank, HoleType(cards[0], cards[1]))
  {
  }

  /** The order of the two cards does not matter, and neither does the order of the ranks. */
  lemma HoleHandSymmetric(c0: Card, c1: Card, handType: HandType)
    ensures HoleHand([c0, c1]) == HoleHand([c1, c0])
    ensures HoleHandOf(c0.rank, c1.rank, handType) == HoleHandOf(c1.rank, c0.rank, handType)
  {
  }

  /** Suits matter only through whether the two cards share one. */
  lemma HoleHandSuitBlind(c0: Card, c1: Card, d0: Card, d1: Card)
    requires c0.rank == d0.rank && c1.rank == d1.rank
    requires (c0.suit == c1.suit) == (d0.suit == d1.suit)
    ensures HoleHand([c0, c1]) == HoleHand([d0, d1])
  {
  }

  /** A hole-hand class: two card ranks, the higher first, typed ONE_PAIR exactly when they
      are equal, otherwise FLUSH (suited) or HIGH_CARD (offsuit). */
  predicate IsHoleClass(h: Hand)
  {
    |h.ranks| == 2 && TWO <= h.ranks[1] <= h.ranks[0] <= ACE
    && (h.handType == ONE_PAIR <==> h.ranks[0] == h.ranks[1])
    && h.handType in {ONE_PAIR, FLUSH, HIGH_CARD}
  }

  /** Every two valid cards fall into a class. */
  lemma HoleHandIsClass(cards: seq<Card>)
    requires |cards| >= 2 && ValidCard(cards[0]) && ValidCard(cards[1])
    ensures IsHoleClass(HoleHand(cards))
  {
  }

  /** Every class is the hole hand of some two cards: suited classes of two cards of one
      suit, the others of two cards of different suits. */
  lemma EveryClassIsDealt(h: Hand)
    requires IsHoleClass(h)
    ensures var suit1 := if h.handType == FLUSH then SPADES else HEARTS;
      HoleHand([Card(h.ranks[0], SPADES), Card(h.ranks[1], suit1)]) == h
  {
  }
}
