/** Ranks, suits, cards, the four card orderings, rank rendering and the 52-card deck. */
module Cards {

  /** A rank is the ordinal of the rank enumeration: the code casts ranks to and from
      integers, offsets them and indexes arrays with them. */
  type Rank = int

  const RANK_UNSPECIFIED: Rank := 0
  /** The low alias of ACE, used only by the straight scan of the evaluator. */
  const ONE: Rank := 1
  const TWO: Rank := 2
  const THREE: Rank := 3
  const FOUR: Rank := 4
  const FIVE: Rank := 5
  const SIX: Rank := 6
  const SEVEN: Rank := 7
  const EIGHT: Rank := 8
  const NINE: Rank := 9
  const TEN: Rank := 10
  const JACK: Rank := 11
  const QUEEN: Rank := 12
  const KING: Rank := 13
  const ACE: Rank := 14
  /** Number of rank ordinals (RANK_UNSPECIFIED .. ACE): the size of per-rank arrays. */
  const RANK_ARRAY_SIZE := 15

  /** The four suits; Ordinal follows the order in which the deck is built. */
  datatype Suit = SPADES | CLUBS | HEARTS | DIAMONDS {
    function Ordinal(): (k: nat)
      ensures k < SUIT_ARRAY_SIZE
    {
      match this
      case SPADES => 0
      case CLUBS => 1
      case HEARTS => 2
      case DIAMONDS => 3
    }
  }
  const SUIT_ARRAY_SIZE := 4

  datatype Card = Card(rank: Rank, suit: Suit)

  /** The ranks a physical card can carry (ONE is only ever an alias). */
  predicate IsCardRank(r: Rank) { TWO <= r <= ACE }

  predicate ValidCard(c: Card) { IsCardRank(c.rank) }

  predicate AllValid(cards: seq<Card>) { forall k :: 0 <= k < |cards| ==> ValidCard(cards[k]) }

  /** Moves a rank ordinal by offset, without any range check. */
  function OffsetRank(rank: Rank, offset: int): (r: Rank)
    ensures r - rank == offset
  {
    rank + offset
  }

  // ---------------------------------------------------------------------------
  // Orderings. Each is the "less than" handed to a sort.

  /** Order by rank, then by suit, ace high. */
  function ByRankAceHighLess(lhs: Card, rhs: Card): (less: bool)
    ensures less <==> LexLess(lhs.rank, lhs.suit.Ordinal(), rhs.rank, rhs.suit.Ordinal())
  {
    if lhs.rank == rhs.rank then lhs.suit.Ordinal() < rhs.suit.Ordinal()
    else lhs.rank < rhs.rank
  }

  /** Order by rank, then by suit, with every ace before every other rank. */
  function ByRankAceLowLess(lhs: Card, rhs: Card): (less: bool)
    ensures ValidCard(lhs) && ValidCard(rhs) ==>
      (less <==> LexLess(AceLow(lhs.rank), lhs.suit.Ordinal(), AceLow(rhs.rank), rhs.suit.Ordinal()))
  {
    if lhs.rank == rhs.rank then lhs.suit.Ordinal() < rhs.suit.Ordinal()
    else if lhs.rank == ACE then true
    else if rhs.rank == ACE then false
    else lhs.rank < rhs.rank
  }

  /** Order by suit, then by rank, ace high. */
  function BySuitAceHighLess(lhs: Card, rhs: Card): (less: bool)
    ensures less <==> LexLess(lhs.suit.Ordinal(), lhs.rank, rhs.suit.Ordinal(), rhs.rank)
  {
    if lhs.suit == rhs.suit then lhs.rank < rhs.rank
    else lhs.suit.Ordinal() < rhs.suit.Ordinal()
  }

  /** Order by suit, then by rank, ace low. */
  function BySuitAceLowLess(lhs: Card, rhs: Card): (less: bool)
    ensures ValidCard(lhs) && ValidCard(rhs) && lhs != rhs ==>
      (less <==> LexLess(lhs.suit.Ordinal(), AceLow(lhs.rank), rhs.suit.Ordinal(), AceLow(rhs.rank)))
  {
    if lhs.suit == rhs.suit then
      if lhs.rank == ACE then true
      else if rhs.rank == ACE then false
      else lhs.rank < rhs.rank
    else lhs.suit.Ordinal() < rhs.suit.Ordinal()
  }

  /** Lexicographic order on pairs of integers: the reference the orderings are checked against. */
  predicate LexLess(a1: int, a2: int, b1: int, b2: int) { a1 < b1 || (a1 == b1 && a2 < b2) }

  /** The ace-low reading of a rank. */
  function AceLow(r: Rank): Rank { if r == ACE then ONE else r }

  /** Every ace sorts before every other card under the ace-low rank order. */
  lemma AcesFirstByRankAceLow(ace: Card, other: Card)
    requires ace.rank == ACE && other.rank != ACE
    ensures ByRankAceLowLess(ace, other) && !ByRankAceLowLess(other, ace)
  {
  }

  /** The suit-first ace-low order says an ace is less than itself, so it is not irreflexive. */
  lemma BySuitAceLowNotIrreflexive(s: Suit)
    ensures BySuitAceLowLess(Card(ACE, s), Card(ACE, s))
  {
  }

  // ---------------------------------------------------------------------------
  // Rendering.

  /** Narrow-stream rendering of a rank: ONE..NINE as a digit, TEN..ACE as a letter,
      anything else as "?" (after a debug assertion, which is not modelled). */
  function RankToString(rank: Rank): (s: string)
    ensures |s| == 1
    ensures ONE <= rank <= ACE <==> s != "?"
  {
    if ONE <= rank < TEN then [('0' as int + rank) as char]
    else if rank == TEN then "T"
    else if rank == JACK then "J"
    else if rank == QUEEN then "Q"
    else if rank == KING then "K"
    else if rank == ACE then "A"
    else "?"
  }

  /** Wide-stream rendering of a rank; its cases are listed in a different order. */
  function RankToWide(rank: Rank): (s: string)
    ensures s == RankToString(rank)
  {
    if ONE <= rank < TEN then [('0' as int + rank) as char]
    else if rank == ACE then "A"
    else if rank == TEN then "T"
    else if rank == JACK then "J"
    else if rank == QUEEN then "Q"
    else if rank == KING then "K"
    else "?"
  }

  /** Reads back one rendered rank character: the inverse of RankToString. */
  function ParseRank(c: char): (r: Rank)
  {
    if '1' <= c <= '9' then c as int - '0' as int
    else if c == 'T' then TEN
    else if c == 'J' then JACK
    else if c == 'Q' then QUEEN
    else if c == 'K' then KING
    else if c == 'A' then ACE
    else RANK_UNSPECIFIED
  }

  /** Every rank ONE..ACE renders to one character that reads back as that rank, so
      distinct ranks render differently. */
  lemma RankRoundTrip(rank: Rank)
    requires ONE <= rank <= ACE
    ensures ParseRank(RankToString(rank)[0]) == rank
  {
  }

  /** Distinct ranks in ONE..ACE render differently. */
  lemma RankToStringInjective(a: Rank, b: Rank)
    requires ONE <= a <= ACE && ONE <= b <= ACE
    requires RankToString(a) == RankToString(b)
    ensures a == b
  {
    RankRoundTrip(a);
    RankRoundTrip(b);
  }

  /** The three wide characters the source writes for a suit; how the stream encodes
      them is outside the model. */
  function SuitGlyph(s: Suit): (g: string)
    ensures |g| == 3 && ' ' !in g
  {
    match s
    case SPADES => ['\U{E2}', '\U{99}', '\U{A0}']
    case CLUBS => ['\U{E2}', '\U{99}', '\U{A3}']
    case HEARTS => ['\U{E2}', '\U{99}', '\U{A5}']
    case DIAMONDS => ['\U{E2}', '\U{99}', '\U{A6}']
  }

  /** A card renders as its rank followed by its suit glyph. */
  function CardToWide(c: Card): (s: string)
    ensures |s| == 4 && s[0] == RankToString(c.rank)[0]
    ensures ' ' !in s
  {
    RankToWide(c.rank) + SuitGlyph(c.suit)
  }

  /** The rendering of a deck: the cards in order, separated by single spaces. */
  function JoinCards(cards: seq<Card>): string
  {
    if |cards| == 0 then ""
    else if |cards| == 1 then CardToWide(cards[0])
    else JoinCards(cards[..|cards| - 1]) + " " + CardToWide(cards[|cards| - 1])
  }

  function CountChar(s: string, c: char): nat
  {
    if |s| == 0 then 0 else CountChar(s[..|s| - 1], c) + (if s[|s| - 1] == c then 1 else 0)
  }

  lemma {:induction false} CountCharAppend(a: string, b: string, c: char)
    ensures CountChar(a + b, c) == CountChar(a, c) + CountChar(b, c)
    decreases |b|
  {
    if |b| == 0 {
      assert a + b == a;
    } else {
      assert (a + b)[..|a + b| - 1] == a + b[..|b| - 1];
      CountCharAppend(a, b[..|b| - 1], c);
    }
  }

  lemma NoSpaceCount(s: string)
    requires ' ' !in s
    ensures CountChar(s, ' ') == 0
  {
    if |s| > 0 {
      assert s[..|s| - 1] + [s[|s| - 1]] == s;
      NoSpaceCount(s[..|s| - 1]);
    }
  }

  /** A rendered deck has one space between consecutive cards and none at either end. */
  lemma {:induction false} JoinCardsShape(cards: seq<Card>)
    requires |cards| > 0
    ensures var s := JoinCards(cards);
      |s| == 5 * |cards| - 1 && s[0] != ' ' && s[|s| - 1] != ' '
      && CountChar(s, ' ') == |cards| - 1
  {
    var last := CardToWide(cards[|cards| - 1]);
    NoSpaceCount(last);
    if |cards| > 1 {
      var prefix := cards[..|cards| - 1];
      JoinCardsShape(prefix);
      var p := JoinCards(prefix);
      assert JoinCards(cards) == p + " " + last;
      CountCharAppend(p + " ", last, ' ');
      CountCharAppend(p, " ", ' ');
      assert CountChar(" ", ' ') == 1 by { assert (" ")[..0] == ""; }
    }
  }

  // ---------------------------------------------------------------------------
  // The deck.

  /** Ranks in the order the deck constructor lists them. */
  const DECK_RANKS: seq<Rank> := [ACE, TWO, THREE, FOUR, FIVE, SIX, SEVEN, EIGHT, NINE, TEN, JACK, QUEEN, KING]
  /** Suits in the order the deck constructor lists them. */
  const DECK_SUITS: seq<Suit> := [SPADES, CLUBS, HEARTS, DIAMONDS]

  /** The order of a new deck: for each suit, its thirteen ranks. */
  function NewDeckOrder(): (d: seq<Card>)
    ensures |d| == 52
  {
    seq(52, k requires 0 <= k < 52 => Card(DECK_RANKS[k % 13], DECK_SUITS[k / 13]))
  }

  /** Position of a card rank in DECK_RANKS. */
  function DeckRankPosition(r: Rank): (k: nat)
    requires IsCardRank(r)
    ensures k < 13 && DECK_RANKS[k] == r
  {
    if r == ACE then 0 else r - 1
  }

  /** A new deck holds every valid card exactly once, and nothing else. */
  lemma NewDeckIsComplete()
    ensures forall c :: ValidCard(c) ==> c in NewDeckOrder()
    ensures forall i :: 0 <= i < 52 ==> ValidCard(NewDeckOrder()[i])
    ensures forall i, j :: 0 <= i < j < 52 ==> NewDeckOrder()[i] != NewDeckOrder()[j]
  {
    var d := NewDeckOrder();
    forall c | ValidCard(c) ensures c in d {
      var k := c.suit.Ordinal() * 13 + DeckRankPosition(c.rank);
      assert k / 13 == c.suit.Ordinal() && k % 13 == DeckRankPosition(c.rank);
      assert d[k] == c;
    }
    forall i, j | 0 <= i < j < 52 ensures d[i] != d[j] {
      assert i == 13 * (i / 13) + i % 13;
      assert j == 13 * (j / 13) + j % 13;
    }
  }

  /** No card of s is less than a card before it. */
  predicate SortedBy(s: seq<Card>, less: (Card, Card) -> bool)
  {
    forall i, j :: 0 <= i < j < |s| ==> !less(s[j], s[i])
  }

  /** On valid cards, less is a strict weak order: asymmetric, and "not less" is
      transitive. This is what the standard library's sort asks of its comparator. */
  ghost predicate StrictWeakOnValid(less: (Card, Card) -> bool)
  {
    (forall a, b :: ValidCard(a) && ValidCard(b) && less(a, b) ==> !less(b, a))
    && (forall a, b, c :: ValidCard(a) && ValidCard(b) && ValidCard(c) && !less(a, b) && !less(b, c) ==> !less(a, c))
  }

  /** Insertion sort under a caller-supplied "less than": the model of std::sort. */
  function SortBy(cards: seq<Card>, less: (Card, Card) -> bool): (r: seq<Card>)
    ensures multiset(r) == multiset(cards)
  {
    if |cards| == 0 then []
    else
      assert cards == [cards[0]] + cards[1..];
      InsertBy(cards[0], SortBy(cards[1..], less), less)
  }

  /** Inserts c before the first card that is not less than it. */
  function InsertBy(c: Card, sorted: seq<Card>, less: (Card, Card) -> bool): (r: seq<Card>)
    ensures multiset(r) == multiset(sorted) + multiset{c}
  {
    if |sorted| == 0 || !less(sorted[0], c) then [c] + sorted
    else
      assert sorted == [sorted[0]] + sorted[1..];
      [sorted[0]] + InsertBy(c, sorted[1..], less)
  }

  /** Sorting valid cards with a strict weak order leaves them ordered. */
  lemma {:induction false} SortByOrders(cards: seq<Card>, less: (Card, Card) -> bool)
    requires AllValid(cards) && StrictWeakOnValid(less)
    ensures SortedBy(SortBy(cards, less), less)
  {
    if |cards| > 0 {
      assert AllValid(cards[1..]) && ValidCard(cards[0]) by {
        forall k | 0 <= k < |cards[1..]| ensures ValidCard(cards[1..][k]) {
          assert cards[1..][k] == cards[k + 1];
        }
      }
      var rest := SortBy(cards[1..], less);
      SortByOrders(cards[1..], less);
      SortByValid(cards[1..], less);
      InsertByOrders(cards[0], rest, less);
    }
  }

  /** Sorting keeps every card valid. */
  lemma SortByValid(cards: seq<Card>, less: (Card, Card) -> bool)
    requires AllValid(cards)
    ensures AllValid(SortBy(cards, less))
  {
    var r := SortBy(cards, less);
    forall k | 0 <= k < |r| ensures ValidCard(r[k]) {
      assert r[k] in multiset(cards);
      var i :| 0 <= i < |cards| && cards[i] == r[k];
    }
  }

  /** Inserting a valid card into valid cards ordered by a strict weak order keeps
      them ordered. */
  lemma {:induction false} InsertByOrders(c: Card, sorted: seq<Card>, less: (Card, Card) -> bool)
    requires ValidCard(c) && AllValid(sorted) && StrictWeakOnValid(less) && SortedBy(sorted, less)
    ensures SortedBy(InsertBy(c, sorted, less), less)
  {
    if |sorted| == 0 || !less(sorted[0], c) {
      InsertFront(c, sorted, less);
    } else {
      var tail := sorted[1..];
      assert AllValid(tail) && SortedBy(tail, less) by {
        forall i, j | 0 <= i < j < |tail| ensures ValidCard(tail[i]) && !less(tail[j], tail[i]) {
          assert tail[i] == sorted[i + 1] && tail[j] == sorted[j + 1];
        }
        forall k | 0 <= k < |tail| ensures ValidCard(tail[k]) {
          assert tail[k] == sorted[k + 1];
        }
      }
      InsertByOrders(c, tail, less);
      InsertBehindFirst(c, sorted, InsertBy(c, tail, less), less);
    }
  }

  /** Putting c in front of a sorted sequence whose first card is not less than c keeps it
      sorted. */
  lemma InsertFront(c: Card, sorted: seq<Card>, less: (Card, Card) -> bool)
    requires |sorted| == 0 || !less(sorted[0], c)
    requires ValidCard(c) && AllValid(sorted) && StrictWeakOnValid(less) && SortedBy(sorted, less)
    ensures SortedBy([c] + sorted, less)
  {
    var r := [c] + sorted;
    forall i, j | 0 <= i < j < |r|
      ensures !less(r[j], r[i])
    {
      if i == 0 {
        assert r[j] == sorted[j - 1];
        if j > 1 {
          assert !less(sorted[j - 1], sorted[0]);
        }
      } else {
        assert r[i] == sorted[i - 1] && r[j] == sorted[j - 1];
      }
    }
  }

  /** Keeping the first card of a sorted sequence, when it is less than c, in front of a
      sorted arrangement of c and the rest keeps it sorted. */
  lemma InsertBehindFirst(c: Card, sorted: seq<Card>, rest: seq<Card>, less: (Card, Card) -> bool)
    requires |sorted| > 0 && less(sorted[0], c)
    requires multiset(rest) == multiset(sorted[1..]) + multiset{c}
    requires ValidCard(c) && AllValid(sorted) && StrictWeakOnValid(less) && SortedBy(sorted, less)
    requires SortedBy(rest, less)
    ensures SortedBy([sorted[0]] + rest, less)
  {
    var r := [sorted[0]] + rest;
    forall i, j | 0 <= i < j < |r|
      ensures !less(r[j], r[i])
    {
      if i == 0 {
        var y := r[j];
        assert y == rest[j - 1];
        assert y in multiset(rest);
        if y != c {
          assert y in multiset(sorted[1..]);
          var k :| 0 <= k < |sorted[1..]| && sorted[1..][k] == y;
          assert sorted[k + 1] == y;
        }
      } else {
        assert r[i] == rest[i - 1] && r[j] == rest[j - 1];
      }
    }
  }

  /** The rank-first ace-high order is a strict weak order on valid cards. */
  lemma ByRankAceHighIsStrictWeak()
    ensures StrictWeakOnValid(ByRankAceHighLess)
  {
  }

  /** The rank-first ace-low order is a strict weak order on valid cards. */
  lemma ByRankAceLowIsStrictWeak()
    ensures StrictWeakOnValid(ByRankAceLowLess)
  {
  }

  /** The suit-first ace-high order is a strict weak order on valid cards. */
  lemma BySuitAceHighIsStrictWeak()
    ensures StrictWeakOnValid(BySuitAceHighLess)
  {
  }

  /** The suit-first ace-low order fails the strict weak order requirement. */
  lemma BySuitAceLowNotStrictWeak()
    ensures !StrictWeakOnValid(BySuitAceLowLess)
  {
    var ace := Card(ACE, SPADES);
    BySuitAceLowNotIrreflexive(SPADES);
    assert ValidCard(ace);
  }

  /** The new deck's prefix grows suit by suit, rank by rank. */
  lemma NewDeckPrefixStep(si: int, ri: int)
    requires 0 <= si < 4 && 0 <= ri < 13
    ensures NewDeckOrder()[..13 * si + ri + 1]
      == NewDeckOrder()[..13 * si + ri] + [Card(DECK_RANKS[ri], DECK_SUITS[si])]
  {
    var k := 13 * si + ri;
    assert k / 13 == si && k % 13 == ri;
  }

  /** A deck: its cards and the cursor of the next card to deal. */
  class Deck {
    var cards: seq<Card>
    var next: int

    /** The deck is a permutation of the 52 cards and the cursor within it. */
    ghost predicate Valid()
      reads this
    {
      multiset(cards) == multiset(NewDeckOrder()) && 0 <= next <= |cards|
    }

    constructor ()
      ensures Valid() && cards == NewDeckOrder() && next == 0
    {
      var built: seq<Card> := [];
      for si := 0 to 4
        invariant built == NewDeckOrder()[..13 * si]
      {
        for ri := 0 to 13
          invariant built == NewDeckOrder()[..13 * si + ri]
        {
          NewDeckPrefixStep(si, ri);
          built := built + [Card(DECK_RANKS[ri], DECK_SUITS[si])];
        }
      }
      assert built == NewDeckOrder();
      cards := built;
      next := 0;
    }

    /** Replaces the order by the one the random shuffle produced and rewinds the cursor. */
    method Shuffle(shuffled: seq<Card>)
      requires multiset(shuffled) == multiset(cards)
      modifies this
      ensures cards == shuffled && next == 0
      ensures multiset(cards) == old(multiset(cards))
    {
      cards := shuffled;
      next := 0;
    }

    /** Sorts the cards with the given order and rewinds the cursor. */
    method Sort(less: (Card, Card) -> bool)
      modifies this
      ensures cards == SortBy(old(cards), less) && next == 0
      ensures multiset(cards) == old(multiset(cards))
      ensures AllValid(old(cards)) && StrictWeakOnValid(less) ==> SortedBy(cards, less)
    {
      if AllValid(cards) && StrictWeakOnValid(less) {
        SortByOrders(cards, less);
      }
      cards := SortBy(cards, less);
      next := 0;
    }

    /** Hands out the card under the cursor and advances the cursor; the source does not
        check the bound, so running past the end is the caller's error. */
    method DealCard() returns (c: Card)
      requires 0 <= next < |cards|
      modifies this`next
      ensures c == cards[old(next)] && next == old(next) + 1
    {
      c := cards[next];
      next := next + 1;
    }

    /** Wide-stream rendering of the deck, with a flag that suppresses the first separator. */
    method Render() returns (s: string)
      ensures s == JoinCards(cards)
    {
      s := "";
      var afterFirst := false;
      for k := 0 to |cards|
        invariant afterFirst <==> k > 0
        invariant s == JoinCards(cards[..k])
      {
        var card := cards[k];
        if afterFirst {
          s := s + " " + CardToWide(card);
        } else {
          s := s + CardToWide(card);
          afterFirst := true;
        }
        assert cards[..k + 1][..k] == cards[..k];
      }
      assert cards[..|cards|] == cards;
    }
  }
}
