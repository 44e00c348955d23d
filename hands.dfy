/** Hand types, hands, the sort-code packing, hand equality and hashing, and hand rendering. */
module Hands {
  import opened Cards

  /** A hand type is the ordinal of the hand-type enumeration; the evaluator compares them. */
  type HandType = int

  const HANDTYPE_UNSPECIFIED: HandType := 0
  const HIGH_CARD: HandType := 1
  const ONE_PAIR: HandType := 2
  const TWO_PAIR: HandType := 3
  const THREE_OF_A_KIND: HandType := 4
  const STRAIGHT: HandType := 5
  const FLUSH: HandType := 6
  const FULL_HOUSE: HandType := 7
  const FOUR_OF_A_KIND: HandType := 8
  const STRAIGHT_FLUSH: HandType := 9

  /** A hand: its type and its ranks, best to worst (pattern ranks, then kickers).
      The stored sort code is not a field: it is always SortCode of the other two. */
  datatype Hand = Hand(handType: HandType, ranks: seq<Rank>)

  const EMPTY_HAND := Hand(HANDTYPE_UNSPECIFIED, [])

  // ---------------------------------------------------------------------------
  // Sort code: the type in bits 20 and up, then five 4-bit ranks, most significant first.

  const TYPE_SHIFT := 0x10_0000

  /** Weight of the rank at position k (0..4) in the sort code. */
  function RankWeight(k: nat): (w: nat)
    requires k < 5
    ensures w * 16 == if k == 0 then TYPE_SHIFT else RankWeight(k - 1)
  {
    if k == 0 then 0x1_0000 else if k == 1 then 0x1000 else if k == 2 then 0x100 else if k == 3 then 0x10 else 1
  }

  /** The k-th rank of a hand, or 0 when the hand has fewer ranks. */
  function RankAt(h: Hand, k: nat): Rank
  {
    if k < |h.ranks| then h.ranks[k] else RANK_UNSPECIFIED
  }

  /** The packed integer key of a hand. */
  function SortCode(h: Hand): int
  {
    h.handType * TYPE_SHIFT + RankAt(h, 0) * 0x1_0000 + RankAt(h, 1) * 0x1000
      + RankAt(h, 2) * 0x100 + RankAt(h, 3) * 0x10 + RankAt(h, 4)
  }

  /** A hand the packing covers: a type ordinal, at most five ranks, each in ONE..ACE. */
  predicate WellFormed(h: Hand)
  {
    HANDTYPE_UNSPECIFIED <= h.handType <= STRAIGHT_FLUSH && |h.ranks| <= 5
    && forall k :: 0 <= k < |h.ranks| ==> ONE <= h.ranks[k] <= ACE
  }

  /** A hand with all five rank slots filled. */
  predicate FullHand(h: Hand) { WellFormed(h) && |h.ranks| == 5 }

  /** The hand type stored in a sort code. */
  function SortCodeType(code: int): HandType { code / TYPE_SHIFT }

  /** The rank stored in slot k (0..4) of a sort code. */
  function SortCodeRank(code: int, k: nat): Rank
    requires k < 5
  {
    (code / RankWeight(k)) % 16
  }

  /** Unpacks a sort code into a type and five rank slots. */
  function SortCodeToHand(code: int): (h: Hand)
    ensures |h.ranks| == 5
  {
    Hand(SortCodeType(code), seq(5, k requires 0 <= k < 5 => SortCodeRank(code, k)))
  }

  /** A hand padded with empty rank slots to five. */
  function Padded(h: Hand): (p: Hand)
    ensures |p.ranks| == 5
  {
    Hand(h.handType, seq(5, k requires 0 <= k < 5 => RankAt(h, k)))
  }

  /** Splits x = q * b + r with 0 <= r < b into its quotient and remainder. */
  lemma DivModUnique(x: int, b: int, q: int, r: int)
    requires b > 0 && 0 <= r < b && x == q * b + r
    ensures x / b == q && x % b == r
  {
    var q0, r0 := x / b, x % b;
    if q0 < q {
      MulAtLeast(q - q0, b);
      assert false;
    } else if q < q0 {
      MulAtLeast(q0 - q, b);
      assert false;
    }
  }

  lemma {:induction false} MulAtLeast(k: int, p: int)
    requires k >= 1 && p >= 0
    ensures k * p >= p
    decreases k
  {
    if k > 1 {
      MulAtLeast(k - 1, p);
      assert k * p == (k - 1) * p + p;
    }
  }

  /** Decoding an encoded well-formed hand gives back the hand, with missing ranks as empty slots. */
  lemma {:induction false} SortCodeRoundTrip(h: Hand)
    requires WellFormed(h)
    ensures SortCodeToHand(SortCode(h)) == Padded(h)
  {
    var c := SortCode(h);
    var r0, r1, r2, r3, r4 := RankAt(h, 0), RankAt(h, 1), RankAt(h, 2), RankAt(h, 3), RankAt(h, 4);
    assert 0 <= r0 < 16 && 0 <= r1 < 16 && 0 <= r2 < 16 && 0 <= r3 < 16 && 0 <= r4 < 16;
    var low := r0 * 0x1_0000 + r1 * 0x1000 + r2 * 0x100 + r3 * 0x10 + r4;
    DivModUnique(c, TYPE_SHIFT, h.handType, low);
    DivModUnique(c, 0x1_0000, h.handType * 16 + r0, r1 * 0x1000 + r2 * 0x100 + r3 * 0x10 + r4);
    DivModUnique(h.handType * 16 + r0, 16, h.handType, r0);
    DivModUnique(c, 0x1000, (h.handType * 16 + r0) * 16 + r1, r2 * 0x100 + r3 * 0x10 + r4);
    DivModUnique((h.handType * 16 + r0) * 16 + r1, 16, h.handType * 16 + r0, r1);
    DivModUnique(c, 0x100, ((h.handType * 16 + r0) * 16 + r1) * 16 + r2, r3 * 0x10 + r4);
    DivModUnique(((h.handType * 16 + r0) * 16 + r1) * 16 + r2, 16, (h.handType * 16 + r0) * 16 + r1, r2);
    DivModUnique(c, 0x10, (((h.handType * 16 + r0) * 16 + r1) * 16 + r2) * 16 + r3, r4);
    DivModUnique((((h.handType * 16 + r0) * 16 + r1) * 16 + r2) * 16 + r3, 16, ((h.handType * 16 + r0) * 16 + r1) * 16 + r2, r3);
    DivModUnique(c, 1, c, 0);
    DivModUnique(c, 16, c / 16, r4);
    var d := SortCodeToHand(c);
    assert d.ranks[0] == r0 && d.ranks[1] == r1 && d.ranks[2] == r2 && d.ranks[3] == r3 && d.ranks[4] == r4;
    assert d.ranks == Padded(h).ranks;
  }

  /** Padding loses nothing: the number of ranks is the number of non-empty slots. */
  lemma PaddedInjective(a: Hand, b: Hand)
    requires WellFormed(a) && WellFormed(b) && Padded(a) == Padded(b)
    ensures a == b
  {
    assert forall k :: 0 <= k < 5 ==> RankAt(a, k) == RankAt(b, k) by {
      forall k | 0 <= k < 5 ensures RankAt(a, k) == RankAt(b, k) {
        assert Padded(a).ranks[k] == Padded(b).ranks[k];
      }
    }
    FilledSlots(a);
    FilledSlots(b);
    assert forall k :: 0 <= k < |a.ranks| ==> a.ranks[k] == RankAt(a, k) && b.ranks[k] == RankAt(b, k);
  }

  /** Number of non-empty slots. */
  function CountFilled(slots: seq<Rank>): nat
  {
    if |slots| == 0 then 0 else (if slots[0] != RANK_UNSPECIFIED then 1 else 0) + CountFilled(slots[1..])
  }

  lemma {:induction false} CountFilledFrom(h: Hand, k: nat)
    requires WellFormed(h) && k <= 5
    ensures CountFilled(Padded(h).ranks[k..]) == if k < |h.ranks| then |h.ranks| - k else 0
    decreases 5 - k
  {
    if k < 5 {
      CountFilledFrom(h, k + 1);
      assert Padded(h).ranks[k..][1..] == Padded(h).ranks[k + 1..];
    }
  }

  /** The padded slots hold exactly |ranks| non-empty entries. */
  lemma FilledSlots(h: Hand)
    requires WellFormed(h)
    ensures CountFilled(Padded(h).ranks) == |h.ranks|
  {
    CountFilledFrom(h, 0);
    assert Padded(h).ranks[0..] == Padded(h).ranks;
  }

  /** Distinct well-formed hands have distinct sort codes. */
  lemma SortCodeInjective(a: Hand, b: Hand)
    requires WellFormed(a) && WellFormed(b) && SortCode(a) == SortCode(b)
    ensures a == b
  {
    SortCodeRoundTrip(a);
    SortCodeRoundTrip(b);
    PaddedInjective(a, b);
  }

  /** Lexicographic order on the six packed fields: type first, then the rank slots in order. */
  predicate PaddedLess(a: Hand, b: Hand)
  {
    var x := [a.handType, RankAt(a, 0), RankAt(a, 1), RankAt(a, 2), RankAt(a, 3), RankAt(a, 4)];
    var y := [b.handType, RankAt(b, 0), RankAt(b, 1), RankAt(b, 2), RankAt(b, 3), RankAt(b, 4)];
    LexLessSeq(x, y)
  }

  predicate LexLessSeq(x: seq<int>, y: seq<int>)
    requires |x| == |y|
  {
    |x| > 0 && (x[0] < y[0] || (x[0] == y[0] && LexLessSeq(x[1..], y[1..])))
  }

  /** Value of digits in base 16, most significant first. */
  function Digits(x: seq<int>): int
  {
    if |x| == 0 then 0 else Digits(x[..|x| - 1]) * 16 + x[|x| - 1]
  }

  function Pow16(n: nat): nat
  {
    if n == 0 then 1 else 16 * Pow16(n - 1)
  }

  predicate NibbleDigits(x: seq<int>) { forall k :: 0 <= k < |x| ==> 0 <= x[k] < 16 }

  lemma {:induction false} DigitsBound(x: seq<int>)
    requires NibbleDigits(x)
    ensures 0 <= Digits(x) < Pow16(|x|)
  {
    if |x| > 0 {
      DigitsBound(x[..|x| - 1]);
    }
  }

  lemma {:induction false} DigitsHead(x: seq<int>)
    requires |x| > 0
    ensures Digits(x) == x[0] * Pow16(|x| - 1) + Digits(x[1..])
  {
    if |x| > 1 {
      DigitsHead(x[..|x| - 1]);
      assert x[..|x| - 1][1..] == x[1..][..|x[1..]| - 1];
    } else {
      assert x[..0] == [];
    }
  }

  /** Comparing base-16 values of equal-length digit strings is lexicographic comparison. */
  lemma {:induction false} DigitsOrder(x: seq<int>, y: seq<int>)
    requires |x| == |y| && NibbleDigits(x) && NibbleDigits(y)
    ensures Digits(x) < Digits(y) <==> LexLessSeq(x, y)
  {
    if |x| > 0 {
      DigitsHead(x);
      DigitsHead(y);
      DigitsBound(x[1..]);
      DigitsBound(y[1..]);
      DigitsOrder(x[1..], y[1..]);
      LeadingDigit(x[0], Digits(x[1..]), y[0], Digits(y[1..]), Pow16(|x| - 1));
    }
  }

  /** The leading digit decides unless the leading digits are equal. */
  lemma LeadingDigit(a: int, ra: int, b: int, rb: int, p: int)
    requires 0 <= ra < p && 0 <= rb < p
    ensures a < b ==> a * p + ra < b * p + rb
    ensures a > b ==> a * p + ra > b * p + rb
  {
    if a < b {
      MulAtLeast(b - a, p);
      assert b * p - a * p == (b - a) * p;
    } else if a > b {
      MulAtLeast(a - b, p);
      assert a * p - b * p == (a - b) * p;
    }
  }

  /** The value of six digits, written out. */
  lemma DigitsOfSix(x: seq<int>)
    requires |x| == 6
    ensures Digits(x) == x[0] * TYPE_SHIFT + x[1] * 0x1_0000 + x[2] * 0x1000 + x[3] * 0x100 + x[4] * 0x10 + x[5]
  {
    assert x[..1][..0] == [];
    assert Digits(x[..1]) == x[0];
    assert x[..2][..1] == x[..1];
    assert Digits(x[..2]) == x[0] * 16 + x[1];
    assert x[..3][..2] == x[..2];
    assert Digits(x[..3]) == (x[0] * 16 + x[1]) * 16 + x[2];
    assert x[..4][..3] == x[..3];
    assert Digits(x[..4]) == ((x[0] * 16 + x[1]) * 16 + x[2]) * 16 + x[3];
    assert x[..5][..4] == x[..4];
    assert Digits(x[..5]) == (((x[0] * 16 + x[1]) * 16 + x[2]) * 16 + x[3]) * 16 + x[4];
    assert x[..6] == x;
    assert x[..5] == x[..|x| - 1];
  }

  /** Integer order on sort codes is the order on (type, rank 1, ..., rank 5): comparing
      codes ranks hands by type first and then rank by rank. */
  lemma SortCodeOrder(a: Hand, b: Hand)
    requires WellFormed(a) && WellFormed(b)
    ensures SortCode(a) < SortCode(b) <==> PaddedLess(a, b)
  {
    var x := [a.handType, RankAt(a, 0), RankAt(a, 1), RankAt(a, 2), RankAt(a, 3), RankAt(a, 4)];
    var y := [b.handType, RankAt(b, 0), RankAt(b, 1), RankAt(b, 2), RankAt(b, 3), RankAt(b, 4)];
    DigitsOfSix(x);
    DigitsOfSix(y);
    DigitsOrder(x, y);
  }

  /** The largest code the statistics size their per-code counters by: a straight flush of five aces. */
  const SORT_CODE_LIMIT := 10_415_855

  lemma SortCodeLimit(h: Hand)
    requires WellFormed(h)
    ensures 0 <= SortCode(h) < SORT_CODE_LIMIT
    ensures SORT_CODE_LIMIT == SortCode(Hand(STRAIGHT_FLUSH, [ACE, ACE, ACE, ACE, ACE])) + 1
  {
  }

  // ---------------------------------------------------------------------------
  // Equality and hashing are on the sort code alone.

  /** Hand equality: equal sort codes. */
  predicate HandEq(a: Hand, b: Hand) { SortCode(a) == SortCode(b) }

  /** The hash of a hand is its sort code. */
  function HandHash(h: Hand): int
  {
    SortCode(h)
  }

  /** Hashing is consistent with equality: equal hands hash alike, and on well-formed
      hands equal hashes mean equal hands. */
  lemma HashConsistent(a: Hand, b: Hand)
    requires WellFormed(a) && WellFormed(b)
    ensures HandEq(a, b) <==> HandHash(a) == HandHash(b)
    ensures HandHash(a) == HandHash(b) ==> a == b
  {
    if HandHash(a) == HandHash(b) {
      SortCodeInjective(a, b);
    }
  }

  /** On well-formed hands, sort-code equality is structural equality: suits and the
      order in which a hand was built play no part. */
  lemma HandEqIsEquality(a: Hand, b: Hand)
    requires WellFormed(a) && WellFormed(b)
    ensures HandEq(a, b) <==> a == b
  {
    if HandEq(a, b) {
      SortCodeInjective(a, b);
    }
  }

  // ---------------------------------------------------------------------------
  // Rendering: the type name and a space, then one character per rank.

  function TypeName(t: HandType): (s: string)
  {
    if t == STRAIGHT_FLUSH then "straight-flush "
    else if t == FOUR_OF_A_KIND then "four-of-a-kind "
    else if t == FULL_HOUSE then "full-house "
    else if t == FLUSH then "flush "
    else if t == STRAIGHT then "straight "
    else if t == THREE_OF_A_KIND then "three-of-a-kind "
    else if t == TWO_PAIR then "two-pair "
    else if t == ONE_PAIR then "one-pair "
    else if t == HIGH_CARD then "high-card "
    else "?"
  }

  function RanksToString(ranks: seq<Rank>): (s: string)
    ensures |s| == |ranks|
  {
    if |ranks| == 0 then "" else RanksToString(ranks[..|ranks| - 1]) + RankToString(ranks[|ranks| - 1])
  }

  function HandToString(h: Hand): string
  {
    TypeName(h.handType) + RanksToString(h.ranks)
  }

  lemma {:induction false} RanksToStringAt(ranks: seq<Rank>, k: nat)
    requires k < |ranks|
    ensures RanksToString(ranks)[k] == RankToString(ranks[k])[0]
    decreases |ranks|
  {
    if k < |ranks| - 1 {
      RanksToStringAt(ranks[..|ranks| - 1], k);
    }
  }

  /** Reads the rank characters back. */
  function ParseRanks(s: string): seq<Rank>
  {
    seq(|s|, k requires 0 <= k < |s| => ParseRank(s[k]))
  }

  lemma RanksRoundTrip(ranks: seq<Rank>)
    requires forall k :: 0 <= k < |ranks| ==> ONE <= ranks[k] <= ACE
    ensures ParseRanks(RanksToString(ranks)) == ranks
  {
    forall k | 0 <= k < |ranks| ensures ParseRanks(RanksToString(ranks))[k] == ranks[k] {
      RanksToStringAt(ranks, k);
      RankRoundTrip(ranks[k]);
    }
  }

  /** Position of the first space, or |s| when there is none. */
  function FirstSpace(s: string): (k: nat)
    ensures k <= |s|
  {
    if |s| == 0 then 0 else if s[0] == ' ' then 0 else 1 + FirstSpace(s[1..])
  }

  lemma {:induction false} FirstSpaceAfter(name: string, rest: string)
    requires |name| > 0 && name[|name| - 1] == ' ' && ' ' !in name[..|name| - 1]
    ensures FirstSpace(name + rest) == |name| - 1
    decreases |name|
  {
    if |name| > 1 {
      assert (name + rest)[1..] == name[1..] + rest;
      assert name[1..][..|name[1..]| - 1] == name[..|name| - 1][1..];
      FirstSpaceAfter(name[1..], rest);
    }
  }

  /** Recovers the hand type from the characters up to and including the first space. */
  function ParseTypeName(s: string): HandType
  {
    if s == "straight-flush " then STRAIGHT_FLUSH
    else if s == "four-of-a-kind " then FOUR_OF_A_KIND
    else if s == "full-house " then FULL_HOUSE
    else if s == "flush " then FLUSH
    else if s == "straight " then STRAIGHT
    else if s == "three-of-a-kind " then THREE_OF_A_KIND
    else if s == "two-pair " then TWO_PAIR
    else if s == "one-pair " then ONE_PAIR
    else if s == "high-card " then HIGH_CARD
    else HANDTYPE_UNSPECIFIED
  }

  /** Reads a rendered hand back: the type name up to the first space, then the ranks. */
  function ParseHand(s: string): Hand
  {
    var k := FirstSpace(s);
    if k < |s| then Hand(ParseTypeName(s[..k + 1]), ParseRanks(s[k + 1..]))
    else Hand(HANDTYPE_UNSPECIFIED, [])
  }

  /** A hand with a named type and ranks in ONE..ACE renders to a string that reads back
      as the same hand; in particular distinct such hands render differently. */
  lemma HandToStringRoundTrip(h: Hand)
    requires HIGH_CARD <= h.handType <= STRAIGHT_FLUSH
    requires forall k :: 0 <= k < |h.ranks| ==> ONE <= h.ranks[k] <= ACE
    ensures ParseHand(HandToString(h)) == h
  {
    var name := TypeName(h.handType);
    var s := HandToString(h);
    TypeNameRoundTrip(h.handType);
    FirstSpaceAfter(name, RanksToString(h.ranks));
    assert s[..|name|] == name;
    assert s[|name|..] == RanksToString(h.ranks);
    RanksRoundTrip(h.ranks);
  }

  /** Every named type renders as a word with one space at its end, which reads back as
      the same type. */
  lemma TypeNameRoundTrip(t: HandType)
    requires HIGH_CARD <= t <= STRAIGHT_FLUSH
    ensures var name := TypeName(t);
      |name| > 0 && name[|name| - 1] == ' ' && ' ' !in name[..|name| - 1]
      && ParseTypeName(name) == t
  {
    if t <= STRAIGHT {
      LowerTypeNameRoundTrip(t);
    } else {
      UpperTypeNameRoundTrip(t);
    }
  }

  lemma LowerTypeNameRoundTrip(t: HandType)
    requires HIGH_CARD <= t <= STRAIGHT
    ensures var name := TypeName(t);
      |name| > 0 && name[|name| - 1] == ' ' && ' ' !in name[..|name| - 1]
      && ParseTypeName(name) == t
  {
  }

  lemma UpperTypeNameRoundTrip(t: HandType)
    requires FLUSH <= t <= STRAIGHT_FLUSH
    ensures var name := TypeName(t);
      |name| > 0 && name[|name| - 1] == ' ' && ' ' !in name[..|name| - 1]
      && ParseTypeName(name) == t
  {
  }

  /** An unnamed type renders as "?" with no separating space. */
  lemma UnnamedTypeRendering(h: Hand)
    requires !(HIGH_CARD <= h.handType <= STRAIGHT_FLUSH)
    ensures HandToString(h) == "?" + RanksToString(h.ranks)
  {
  }

  /** The rendering the evaluator's tests compare against. */
  lemma TwoPairRendering()
    ensures HandToString(Hand(TWO_PAIR, [KING, KING, SEVEN, SEVEN, ACE])) == "two-pair KK77A"
  {
    var r := [KING, KING, SEVEN, SEVEN, ACE];
    assert r[..1][..0] == [];
    assert RanksToString(r[..1]) == "K";
    assert r[..2][..1] == r[..1];
    assert RanksToString(r[..2]) == "KK";
    assert r[..3][..2] == r[..2];
    assert RanksToString(r[..3]) == "KK7";
    assert r[..4][..3] == r[..3];
    assert RanksToString(r[..4]) == "KK77";
    assert r[..5][..4] == r[..4];
    assert r[..5] == r;
  }
}
