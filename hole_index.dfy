/** The dense numbering of the 169 hole-hand classes the statistics use: for each high
    rank from ACE down to TWO, the pair first, then for each lower rank from high to low
    the suited class followed by the offsuit one. */
module HoleIndex {
  import opened Cards
  import opened Hands
  import opened Holdem

  const HOLE_HAND_COUNT := 169

  /** The number of classes whose high rank is above r: block r + 1 holds its pair and two
      classes for each of the r - 1 ranks from TWO to r. */
  function BlockStart(r: int): (s: nat)
    requires ONE <= r <= ACE
    decreases ACE - r
  {
    if r == ACE then 0 else BlockStart(r + 1) + 2 * (r + 1) - 3
  }

  /** The closed form of the block starts: blocks of higher ranks come first, and all
      169 classes fit. */
  lemma {:induction false} BlockStartBounds(r: int)
    requires ONE <= r <= ACE
    ensures BlockStart(r) == (ACE - r) * (r + 12)
    decreases ACE - r
  {
    if r < ACE {
      BlockStartBounds(r + 1);
      assert (ACE - (r + 1)) * (r + 1 + 12) == 169 - r * r;
      assert (ACE - r) * (r + 12) == 168 + 2 * r - r * r;
    }
  }

  /** The position of a class in the numbering. */
  function ClassIndex(h: Hand): int
    requires IsHoleClass(h)
  {
    var hi, lo := h.ranks[0], h.ranks[1];
    if hi == lo then BlockStart(hi)
    else BlockStart(hi) + 1 + 2 * (hi - 1 - lo) + (if h.handType == FLUSH then 0 else 1)
  }

  /** The high rank of the class at position i: the rank whose block, searched downward
      from r, contains i. */
  function BlockOf(i: int, r: int): (hi: int)
    requires TWO <= r <= ACE && BlockStart(r) <= i < HOLE_HAND_COUNT
    ensures TWO <= hi <= r && BlockStart(hi) <= i < BlockStart(hi - 1)
    decreases r
  {
    if i < BlockStart(r - 1) || r == TWO then r else BlockOf(i, r - 1)
  }

  /** The class at position i: the inverse of ClassIndex. */
  function ClassAt(i: int): (h: Hand)
    requires 0 <= i < HOLE_HAND_COUNT
    ensures IsHoleClass(h)
  {
    var hi := BlockOf(i, ACE);
    var d := i - BlockStart(hi);
    if d == 0 then Hand(ONE_PAIR, [hi, hi])
    else Hand(if (d - 1) % 2 == 0 then FLUSH else HIGH_CARD, [hi, hi - 1 - (d - 1) / 2])
  }

  /** Every class has a position below 169, and the position gives the class back. */
  lemma ClassIndexRoundTrip(h: Hand)
    requires IsHoleClass(h)
    ensures 0 <= ClassIndex(h) < HOLE_HAND_COUNT
    ensures ClassAt(ClassIndex(h)) == h
  {
    var hi, lo := h.ranks[0], h.ranks[1];
    var i := ClassIndex(h);
    ClassInBlock(h);
    BlockOfFinds(i, ACE, hi);
    assert h.ranks == [hi, lo];
    var d := i - BlockStart(hi);
    if hi != lo {
      var t := if h.handType == FLUSH then 0 else 1;
      assert d - 1 == 2 * (hi - 1 - lo) + t;
      assert (d - 1) % 2 == t && (d - 1) / 2 == hi - 1 - lo;
      assert ClassAt(i) == Hand(if t == 0 then FLUSH else HIGH_CARD, [hi, lo]);
    } else {
      assert ClassAt(i) == Hand(ONE_PAIR, [hi, hi]);
    }
  }

  /** A class sits in the block of its high rank. */
  lemma ClassInBlock(h: Hand)
    requires IsHoleClass(h)
    ensures BlockStart(h.ranks[0]) <= ClassIndex(h) < BlockStart(h.ranks[0] - 1) <= HOLE_HAND_COUNT
  {
    BlockStep(h.ranks[0]);
    BlockStartMonotone(ONE, h.ranks[0] - 1);
  }

  /** Block r holds its pair and two classes for each lower rank from TWO up. */
  lemma BlockStep(r: int)
    requires TWO <= r <= ACE
    ensures BlockStart(r - 1) == BlockStart(r) + 2 * r - 3
  {
  }

  /** The block search finds the one block holding i. */
  lemma {:induction false} BlockOfFinds(i: int, r: int, hi: int)
    requires TWO <= hi <= r <= ACE && BlockStart(r) <= i < HOLE_HAND_COUNT
    requires BlockStart(hi) <= i < BlockStart(hi - 1)
    ensures BlockOf(i, r) == hi
    decreases r
  {
    if r == hi {
      assert i < BlockStart(r - 1);
    } else {
      BlockStartMonotone(hi, r - 1);
      assert BlockStart(r - 1) <= i && r != TWO;
      BlockOfFinds(i, r - 1, hi);
    }
  }

  /** Blocks of higher ranks start earlier. */
  lemma {:induction false} BlockStartMonotone(a: int, b: int)
    requires ONE <= a <= b <= ACE
    ensures BlockStart(b) <= BlockStart(a)
    decreases b - a
  {
    if a < b {
      BlockStartMonotone(a + 1, b);
      assert BlockStart(a) == BlockStart(a + 1) + 2 * a - 1;
    }
  }

  /** Every position 0..168 holds exactly one class. */
  lemma ClassAtRoundTrip(i: int)
    requires 0 <= i < HOLE_HAND_COUNT
    ensures ClassIndex(ClassAt(i)) == i
  {
    var hi := BlockOf(i, ACE);
    BlockStep(hi);
  }

  /** Distinct classes have distinct positions. */
  lemma ClassIndexInjective(a: Hand, b: Hand)
    requires IsHoleClass(a) && IsHoleClass(b) && ClassIndex(a) == ClassIndex(b)
    ensures a == b
  {
    ClassIndexRoundTrip(a);
    ClassIndexRoundTrip(b);
  }

  /** The first positions: pocket aces, then ace-king suited and offsuit; the last is
      pocket twos. */
  lemma IndexLandmarks()
    ensures ClassAt(0) == Hand(ONE_PAIR, [ACE, ACE])
    ensures ClassAt(1) == Hand(FLUSH, [ACE, KING]) && ClassAt(2) == Hand(HIGH_CARD, [ACE, KING])
    ensures ClassAt(HOLE_HAND_COUNT - 1) == Hand(ONE_PAIR, [TWO, TWO])
  {
    ClassIndexRoundTrip(Hand(ONE_PAIR, [ACE, ACE]));
    ClassIndexRoundTrip(Hand(FLUSH, [ACE, KING]));
    ClassIndexRoundTrip(Hand(HIGH_CARD, [ACE, KING]));
    BlockStartBounds(TWO);
    ClassIndexRoundTrip(Hand(ONE_PAIR, [TWO, TWO]));
  }
}
