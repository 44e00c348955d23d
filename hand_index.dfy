/** The map from hole-hand class to dense index that the statistics build, and the loop
    that builds it. */
module HandIndex {
  import opened Cards
  import opened Hands
  import opened Holdem
  import opened HoleIndex

  /** The index holds every hole-hand class, and nothing else, at its position. */
  ghost predicate IndexesAllClasses(m: map<Hand, int>)
  {
    (forall h :: h in m ==> IsHoleClass(h))
    && (forall h :: IsHoleClass(h) ==> h in m && m[h] == ClassIndex(h))
    && |m| == HOLE_HAND_COUNT
  }

  /** Classes numbered before the pair (r1 = r2) or the suited and offsuit pair of classes
      (r1 > r2) of ranks r1, r2: a higher high rank, or the same high rank and a higher
      low rank. */
  ghost predicate Before(h: Hand, r1: int, r2: int)
  {
    IsHoleClass(h) && (h.ranks[0] > r1 || (h.ranks[0] == r1 && h.ranks[1] > r2))
  }

  /** The index loop's state: the classes before (r1, r2), each at its position. */
  ghost predicate IndexedUpTo(m: map<Hand, int>, r1: int, r2: int)
  {
    (forall h :: h in m <==> Before(h, r1, r2)) && (forall h :: h in m ==> m[h] == ClassIndex(h))
  }

  /** A class is determined by its two ranks and its type. */
  lemma ClassIsKey(h: Hand)
    requires IsHoleClass(h)
    ensures h == HoleHandOf(h.ranks[0], h.ranks[1], h.handType)
  {
    assert h.ranks == [h.ranks[0], h.ranks[1]];
  }

  /** Numbering the pair of rank r1 moves the loop's state to the lower ranks of r1. */
  lemma PairStep(m: map<Hand, int>, r1: int)
    requires TWO <= r1 <= ACE && IndexedUpTo(m, r1, ACE)
    ensures var pair := HoleHandOf(r1, r1, ONE_PAIR);
      pair !in m && IsHoleClass(pair) && IndexedUpTo(m[pair := ClassIndex(pair)], r1, r1 - 1)
  {
    var pair := HoleHandOf(r1, r1, ONE_PAIR);
    var below := r1 - 1;
    forall h | Before(h, r1, below)
      ensures h in m[pair := ClassIndex(pair)]
    {
      if h.ranks[0] == r1 {
        ClassIsKey(h);
      }
    }
  }

  /** Numbering the suited and offsuit classes of (r1, r2) moves the state to r2 - 1. */
  lemma SideStep(m: map<Hand, int>, r1: int, r2: int)
    requires TWO <= r2 < r1 <= ACE && IndexedUpTo(m, r1, r2)
    ensures var suited, offsuit := HoleHandOf(r1, r2, FLUSH), HoleHandOf(r1, r2, HIGH_CARD);
      suited !in m && offsuit !in m[suited := ClassIndex(suited)]
      && IsHoleClass(suited) && IsHoleClass(offsuit)
      && IndexedUpTo(m[suited := ClassIndex(suited)][offsuit := ClassIndex(offsuit)], r1, r2 - 1)
  {
    var suited, offsuit := HoleHandOf(r1, r2, FLUSH), HoleHandOf(r1, r2, HIGH_CARD);
    var m' := m[suited := ClassIndex(suited)][offsuit := ClassIndex(offsuit)];
    forall h | Before(h, r1, r2 - 1)
      ensures h in m'
    {
      if h.ranks[0] == r1 && h.ranks[1] == r2 {
        ClassIsKey(h);
      }
    }
  }

  /** After the lowest rank the state is the one before the next high rank. */
  lemma RowDone(m: map<Hand, int>, r1: int)
    requires TWO <= r1 <= ACE && IndexedUpTo(m, r1, ONE)
    ensures IndexedUpTo(m, r1 - 1, ACE)
  {
  }

  /** The index loop of the constructor: for each high rank from ACE down, the pair, then
      for each lower rank the suited and the offsuit class, numbered as they come. */
  method BuildHandIndex() returns (m: map<Hand, int>, offset: int)
    ensures IndexesAllClasses(m) && offset == |m| == HOLE_HAND_COUNT
  {
    m := map[];
    offset := 0;
    var rank1 := ACE;
    while rank1 > ONE
      invariant ONE <= rank1 <= ACE
      invariant offset == BlockStart(rank1) == |m|
      invariant IndexedUpTo(m, rank1, ACE)
    {
      m, offset, rank1 := NumberRow(m, offset, rank1);
    }
    BlockStartBounds(ONE);
    AllIndexed(m);
  }

  /** Once the loop has passed the lowest rank, every class is numbered. */
  lemma AllIndexed(m: map<Hand, int>)
    requires IndexedUpTo(m, ONE, ACE) && |m| == HOLE_HAND_COUNT
    ensures IndexesAllClasses(m)
  {
    forall h | IsHoleClass(h)
      ensures h in m
    {
      assert Before(h, ONE, ACE);
    }
  }

  /** One pass of the index loop's body and its step: the pair of rank1, then the suited
      and offsuit classes of each lower rank, from high to low; then the next rank. */
  method NumberRow(m0: map<Hand, int>, offset0: int, rank1: Rank) returns (m: map<Hand, int>, offset: int, next: Rank)
    requires TWO <= rank1 <= ACE && IndexedUpTo(m0, rank1, ACE) && offset0 == BlockStart(rank1) == |m0|
    ensures next == rank1 - 1 && IndexedUpTo(m, next, ACE) && offset == BlockStart(next) == |m|
  {
    m, offset := m0, offset0;
    PairStep(m, rank1);
    var hand := HoleHandOf(rank1, rank1, ONE_PAIR);
    m := m[hand := offset];
    offset := offset + 1;
    var rank2 := OffsetRank(rank1, -1);
    while rank2 > ONE
      invariant ONE <= rank2 < rank1
      invariant offset == BlockStart(rank1) + 1 + 2 * (rank1 - 1 - rank2) == |m|
      invariant IndexedUpTo(m, rank1, rank2)
    {
      m, offset := NumberSides(m, offset, rank1, rank2);
      rank2 := OffsetRank(rank2, -1);
    }
    RowDone(m, rank1);
    BlockStep(rank1);
    next := OffsetRank(rank1, -1);
  }

  /** One pass of the inner loop's body: the suited, then the offsuit class of (rank1, rank2). */
  method NumberSides(m0: map<Hand, int>, offset0: int, rank1: Rank, rank2: Rank) returns (m: map<Hand, int>, offset: int)
    requires TWO <= rank2 < rank1 <= ACE && IndexedUpTo(m0, rank1, rank2)
    requires offset0 == BlockStart(rank1) + 1 + 2 * (rank1 - 1 - rank2) == |m0|
    ensures IndexedUpTo(m, rank1, rank2 - 1) && offset == offset0 + 2 == |m|
  {
    m, offset := m0, offset0;
    SideStep(m, rank1, rank2);
    var hand := HoleHandOf(rank1, rank2, FLUSH);
    m := m[hand := offset];
    offset := offset + 1;
    hand := HoleHandOf(rank1, rank2, HIGH_CARD);
    m := m[hand := offset];
    offset := offset + 1;
  }
}
