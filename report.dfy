/** The integer parts of the statistics report: how many classes each hole-hand class beats
    head to head, the share one class holds against another, and for each street the
    distribution of winning hand types and the median winning code. */
module Report {
  import opened Hands
  import opened Counting
  import opened Tally

  // ---------------------------------------------------------------------------
  // Head to head.

  /** Class i won more river pairs against class j than j won against i. */
  predicate Dominates(beat: seq<seq<int>>, i: int, j: int)
    requires Square(beat, |beat|) && 0 <= i < |beat| && 0 <= j < |beat|
  {
    beat[i][j] > beat[j][i]
  }

  /** The classes among 0..j-1 that class i dominates. */
  function DominatedBelow(beat: seq<seq<int>>, i: int, j: int): set<int>
    requires Square(beat, |beat|) && 0 <= i < |beat| && 0 <= j <= |beat|
  {
    set k | 0 <= k < j && Dominates(beat, i, k)
  }

  /** How many of the classes 0..j-1 class i dominates, counted one class at a time. */
  function DominatedCount(beat: seq<seq<int>>, i: int, j: int): nat
    requires Square(beat, |beat|) && 0 <= i < |beat| && 0 <= j <= |beat|
  {
    if j == 0 then 0
    else DominatedCount(beat, i, j - 1) + (if Dominates(beat, i, j - 1) then 1 else 0)
  }

  /** The count is the size of the set of dominated classes. */
  lemma {:induction false} DominatedCountIsSize(beat: seq<seq<int>>, i: int, j: int)
    requires Square(beat, |beat|) && 0 <= i < |beat| && 0 <= j <= |beat|
    ensures DominatedCount(beat, i, j) == |DominatedBelow(beat, i, j)|
  {
    if j > 0 {
      DominatedCountIsSize(beat, i, j - 1);
      if Dominates(beat, i, j - 1) {
        assert DominatedBelow(beat, i, j) == DominatedBelow(beat, i, j - 1) + {j - 1};
      } else {
        assert DominatedBelow(beat, i, j) == DominatedBelow(beat, i, j - 1);
      }
    }
  }

  /** A class never dominates itself, so it dominates at most all the others. */
  lemma {:induction false} DominatedAtMostOthers(beat: seq<seq<int>>, i: int, j: int)
    requires Square(beat, |beat|) && 0 <= i < |beat| && 0 <= j <= |beat|
    ensures DominatedCount(beat, i, j) <= (if i < j then j - 1 else j)
  {
    if j > 0 {
      DominatedAtMostOthers(beat, i, j - 1);
    }
  }

  /** For each class, the number of classes it dominates, by a scan of every ordered pair
      of classes. */
  method HeadToHeadWins(beat: seq<seq<int>>) returns (wins: seq<int>)
    requires Square(beat, |beat|)
    ensures |wins| == |beat|
    ensures forall i :: 0 <= i < |beat| ==> wins[i] == |DominatedBelow(beat, i, |beat|)|
    ensures forall i :: 0 <= i < |beat| ==> 0 <= wins[i] < |beat|
  {
    var n := |beat|;
    wins := Zeros(n);
    for i := 0 to n
      invariant |wins| == n
      invariant forall k :: 0 <= k < i ==> wins[k] == DominatedCount(beat, k, n)
      invariant forall k :: i <= k < n ==> wins[k] == 0
    {
      for j := 0 to n
        invariant |wins| == n
        invariant forall k :: 0 <= k < i ==> wins[k] == DominatedCount(beat, k, n)
        invariant forall k :: i < k < n ==> wins[k] == 0
        invariant wins[i] == DominatedCount(beat, i, j)
      {
        if beat[i][j] > beat[j][i] {
          wins := wins[i := wins[i] + 1];
        }
      }
    }
    forall i | 0 <= i < n
      ensures wins[i] == |DominatedBelow(beat, i, n)| && 0 <= wins[i] < n
    {
      DominatedCountIsSize(beat, i, n);
      DominatedAtMostOthers(beat, i, n);
    }
  }

  /** What the report shows for class i against class j: no river pair between them, the
      same class on both sides, or i's wins out of the pairs they played. */
  datatype Share = NoPairs | SameClass | Won(wins: int, pairs: int)

  function PairShare(beat: seq<seq<int>>, i: int, j: int): (s: Share)
    requires Square(beat, |beat|) && 0 <= i < |beat| && 0 <= j < |beat|
  {
    if beat[i][j] + beat[j][i] == 0 then NoPairs
    else if i == j then SameClass
    else Won(beat[i][j], beat[i][j] + beat[j][i])
  }

  /** Seen from both sides, two different classes that met share the pairs they played:
      their wins add up to the pairs, and the class with more than half of them is the one
      that dominates. With no pairs, both sides show the sentinel. */
  lemma SharesComplement(beat: seq<seq<int>>, i: int, j: int)
    requires Square(beat, |beat|) && 0 <= i < |beat| && 0 <= j < |beat|
    ensures PairShare(beat, i, j).NoPairs? <==> PairShare(beat, j, i).NoPairs?
    ensures PairShare(beat, i, j).SameClass? <==> (i == j && !PairShare(beat, i, j).NoPairs?)
    ensures i != j && !PairShare(beat, i, j).NoPairs? ==>
      var a, b := PairShare(beat, i, j), PairShare(beat, j, i);
      a.Won? && b.Won? && a.pairs == b.pairs && a.wins + b.wins == a.pairs
      && (2 * a.wins > a.pairs <==> Dominates(beat, i, j))
  {
  }

  // ---------------------------------------------------------------------------
  // Winning hands of one street.

  /** The number of hand types a sort code can carry: HANDTYPE_UNSPECIFIED..STRAIGHT_FLUSH. */
  const TYPE_COUNT := 10

  /** Integer division as C++ performs it: the quotient is truncated toward zero. */
  function TruncDiv(a: int, b: int): int
    requires b > 0
  {
    if a >= 0 then a / b else -((-a) / b)
  }

  /** The wins counted at codes 0..k-1. */
  function Total(counts: seq<int>, k: int): int
    requires 0 <= k <= |counts|
  {
    if k == 0 then 0 else Total(counts, k - 1) + counts[k - 1]
  }

  /** The wins counted at codes 0..k-1 whose hand type is t. */
  function TypeTotal(counts: seq<int>, t: int, k: int): int
    requires 0 <= k <= |counts|
  {
    if k == 0 then 0
    else TypeTotal(counts, t, k - 1) + (if SortCodeType(k - 1) == t then counts[k - 1] else 0)
  }

  /** Code i has wins and the running total up to and including it reaches the median. */
  predicate Reaches(counts: seq<int>, median: int, i: int)
    requires 0 <= i < |counts|
  {
    counts[i] != 0 && Total(counts, i + 1) >= median
  }

  /** The winning hand types of one street and its median code. Every code with wins adds
      them to its hand type and to the running total; the median code is the first code at
      which the running total reaches half the games, where 0 means not yet found, so a code
      0 that reaches it is passed over. */
  method WinningHandSummary(counts: seq<int>, iterations: int) returns (byType: seq<int>, total: int, offset: int)
    requires |counts| <= TYPE_COUNT * TYPE_SHIFT
    ensures |byType| == TYPE_COUNT && total == Total(counts, |counts|)
    ensures forall t :: 0 <= t < TYPE_COUNT ==> byType[t] == TypeTotal(counts, t, |counts|)
    ensures Sum(byType) == total
    ensures offset == 0 <==> forall i :: 1 <= i < |counts| ==> !Reaches(counts, TruncDiv(iterations, 2), i)
    ensures offset != 0 ==>
      1 <= offset < |counts| && Reaches(counts, TruncDiv(iterations, 2), offset)
      && forall i :: 1 <= i < offset ==> !Reaches(counts, TruncDiv(iterations, 2), i)
  {
    var median := TruncDiv(iterations, 2);
    byType := Zeros(TYPE_COUNT);
    total := 0;
    offset := 0;
    ZerosSum(TYPE_COUNT);
    for i := 0 to |counts|
      invariant |byType| == TYPE_COUNT && total == Total(counts, i)
      invariant forall t :: 0 <= t < TYPE_COUNT ==> byType[t] == TypeTotal(counts, t, i)
      invariant Sum(byType) == total
      invariant offset == 0 <==> forall k :: 1 <= k < i ==> !Reaches(counts, median, k)
      invariant offset != 0 ==>
        1 <= offset < i && Reaches(counts, median, offset)
        && forall k :: 1 <= k < offset ==> !Reaches(counts, median, k)
    {
      if counts[i] != 0 {
        var t := SortCodeType(i);
        SumUpdate(byType, t, counts[i]);
        byType := byType[t := byType[t] + counts[i]];
        total := total + counts[i];
        if offset == 0 && total >= median {
          offset := i;
        }
      }
      assert Reaches(counts, median, i) <==> counts[i] != 0 && Total(counts, i) + counts[i] >= median;
    }
  }

  /** With no negative counts the running total never falls. */
  lemma {:induction false} TotalMonotone(counts: seq<int>, j: int, k: int)
    requires forall i :: 0 <= i < |counts| ==> counts[i] >= 0
    requires 0 <= j <= k <= |counts|
    ensures Total(counts, j) <= Total(counts, k)
    decreases k
  {
    if j < k {
      TotalMonotone(counts, j, k - 1);
    }
  }

  /** With no negative counts, once the median code is found every later running total,
      the whole street's included, stays at or above the median. */
  lemma MedianStaysReached(counts: seq<int>, median: int, offset: int)
    requires forall i :: 0 <= i < |counts| ==> counts[i] >= 0
    requires 0 <= offset < |counts| && Reaches(counts, median, offset)
    ensures forall k :: offset < k <= |counts| ==> Total(counts, k) >= median
  {
    forall k | offset < k <= |counts|
      ensures Total(counts, k) >= median
    {
      TotalMonotone(counts, offset + 1, k);
    }
  }

  /** Summed over the hand types, the distribution counts every win at every code. */
  lemma {:induction false} TypesCoverTotal(counts: seq<int>, k: int)
    requires 0 <= k <= |counts| <= TYPE_COUNT * TYPE_SHIFT
    ensures Sum(seq(TYPE_COUNT, t => TypeTotal(counts, t, k))) == Total(counts, k)
  {
    if k == 0 {
      ZerosSum(TYPE_COUNT);
      assert seq(TYPE_COUNT, t => TypeTotal(counts, t, 0)) == Zeros(TYPE_COUNT);
    } else {
      TypesCoverTotal(counts, k - 1);
      var before := seq(TYPE_COUNT, t => TypeTotal(counts, t, k - 1));
      var t := SortCodeType(k - 1);
      SumUpdate(before, t, counts[k - 1]);
      assert seq(TYPE_COUNT, u => TypeTotal(counts, u, k)) == before[t := before[t] + counts[k - 1]];
    }
  }

  lemma {:induction false} ZerosSum(n: nat)
    ensures Sum(Zeros(n)) == 0
  {
    if n > 0 {
      assert Zeros(n)[..n - 1] == Zeros(n - 1);
      ZerosSum(n - 1);
    }
  }
}
