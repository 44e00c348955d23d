/** A functional reference for the hand evaluator: the same scan, flush check and assembly,
    written as functions of the cards, so that the imperative evaluator can be proved equal
    to it and its properties can be proved once here. */
module EvaluatorSpec {
  import opened Cards
  import opened Hands

  // ---------------------------------------------------------------------------
  // Buckets.

  /** Suits of the cards of rank r, in the order the cards come. */
  function RankBucket(cards: seq<Card>, r: Rank): seq<Suit>
  {
    if |cards| == 0 then [] else
    var last := cards[|cards| - 1];
    RankBucket(cards[..|cards| - 1], r) + (if last.rank == r then [last.suit] else [])
  }

  /** Ranks of the cards whose suit has ordinal k, in the order the cards come. */
  function SuitBucket(cards: seq<Card>, k: int): seq<Rank>
  {
    if |cards| == 0 then [] else
    var last := cards[|cards| - 1];
    SuitBucket(cards[..|cards| - 1], k) + (if last.suit.Ordinal() == k then [last.rank] else [])
  }

  lemma {:induction false} RankBucketAppend(a: seq<Card>, b: seq<Card>, r: Rank)
    ensures RankBucket(a + b, r) == RankBucket(a, r) + RankBucket(b, r)
    decreases |b|
  {
    if |b| > 0 {
      assert (a + b)[..|a + b| - 1] == a + b[..|b| - 1];
      RankBucketAppend(a, b[..|b| - 1], r);
    } else {
      assert a + b == a;
    }
  }

  lemma {:induction false} SuitBucketAppend(a: seq<Card>, b: seq<Card>, k: int)
    ensures SuitBucket(a + b, k) == SuitBucket(a, k) + SuitBucket(b, k)
    decreases |b|
  {
    if |b| > 0 {
      assert (a + b)[..|a + b| - 1] == a + b[..|b| - 1];
      SuitBucketAppend(a, b[..|b| - 1], k);
    } else {
      assert a + b == a;
    }
  }

  /** Only ranks TWO..ACE have cards. */
  lemma {:induction false} RankBucketOutside(cards: seq<Card>, r: Rank)
    requires AllValid(cards) && !IsCardRank(r)
    ensures RankBucket(cards, r) == []
  {
    if |cards| > 0 {
      RankBucketOutside(cards[..|cards| - 1], r);
    }
  }

  /** A rank no card has gets an empty bucket. */
  lemma {:induction false} RankBucketAbsent(cards: seq<Card>, r: Rank)
    requires forall t :: 0 <= t < |cards| ==> cards[t].rank != r
    ensures RankBucket(cards, r) == []
  {
    if |cards| > 0 {
      RankBucketAbsent(cards[..|cards| - 1], r);
    }
  }

  /** A suit no card has gets an empty bucket. */
  lemma {:induction false} SuitBucketAbsent(cards: seq<Card>, k: int)
    requires forall t :: 0 <= t < |cards| ==> cards[t].suit.Ordinal() != k
    ensures SuitBucket(cards, k) == []
  {
    if |cards| > 0 {
      SuitBucketAbsent(cards[..|cards| - 1], k);
    }
  }

  /** Every rank in a suit bucket is a card rank. */
  lemma {:induction false} SuitBucketRanks(cards: seq<Card>, k: int)
    requires AllValid(cards)
    ensures forall j :: 0 <= j < |SuitBucket(cards, k)| ==> IsCardRank(SuitBucket(cards, k)[j])
  {
    if |cards| > 0 {
      SuitBucketRanks(cards[..|cards| - 1], k);
    }
  }

  /** The size the scan sees for each rank slot: slot ONE is a copy of the ACE bucket. */
  function RankSizes(cards: seq<Card>): (sizes: seq<int>)
    ensures |sizes| == RANK_ARRAY_SIZE
  {
    seq(RANK_ARRAY_SIZE, r requires 0 <= r < RANK_ARRAY_SIZE =>
      if r == RANK_UNSPECIFIED then 0
      else if r == ONE then |RankBucket(cards, ACE)|
      else |RankBucket(cards, r)|)
  }

  /** Every rank slot from TWO to ACE holds the size of its bucket. */
  lemma {:induction false} RankSizesBuckets(cards: seq<Card>)
    ensures forall r :: TWO <= r <= ACE ==> RankSizes(cards)[r] == |RankBucket(cards, r)|
  {
  }

  /** The suit buckets, by suit ordinal. */
  function SuitBuckets(cards: seq<Card>): (buckets: seq<seq<Rank>>)
    ensures |buckets| == SUIT_ARRAY_SIZE
    ensures forall k :: 0 <= k < SUIT_ARRAY_SIZE ==> buckets[k] == SuitBucket(cards, k)
  {
    seq(SUIT_ARRAY_SIZE, k requires 0 <= k < SUIT_ARRAY_SIZE => SuitBucket(cards, k))
  }

  // ---------------------------------------------------------------------------
  // The descending scan.

  /** The running trackers of the scan. */
  datatype ScanState = ScanState(
    best: HandType, straightHigh: Rank, straightLength: int,
    fourOfAKind: Rank, trips: Rank, pairHigh: Rank, pairLow: Rank)

  const SCAN_START := ScanState(HANDTYPE_UNSPECIFIED, RANK_UNSPECIFIED, 0,
                                RANK_UNSPECIFIED, RANK_UNSPECIFIED, RANK_UNSPECIFIED, RANK_UNSPECIFIED)

  /** The best hand type only ever increases: it becomes t when t is better. */
  function Promote(best: HandType, t: HandType): (r: HandType)
    ensures r >= best && r >= t && (r == best || r == t)
  {
    if t > best then t else best
  }

  /** One step of the scan at rank slot i, whose bucket holds size cards. */
  function ScanStep(st: ScanState, i: Rank, size: int): ScanState
  {
    // Straight: extend or restart the run of non-empty slots while no straight is known.
    var st1 :=
      if st.best < STRAIGHT then
        if size != 0 then
          if st.straightHigh == RANK_UNSPECIFIED then st.(straightHigh := i, straightLength := 1)
          else
            var len := st.straightLength + 1;
            st.(straightLength := len, best := if len == 5 then Promote(st.best, STRAIGHT) else st.best)
        else st.(straightHigh := RANK_UNSPECIFIED, straightLength := 0)
      else st;
    // Four of a kind.
    var st2 :=
      if size == 4 && st1.best < FOUR_OF_A_KIND then st1.(best := Promote(st1.best, FOUR_OF_A_KIND), fourOfAKind := i)
      else st1;
    // Three of a kind; a second one is only recorded as a pair.
    var st3 :=
      if size == 3 then
        if st2.trips == RANK_UNSPECIFIED then
          st2.(best := Promote(st2.best, if st2.pairHigh != RANK_UNSPECIFIED then FULL_HOUSE else THREE_OF_A_KIND), trips := i)
        else if st2.pairHigh == RANK_UNSPECIFIED then st2.(best := Promote(st2.best, ONE_PAIR), pairHigh := i)
        else if st2.pairLow == RANK_UNSPECIFIED then st2.(best := Promote(st2.best, TWO_PAIR), pairLow := i)
        else st2
      else st2;
    // Pair.
    if size == 2 then
      var p :=
        if st3.pairHigh == RANK_UNSPECIFIED then st3.(best := Promote(st3.best, ONE_PAIR), pairHigh := i)
        else if st3.pairLow == RANK_UNSPECIFIED then st3.(best := Promote(st3.best, TWO_PAIR), pairLow := i)
        else st3;
      if p.trips != RANK_UNSPECIFIED then p.(best := Promote(p.best, FULL_HOUSE)) else p
    else st3
  }

  /** The scan over the slots i, i-1, ..., 1, starting from st. */
  function Scan(sizes: seq<int>, i: int, st: ScanState): ScanState
    requires |sizes| == RANK_ARRAY_SIZE && i < RANK_ARRAY_SIZE
    decreases |sizes| + i
  {
    if i <= 0 then st else Scan(sizes, i - 1, ScanStep(st, i, sizes[i]))
  }

  // ---------------------------------------------------------------------------
  // Flush and straight flush.

  predicate SortedDescending(s: seq<Rank>)
  {
    forall j, k :: 0 <= j < k < |s| ==> s[j] >= s[k]
  }

  /** The ranks in descending order. */
  function SortDescending(s: seq<Rank>): (r: seq<Rank>)
    ensures multiset(r) == multiset(s) && |r| == |s|
    ensures SortedDescending(r)
  {
    if |s| == 0 then []
    else
      assert s == [s[0]] + s[1..];
      InsertDescending(s[0], SortDescending(s[1..]))
  }

  function InsertDescending(x: Rank, sorted: seq<Rank>): (r: seq<Rank>)
    requires SortedDescending(sorted)
    ensures multiset(r) == multiset(sorted) + multiset{x} && |r| == |sorted| + 1
    ensures SortedDescending(r)
  {
    if |sorted| == 0 || sorted[0] <= x then [x] + sorted
    else
      assert sorted == [sorted[0]] + sorted[1..];
      var rest := InsertDescending(x, sorted[1..]);
      InsertBelowHead(x, sorted, rest);
      [sorted[0]] + rest
  }

  /** Inserting x below the head of a descending list keeps every element at most the head. */
  lemma {:induction false} InsertBelowHead(x: Rank, sorted: seq<Rank>, rest: seq<Rank>)
    requires SortedDescending(sorted) && |sorted| > 0 && x < sorted[0]
    requires multiset(rest) == multiset(sorted[1..]) + multiset{x}
    ensures forall j :: 0 <= j < |rest| ==> rest[j] <= sorted[0]
  {
    forall j | 0 <= j < |rest| ensures rest[j] <= sorted[0] {
      assert rest[j] in multiset(rest);
      if rest[j] != x {
        assert rest[j] in multiset(sorted[1..]);
        var m :| 0 <= m < |sorted[1..]| && sorted[1..][m] == rest[j];
        assert sorted[m + 1] == rest[j];
      }
    }
  }

  /** The five ranks of a run topped by high, best first; slot ONE stands for the ace. */
  function RunRanks(high: Rank): seq<Rank>
  {
    [high, high - 1, high - 2, high - 3, if high - 4 == ONE then ACE else high - 4]
  }

  /** The top of the first straight-flush run in a descending flush, or 0 when the walk
      stops without one. sfHigh, prev and run are the walk's trackers. */
  function StraightFlushHigh(flush: seq<Rank>, k: nat, sfHigh: Rank, prev: int, run: int): Rank
    decreases |flush| - k
  {
    if k >= |flush| then RANK_UNSPECIFIED
    else
      var rank := flush[k];
      if sfHigh == RANK_UNSPECIFIED || rank != prev - 1 then
        if rank <= FOUR then RANK_UNSPECIFIED
        else StraightFlushHigh(flush, k + 1, rank, rank, 1)
      else
        var len := run + 1;
        if len == 5 || (len == 4 && rank == TWO && flush[0] == ACE) then sfHigh
        else StraightFlushHigh(flush, k + 1, sfHigh, rank, len)
  }

  /** The best type so far and the hand built so far. */
  datatype Partial = Partial(best: HandType, hand: Hand)

  /** The check of one suit with five or more cards: a straight flush when the scan saw a
      run and the suit holds one, otherwise (unless a straight flush is already known) the
      flush of its five highest ranks. */
  function FlushSuit(bucket: seq<Rank>, straightHigh: Rank, p: Partial): Partial
    requires |bucket| >= 5
  {
    var flush := SortDescending(bucket);
    var sf := if straightHigh != RANK_UNSPECIFIED then StraightFlushHigh(flush, 0, RANK_UNSPECIFIED, 0, 0) else RANK_UNSPECIFIED;
    var p1 := if sf != RANK_UNSPECIFIED
      then Partial(Promote(p.best, STRAIGHT_FLUSH), Hand(STRAIGHT_FLUSH, p.hand.ranks + RunRanks(sf)))
      else p;
    if p1.best != STRAIGHT_FLUSH then Partial(Promote(p1.best, FLUSH), Hand(FLUSH, p1.hand.ranks + flush[..5]))
    else p1
  }

  /** The flush check over the suits k, k+1, ..., 3: it stops at the first flush taken. */
  function FlushFrom(suits: seq<seq<Rank>>, k: nat, straightHigh: Rank, p: Partial): Partial
    requires |suits| == SUIT_ARRAY_SIZE && k <= SUIT_ARRAY_SIZE
    decreases SUIT_ARRAY_SIZE - k
  {
    if k == SUIT_ARRAY_SIZE then p
    else if |suits[k]| >= 5 then
      var q := FlushSuit(suits[k], straightHigh, p);
      if q.best != STRAIGHT_FLUSH then q else FlushFrom(suits, k + 1, straightHigh, q)
    else FlushFrom(suits, k + 1, straightHigh, p)
  }

  // ---------------------------------------------------------------------------
  // Assembly.

  function Repeat(x: Rank, n: nat): (s: seq<Rank>)
    ensures |s| == n && forall j :: 0 <= j < n ==> s[j] == x
  {
    seq(n, _ => x)
  }

  function Min(a: int, b: int): int { if a < b then a else b }

  /** Kickers from slot i down, while fewer than five ranks are placed (ki so far). */
  function Kickers(counts: seq<int>, i: int, ki: int): seq<Rank>
    requires i < |counts|
    decreases |counts| + i + 1
  {
    if ki >= 5 || i < 0 then []
    else
      var m := if counts[i] > 0 then Min(counts[i], 5 - ki) else 0;
      Repeat(i, m) + Kickers(counts, i - 1, ki + m)
  }

  /** How many ranks the pattern of a non-flush hand type contributes. */
  function PatternSize(best: HandType): nat
  {
    if best == FOUR_OF_A_KIND || best == TWO_PAIR then 4
    else if best == FULL_HOUSE || best == STRAIGHT then 5
    else if best == THREE_OF_A_KIND then 3
    else if best == ONE_PAIR then 2
    else 0
  }

  /** Ranks the pattern of a non-flush hand type contributes. */
  function PatternRanks(best: HandType, st: ScanState): (r: seq<Rank>)
    ensures |r| == PatternSize(best)
  {
    if best == FOUR_OF_A_KIND then Repeat(st.fourOfAKind, 4)
    else if best == FULL_HOUSE then Repeat(st.trips, 3) + Repeat(st.pairHigh, 2)
    else if best == STRAIGHT then RunRanks(st.straightHigh)
    else if best == THREE_OF_A_KIND then Repeat(st.trips, 3)
    else if best == TWO_PAIR then Repeat(st.pairHigh, 2) + Repeat(st.pairLow, 2)
    else if best == ONE_PAIR then Repeat(st.pairHigh, 2)
    else []
  }

  /** The type a non-flush hand is given. */
  function PatternType(best: HandType): HandType
  {
    if best in {FOUR_OF_A_KIND, FULL_HOUSE, STRAIGHT, THREE_OF_A_KIND, TWO_PAIR, ONE_PAIR} then best else HIGH_CARD
  }

  predicate InSlots(r: Rank) { 0 <= r < RANK_ARRAY_SIZE }

  predicate SlotsInRange(st: ScanState)
  {
    InSlots(st.fourOfAKind) && InSlots(st.trips) && InSlots(st.pairHigh) && InSlots(st.pairLow)
  }

  /** The per-slot counts left for kickers once the pattern's cards are consumed. */
  function RemainingCounts(best: HandType, st: ScanState, counts: seq<int>): (rest: seq<int>)
    requires |counts| == RANK_ARRAY_SIZE && SlotsInRange(st)
    ensures |rest| == RANK_ARRAY_SIZE
  {
    if best == FOUR_OF_A_KIND then counts[st.fourOfAKind := counts[st.fourOfAKind] - 4]
    else if best == THREE_OF_A_KIND then counts[st.trips := counts[st.trips] - 3]
    else if best == TWO_PAIR then
      var c := counts[st.pairHigh := counts[st.pairHigh] - 2];
      c[st.pairLow := c[st.pairLow] - 2]
    else if best == ONE_PAIR then counts[st.pairHigh := counts[st.pairHigh] - 2]
    else counts
  }

  /** Completes the hand unless a flush or straight flush was found. */
  function Assemble(p: Partial, st: ScanState, counts: seq<int>): Hand
    requires |counts| == RANK_ARRAY_SIZE && SlotsInRange(st)
  {
    if p.best == FLUSH || p.best == STRAIGHT_FLUSH then p.hand
    else
      var pattern := PatternRanks(p.best, st);
      Hand(PatternType(p.best),
           p.hand.ranks + pattern + Kickers(RemainingCounts(p.best, st, counts), ACE, |pattern|))
  }

  // ---------------------------------------------------------------------------
  // The whole evaluation.

  /** The scan over the cards. */
  function ScanOf(cards: seq<Card>): ScanState
  {
    Scan(RankSizes(cards), ACE, SCAN_START)
  }

  /** The hand the evaluator returns for these cards (community cards then hole cards). */
  function Evaluation(cards: seq<Card>): Hand
  {
    var sizes := RankSizes(cards);
    var st := Scan(sizes, ACE, SCAN_START);
    ScanRanges(sizes, ACE, SCAN_START);
    var p := FlushFrom(SuitBuckets(cards), 0, st.straightHigh, Partial(st.best, EMPTY_HAND));
    Assemble(p, st, sizes)
  }

  /** The pieces of an evaluation over at least five cards: the scan's trackers stay in the
      rank slots, and when the flush check takes nothing the pattern's best type is kept and
      enough cards are left for the kickers. */
  lemma EvaluationParts(cards: seq<Card>)
    requires AllValid(cards) && |cards| >= 5
    ensures var st := ScanOf(cards);
      var p := FlushFrom(SuitBuckets(cards), 0, st.straightHigh, Partial(st.best, EMPTY_HAND));
      SlotsInRange(st) && Evaluation(cards) == Assemble(p, st, RankSizes(cards))
      && (p.best != FLUSH && p.best != STRAIGHT_FLUSH ==>
            p.best == st.best && KickersFit(RemainingCounts(st.best, st, RankSizes(cards)), |PatternRanks(st.best, st)|))
  {
    var st := ScanOf(cards);
    ScanRanges(RankSizes(cards), ACE, SCAN_START);
    KickerSupply(cards);
    FlushFromKeepsLowerBest(SuitBuckets(cards), 0, st.straightHigh, Partial(st.best, EMPTY_HAND));
  }

  /** The scan leaves every recorded rank in a slot of the rank arrays. */
  lemma {:induction false} ScanRanges(sizes: seq<int>, i: int, st: ScanState)
    requires |sizes| == RANK_ARRAY_SIZE && i < RANK_ARRAY_SIZE
    requires SlotsInRange(st)
    ensures SlotsInRange(Scan(sizes, i, st))
    decreases i
  {
    if i > 0 {
      ScanRanges(sizes, i - 1, ScanStep(st, i, sizes[i]));
    }
  }

  // ---------------------------------------------------------------------------
  // The invariant of the scan.

  /** A recorded rank is either unset or a slot the scan has already passed (above i). */
  predicate Placed(r: Rank, i: int) { r == RANK_UNSPECIFIED || i < r <= ACE }

  /** Five non-empty slots topped by high: a straight, with slot ONE standing for the ace. */
  predicate StraightAt(sizes: seq<int>, high: Rank)
    requires |sizes| == RANK_ARRAY_SIZE
  {
    FIVE <= high <= ACE && forall k :: high - 4 <= k <= high ==> sizes[k] > 0
  }

  /** While no straight is known, the run tracker describes the non-empty slots just above i. */
  predicate RunTracked(sizes: seq<int>, i: int, high: Rank, len: int)
    requires |sizes| == RANK_ARRAY_SIZE && 0 <= i
  {
    (high == RANK_UNSPECIFIED ==> len == 0)
    && (high != RANK_UNSPECIFIED ==>
          1 <= len <= 4 && high == i + len && high <= ACE
          && forall k :: i < k <= high ==> sizes[k] > 0)
  }

  /** Sizes as the scan sees them: slot 0 empty, slot ONE a copy of slot ACE. */
  predicate ScanSizes(sizes: seq<int>)
  {
    |sizes| == RANK_ARRAY_SIZE && sizes[0] == 0 && sizes[ONE] == sizes[ACE]
    && forall r :: 0 <= r < RANK_ARRAY_SIZE ==> sizes[r] >= 0
  }

  /** What the trackers mean once the slots above i are scanned. */
  ghost predicate ScanInv(sizes: seq<int>, i: int, st: ScanState)
    requires ScanSizes(sizes)
  {
    0 <= i <= ACE
    && st.best in {HANDTYPE_UNSPECIFIED, ONE_PAIR, TWO_PAIR, THREE_OF_A_KIND, STRAIGHT, FULL_HOUSE, FOUR_OF_A_KIND}
    && Placed(st.fourOfAKind, i) && Placed(st.trips, i) && Placed(st.pairHigh, i) && Placed(st.pairLow, i)
    // the recorded ranks hold the counts they were recorded for
    && (st.fourOfAKind != RANK_UNSPECIFIED ==> sizes[st.fourOfAKind] == 4 && st.best >= FOUR_OF_A_KIND)
    && (st.trips != RANK_UNSPECIFIED ==> sizes[st.trips] == 3 && st.best >= THREE_OF_A_KIND)
    && (st.pairHigh != RANK_UNSPECIFIED ==> 2 <= sizes[st.pairHigh] <= 3 && st.pairHigh != st.trips)
    && (st.pairLow != RANK_UNSPECIFIED ==>
          2 <= sizes[st.pairLow] <= 3 && st.pairHigh != RANK_UNSPECIFIED && st.pairLow < st.pairHigh
          && st.pairLow != st.trips)
    // the best type has its ranks recorded
    && (st.best == FOUR_OF_A_KIND ==> st.fourOfAKind != RANK_UNSPECIFIED)
    && (st.best == FULL_HOUSE ==> st.trips != RANK_UNSPECIFIED && st.pairHigh != RANK_UNSPECIFIED)
    && (st.best == THREE_OF_A_KIND ==> st.trips != RANK_UNSPECIFIED)
    && (st.best == TWO_PAIR ==> st.pairHigh != RANK_UNSPECIFIED && st.pairLow != RANK_UNSPECIFIED)
    && (st.best == ONE_PAIR ==> st.pairHigh != RANK_UNSPECIFIED)
    && (st.best == STRAIGHT ==> StraightAt(sizes, st.straightHigh))
    && (st.best < STRAIGHT ==> RunTracked(sizes, i, st.straightHigh, st.straightLength))
    // once slot ACE is scanned, its count is recorded
    && (i < ACE ==>
          (sizes[ACE] == 2 ==> st.pairHigh == ACE)
          && (sizes[ACE] == 3 ==> st.trips == ACE)
          && (sizes[ACE] == 4 ==> st.fourOfAKind == ACE))
    // the ace alias in slot ONE never yields quads or trips, and a pair there only
    // next to a recorded pair of aces or under a better hand
    && st.fourOfAKind != ONE && st.trips != ONE
    && (st.pairHigh == ONE ==> st.best >= THREE_OF_A_KIND)
    && (st.pairLow == ONE ==> st.best >= THREE_OF_A_KIND || (st.pairHigh == ACE && sizes[ACE] == 2))
  }

  lemma ScanInvStart(sizes: seq<int>)
    requires ScanSizes(sizes)
    ensures ScanInv(sizes, ACE, SCAN_START)
  {
  }

  /** One scan step keeps the invariant. */
  lemma ScanInvStep(sizes: seq<int>, i: int, st: ScanState)
    requires ScanSizes(sizes) && 1 <= i <= ACE && ScanInv(sizes, i, st)
    ensures ScanInv(sizes, i - 1, ScanStep(st, i, sizes[i]))
  {
    var size := sizes[i];
    if size == 4 {
      ScanInvStepQuads(sizes, i, st);
    } else if size == 3 {
      ScanInvStepTrips(sizes, i, st);
    } else if size == 2 {
      ScanInvStepPair(sizes, i, st);
    } else {
      ScanInvStepOther(sizes, i, st);
    }
  }

  lemma ScanInvStepQuads(sizes: seq<int>, i: int, st: ScanState)
    requires ScanSizes(sizes) && 1 <= i <= ACE && ScanInv(sizes, i, st) && sizes[i] == 4
    ensures ScanInv(sizes, i - 1, ScanStep(st, i, sizes[i]))
  {
  }

  lemma ScanInvStepTrips(sizes: seq<int>, i: int, st: ScanState)
    requires ScanSizes(sizes) && 1 <= i <= ACE && ScanInv(sizes, i, st) && sizes[i] == 3
    ensures ScanInv(sizes, i - 1, ScanStep(st, i, sizes[i]))
  {
  }

  lemma ScanInvStepPair(sizes: seq<int>, i: int, st: ScanState)
    requires ScanSizes(sizes) && 1 <= i <= ACE && ScanInv(sizes, i, st) && sizes[i] == 2
    ensures ScanInv(sizes, i - 1, ScanStep(st, i, sizes[i]))
  {
    if st.pairHigh == RANK_UNSPECIFIED {
      ScanInvStepFirstPair(sizes, i, st);
    } else {
      ScanInvStepLaterPair(sizes, i, st);
    }
  }

  lemma ScanInvStepFirstPair(sizes: seq<int>, i: int, st: ScanState)
    requires ScanSizes(sizes) && 1 <= i <= ACE && ScanInv(sizes, i, st) && sizes[i] == 2
    requires st.pairHigh == RANK_UNSPECIFIED
    ensures ScanInv(sizes, i - 1, ScanStep(st, i, sizes[i]))
  {
  }

  lemma ScanInvStepLaterPair(sizes: seq<int>, i: int, st: ScanState)
    requires ScanSizes(sizes) && 1 <= i <= ACE && ScanInv(sizes, i, st) && sizes[i] == 2
    requires st.pairHigh != RANK_UNSPECIFIED
    ensures ScanInv(sizes, i - 1, ScanStep(st, i, sizes[i]))
  {
    if st.pairLow == RANK_UNSPECIFIED {
      ScanInvStepSecondPair(sizes, i, st);
    } else {
      ScanInvStepThirdPair(sizes, i, st);
    }
  }

  lemma ScanInvStepSecondPair(sizes: seq<int>, i: int, st: ScanState)
    requires ScanSizes(sizes) && 1 <= i <= ACE && ScanInv(sizes, i, st) && sizes[i] == 2
    requires st.pairHigh != RANK_UNSPECIFIED && st.pairLow == RANK_UNSPECIFIED
    ensures ScanInv(sizes, i - 1, ScanStep(st, i, sizes[i]))
  {
  }

  lemma ScanInvStepThirdPair(sizes: seq<int>, i: int, st: ScanState)
    requires ScanSizes(sizes) && 1 <= i <= ACE && ScanInv(sizes, i, st) && sizes[i] == 2
    requires st.pairHigh != RANK_UNSPECIFIED && st.pairLow != RANK_UNSPECIFIED
    ensures ScanInv(sizes, i - 1, ScanStep(st, i, sizes[i]))
  {
  }

  lemma ScanInvStepOther(sizes: seq<int>, i: int, st: ScanState)
    requires ScanSizes(sizes) && 1 <= i <= ACE && ScanInv(sizes, i, st) && sizes[i] !in {2, 3, 4}
    ensures ScanInv(sizes, i - 1, ScanStep(st, i, sizes[i]))
  {
  }

  /** The invariant holds at the end of the scan. */
  lemma {:induction false} ScanInvAll(sizes: seq<int>, i: int, st: ScanState)
    requires ScanSizes(sizes) && 0 <= i <= ACE && ScanInv(sizes, i, st)
    ensures ScanInv(sizes, 0, Scan(sizes, i, st))
    decreases i
  {
    if i > 0 {
      ScanInvStep(sizes, i, st);
      ScanInvAll(sizes, i - 1, ScanStep(st, i, sizes[i]));
    }
  }

  /** The best type never decreases from one step to the next. */
  lemma ScanStepMonotone(st: ScanState, i: Rank, size: int)
    ensures ScanStep(st, i, size).best >= st.best
  {
  }

  /** Over the whole scan the best type never decreases. */
  lemma {:induction false} ScanMonotone(sizes: seq<int>, i: int, st: ScanState)
    requires |sizes| == RANK_ARRAY_SIZE && i < RANK_ARRAY_SIZE
    ensures Scan(sizes, i, st).best >= st.best
    decreases i
  {
    if i > 0 {
      ScanStepMonotone(st, i, sizes[i]);
      ScanMonotone(sizes, i - 1, ScanStep(st, i, sizes[i]));
    }
  }

  // ---------------------------------------------------------------------------
  // Enough cards for the kickers.

  /** Cards left in slots TWO..i. */
  function Supply(counts: seq<int>, i: int): int
    requires i < |counts|
    decreases |counts| + i
  {
    if i < TWO then 0 else Supply(counts, i - 1) + counts[i]
  }

  /** The kicker loop can place its 5 - ki ranks from real card slots. */
  predicate KickersFit(counts: seq<int>, ki: int)
  {
    |counts| == RANK_ARRAY_SIZE && 0 <= ki <= 5
    && (forall r :: TWO <= r < RANK_ARRAY_SIZE ==> counts[r] >= 0)
    && Supply(counts, |counts| - 1) >= 5 - ki
  }

  lemma {:induction false} SupplyUpdate(counts: seq<int>, r: int, v: int, i: int)
    requires 0 <= r < |counts| && i < |counts|
    ensures Supply(counts[r := v], i) == Supply(counts, i) + (if TWO <= r <= i then v - counts[r] else 0)
    decreases i
  {
    if i >= TWO {
      SupplyUpdate(counts, r, v, i - 1);
    }
  }

  /** One slot of the kicker loop: take all of its cards, or as many as still fit. */
  lemma KickersAtSlot(counts: seq<int>, i: int, kiAtSlot: int, ki: int, before: seq<Rank>, after: seq<Rank>)
    requires 0 <= i < |counts| && 0 <= kiAtSlot < 5
    requires ki - kiAtSlot == if counts[i] > 0 then Min(counts[i], 5 - kiAtSlot) else 0
    requires after == before + Repeat(i, ki - kiAtSlot)
    ensures after + Kickers(counts, i - 1, ki) == before + Kickers(counts, i, kiAtSlot)
  {
  }

  /** A positive supply means a card slot at or below i is left: i is at least TWO. */
  lemma SupplyPositive(counts: seq<int>, i: int, ki: int)
    requires i < |counts| && ki < 5 && Supply(counts, i) >= 5 - ki
    ensures i >= TWO
  {
  }

  /** Cards of ranks TWO..i, counted bucket by bucket. */
  function CardsUpTo(cards: seq<Card>, i: int): int
    decreases i
  {
    if i < TWO then 0 else CardsUpTo(cards, i - 1) + |RankBucket(cards, i)|
  }

  lemma {:induction false} CardsUpToLast(cards: seq<Card>, i: int)
    requires |cards| > 0
    ensures CardsUpTo(cards, i) == CardsUpTo(cards[..|cards| - 1], i)
      + (if TWO <= cards[|cards| - 1].rank <= i then 1 else 0)
    decreases i
  {
    if i >= TWO {
      CardsUpToLast(cards, i - 1);
    }
  }

  /** Every valid card sits in exactly one of the buckets TWO..ACE. */
  lemma {:induction false} CardsUpToAll(cards: seq<Card>)
    requires AllValid(cards)
    ensures CardsUpTo(cards, ACE) == |cards|
  {
    if |cards| > 0 {
      CardsUpToLast(cards, ACE);
      CardsUpToAll(cards[..|cards| - 1]);
    }
  }

  lemma {:induction false} SupplyOfSizes(cards: seq<Card>, i: int)
    requires i < RANK_ARRAY_SIZE
    ensures Supply(RankSizes(cards), i) == CardsUpTo(cards, i)
    decreases i
  {
    if i >= TWO {
      SupplyOfSizes(cards, i - 1);
    }
  }

  lemma RankSizesScanSizes(cards: seq<Card>)
    requires AllValid(cards)
    ensures ScanSizes(RankSizes(cards))
  {
  }

  /** With at least five cards, whatever pattern the scan settles on leaves enough cards
      in real rank slots for the kickers. */
  lemma KickerSupply(cards: seq<Card>)
    requires AllValid(cards) && |cards| >= 5
    ensures var sizes := RankSizes(cards);
      var st := Scan(sizes, ACE, SCAN_START);
      SlotsInRange(st) && KickersFit(RemainingCounts(st.best, st, sizes), |PatternRanks(st.best, st)|)
  {
    var sizes := RankSizes(cards);
    RankSizesScanSizes(cards);
    ScanInvStart(sizes);
    ScanInvAll(sizes, ACE, SCAN_START);
    CardsUpToAll(cards);
    SupplyOfSizes(cards, ACE);
    FinalPatternFacts(sizes, Scan(sizes, ACE, SCAN_START));
    PatternSupply(sizes, Scan(sizes, ACE, SCAN_START));
  }

  /** What a finished scan guarantees about the ranks the assembly consumes. */
  predicate PatternFacts(sizes: seq<int>, st: ScanState)
    requires |sizes| == RANK_ARRAY_SIZE
  {
    SlotsInRange(st)
    && st.best in {HANDTYPE_UNSPECIFIED, ONE_PAIR, TWO_PAIR, THREE_OF_A_KIND, STRAIGHT, FULL_HOUSE, FOUR_OF_A_KIND}
    && (st.best == FOUR_OF_A_KIND ==> TWO <= st.fourOfAKind && sizes[st.fourOfAKind] == 4)
    && (st.best == THREE_OF_A_KIND ==> TWO <= st.trips && sizes[st.trips] == 3)
    && (st.best == TWO_PAIR ==>
          TWO <= st.pairHigh && sizes[st.pairHigh] >= 2
          && ONE <= st.pairLow < st.pairHigh && sizes[st.pairLow] >= 2)
    && (st.best == ONE_PAIR ==> TWO <= st.pairHigh && sizes[st.pairHigh] >= 2)
  }

  lemma FinalPatternFacts(sizes: seq<int>, st: ScanState)
    requires ScanSizes(sizes) && ScanInv(sizes, 0, st)
    ensures PatternFacts(sizes, st)
  {
  }

  /** The pattern of a finished scan over at least five cards leaves enough for the kickers. */
  lemma PatternSupply(sizes: seq<int>, st: ScanState)
    requires |sizes| == RANK_ARRAY_SIZE && (forall r :: 0 <= r < RANK_ARRAY_SIZE ==> sizes[r] >= 0)
    requires PatternFacts(sizes, st) && Supply(sizes, |sizes| - 1) >= 5
    ensures KickersFit(RemainingCounts(st.best, st, sizes), PatternSize(st.best))
  {
    if st.best == FOUR_OF_A_KIND {
      QuadsSupply(sizes, st);
    } else if st.best == THREE_OF_A_KIND {
      TripsSupply(sizes, st);
    } else if st.best == TWO_PAIR {
      TwoPairFit(sizes, st.pairHigh, st.pairLow);
      RemainingTwoPair(st, sizes);
    } else if st.best == ONE_PAIR {
      OnePairSupply(sizes, st);
    } else {
      assert RemainingCounts(st.best, st, sizes) == sizes;
    }
  }

  lemma QuadsSupply(sizes: seq<int>, st: ScanState)
    requires |sizes| == RANK_ARRAY_SIZE && (forall r :: 0 <= r < RANK_ARRAY_SIZE ==> sizes[r] >= 0)
    requires st.best == FOUR_OF_A_KIND && TWO <= st.fourOfAKind <= ACE && sizes[st.fourOfAKind] == 4
    requires SlotsInRange(st) && Supply(sizes, |sizes| - 1) >= 5
    ensures KickersFit(RemainingCounts(st.best, st, sizes), PatternSize(st.best))
  {
    ConsumeFit(sizes, st.fourOfAKind, 4, 4);
  }

  lemma TripsSupply(sizes: seq<int>, st: ScanState)
    requires |sizes| == RANK_ARRAY_SIZE && (forall r :: 0 <= r < RANK_ARRAY_SIZE ==> sizes[r] >= 0)
    requires st.best == THREE_OF_A_KIND && TWO <= st.trips <= ACE && sizes[st.trips] == 3
    requires SlotsInRange(st) && Supply(sizes, |sizes| - 1) >= 5
    ensures KickersFit(RemainingCounts(st.best, st, sizes), PatternSize(st.best))
  {
    ConsumeFit(sizes, st.trips, 3, 3);
  }

  /** Two pair consumes two cards from each pair slot. */
  lemma {:induction false} RemainingTwoPair(st: ScanState, counts: seq<int>)
    requires |counts| == RANK_ARRAY_SIZE && SlotsInRange(st)
    ensures RemainingCounts(TWO_PAIR, st, counts)
      == var c := counts[st.pairHigh := counts[st.pairHigh] - 2]; c[st.pairLow := c[st.pairLow] - 2]
  {
  }

  /** Taking the two pairs leaves at least one card for the kicker. */
  lemma {:induction false} TwoPairFit(sizes: seq<int>, hi: int, lo: int)
    requires |sizes| == RANK_ARRAY_SIZE && (forall r :: 0 <= r < RANK_ARRAY_SIZE ==> sizes[r] >= 0)
    requires TWO <= hi <= ACE && sizes[hi] >= 2 && ONE <= lo < hi && sizes[lo] >= 2
    requires Supply(sizes, |sizes| - 1) >= 5
    ensures var c := sizes[hi := sizes[hi] - 2];
      KickersFit(c[lo := c[lo] - 2], 4)
  {
    ConsumeTwoSupply(sizes, hi, lo, |sizes| - 1);
  }

  /** Taking two cards from each of two different slots. */
  lemma {:induction false} ConsumeTwoSupply(counts: seq<int>, r1: int, r2: int, i: int)
    requires i < |counts| && 0 <= r1 < |counts| && 0 <= r2 < |counts| && r1 != r2
    ensures var c := counts[r1 := counts[r1] - 2];
      var d := c[r2 := c[r2] - 2];
      Supply(d, i) == Supply(counts, i) - (if TWO <= r1 <= i then 2 else 0) - (if TWO <= r2 <= i then 2 else 0)
  {
    ConsumeSupply(counts, r1, 2, i);
    ConsumeSupply(counts[r1 := counts[r1] - 2], r2, 2, i);
  }

  lemma {:induction false} OnePairSupply(sizes: seq<int>, st: ScanState)
    requires |sizes| == RANK_ARRAY_SIZE && (forall r :: 0 <= r < RANK_ARRAY_SIZE ==> sizes[r] >= 0)
    requires st.best == ONE_PAIR && TWO <= st.pairHigh <= ACE && sizes[st.pairHigh] >= 2
    requires SlotsInRange(st) && Supply(sizes, |sizes| - 1) >= 5
    ensures KickersFit(RemainingCounts(st.best, st, sizes), PatternSize(st.best))
  {
    ConsumeFit(sizes, st.pairHigh, 2, 2);
  }

  /** Taking n of the cards of slot r keeps the counts fit for the kickers still to come. */
  lemma ConsumeFit(counts: seq<int>, r: int, n: int, ki: int)
    requires |counts| == RANK_ARRAY_SIZE && (forall q :: TWO <= q < RANK_ARRAY_SIZE ==> counts[q] >= 0)
    requires ONE <= r <= ACE && 0 <= n <= counts[r] && 0 <= ki <= 5
    requires Supply(counts, |counts| - 1) - (if r >= TWO then n else 0) >= 5 - ki
    ensures KickersFit(counts[r := counts[r] - n], ki)
  {
    ConsumeSupply(counts, r, n, |counts| - 1);
  }

  /** Taking n cards from slot r lowers the supply up to i by n when r is a card slot. */
  lemma ConsumeSupply(counts: seq<int>, r: int, n: int, i: int)
    requires 0 <= r < |counts| && i < |counts|
    ensures Supply(counts[r := counts[r] - n], i) == Supply(counts, i) - (if TWO <= r <= i then n else 0)
  {
    SupplyUpdate(counts, r, counts[r] - n, i);
  }

  /** The flush check leaves the best type as it was, or makes it FLUSH or STRAIGHT_FLUSH. */
  lemma {:induction false} FlushFromKeepsLowerBest(suits: seq<seq<Rank>>, k: nat, straightHigh: Rank, p: Partial)
    requires |suits| == SUIT_ARRAY_SIZE && k <= SUIT_ARRAY_SIZE
    ensures FlushFrom(suits, k, straightHigh, p).best in {p.best, FLUSH, STRAIGHT_FLUSH}
    decreases SUIT_ARRAY_SIZE - k
  {
    if k < SUIT_ARRAY_SIZE {
      if |suits[k]| >= 5 {
        FlushFromKeepsLowerBest(suits, k + 1, straightHigh, FlushSuit(suits[k], straightHigh, p));
      } else {
        FlushFromKeepsLowerBest(suits, k + 1, straightHigh, p);
      }
    }
  }
}
