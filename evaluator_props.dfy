/** Properties of the reference evaluation: what the kickers are, which ranks a hand can
    hold, and what the scan guarantees to find. */
module EvaluatorProps {
  import opened Cards
  import opened Hands
  import opened EvaluatorSpec

  // ---------------------------------------------------------------------------
  // The kickers are the highest remaining ranks.

  function Max0(x: int): nat { if x > 0 then x else 0 }

  /** Every card left in slots i, i-1, ..., 0, one rank per card, highest slot first. */
  function Expand(counts: seq<int>, i: int): seq<Rank>
    requires i < |counts|
    decreases |counts| + i
  {
    if i < 0 then [] else Repeat(i, Max0(counts[i])) + Expand(counts, i - 1)
  }

  /** The first n elements, or all of them when there are fewer. */
  function Take(s: seq<Rank>, n: nat): (t: seq<Rank>)
    ensures |t| == Min(|s|, n) && t <= s
  {
    if |s| <= n then s else s[..n]
  }

  lemma TakeAppend(a: seq<Rank>, b: seq<Rank>, n: nat)
    ensures Take(a + b, n) == if |a| >= n then a[..n] else a + Take(b, n - |a|)
  {
    if |a| < n && |a + b| > n {
      assert (a + b)[..n] == a + b[..n - |a|];
    } else if |a| >= n {
      assert (a + b)[..n] == a[..n];
    }
  }

  lemma TakeRepeat(x: Rank, c: nat, n: nat)
    requires c >= n
    ensures Repeat(x, c)[..n] == Repeat(x, n)
  {
  }

  /** Taking n from a slot of c cards followed by the rest: min(c, n) from the slot, and
      the remainder of n from the rest. */
  lemma TakeSlotFirst(x: Rank, c: nat, n: nat, rest: seq<Rank>)
    ensures Take(Repeat(x, c) + rest, n) == Repeat(x, Min(c, n)) + Take(rest, n - Min(c, n))
  {
    TakeAppend(Repeat(x, c), rest, n);
    if c >= n {
      TakeRepeat(x, c, n);
    }
  }

  /** The kicker loop takes the first 5 - ki ranks of the remaining cards, slot by slot
      from i down: the highest remaining ranks. */
  lemma {:induction false} KickersAreTop(counts: seq<int>, i: int, ki: int)
    requires i < |counts| && 0 <= ki <= 5
    ensures Kickers(counts, i, ki) == Take(Expand(counts, i), 5 - ki)
    decreases i
  {
    if ki < 5 && i >= 0 {
      var c := Max0(counts[i]);
      var m := Min(c, 5 - ki);
      KickersUnfold(counts, i, ki);
      KickersAreTop(counts, i - 1, ki + m);
      KickerStep(Kickers(counts, i, ki), Expand(counts, i), i, c, 5 - ki,
        Kickers(counts, i - 1, ki + m), Expand(counts, i - 1));
    }
  }

  /** The kicker loop at a non-empty step: the slot's share, then the lower slots; the
      remaining cards likewise. */
  lemma KickersUnfold(counts: seq<int>, i: int, ki: int)
    requires 0 <= i < |counts| && 0 <= ki < 5
    ensures var m := Min(Max0(counts[i]), 5 - ki);
      Kickers(counts, i, ki) == Repeat(i, m) + Kickers(counts, i - 1, ki + m)
    ensures Expand(counts, i) == Repeat(i, Max0(counts[i])) + Expand(counts, i - 1)
  {
  }

  /** One slot of the kicker loop, on values: the slot's share, then the rest taken from
      the lower slots, is the first n of the slot followed by the lower slots. */
  lemma KickerStep(kick: seq<Rank>, cards: seq<Rank>, x: Rank, c: nat, n: nat, kickRest: seq<Rank>, cardsRest: seq<Rank>)
    requires kick == Repeat(x, Min(c, n)) + kickRest && cards == Repeat(x, c) + cardsRest
    requires kickRest == Take(cardsRest, n - Min(c, n))
    ensures kick == Take(cards, n)
  {
    TakeSlotFirst(x, c, n, cardsRest);
  }

  /** The remaining cards are listed from the highest rank down. */
  lemma {:induction false} ExpandDescending(counts: seq<int>, i: int)
    requires i < |counts|
    ensures SortedDescending(Expand(counts, i))
    ensures forall j :: 0 <= j < |Expand(counts, i)| ==> 0 <= Expand(counts, i)[j] <= i
    decreases i
  {
    if i >= 0 {
      ExpandDescending(counts, i - 1);
    }
  }

  /** How many cards of rank r the expansion lists: the slot's count. */
  lemma {:induction false} ExpandCounts(counts: seq<int>, i: int, r: int)
    requires i < |counts| && 0 <= r < |counts|
    ensures multiset(Expand(counts, i))[r] == if r <= i then Max0(counts[r]) else 0
    decreases i
  {
    if i >= 0 {
      ExpandCounts(counts, i - 1, r);
      assert multiset(Repeat(i, Max0(counts[i])))[r] == if r == i then Max0(counts[i]) else 0 by {
        RepeatCount(i, Max0(counts[i]), r);
      }
    }
  }

  lemma {:induction false} RepeatCount(x: Rank, n: nat, r: Rank)
    ensures multiset(Repeat(x, n))[r] == if r == x then n else 0
    decreases n
  {
    if n > 0 {
      assert Repeat(x, n) == Repeat(x, n - 1) + [x];
      RepeatCount(x, n - 1, r);
    } else {
      assert Repeat(x, n) == [];
    }
  }

  /** With enough cards in slots TWO..i the loop places exactly 5 - ki kickers, all of
      them real card ranks (never the ace alias in slot ONE). */
  lemma {:induction false} KickersFromCardSlots(counts: seq<int>, i: int, ki: int)
    requires |counts| == RANK_ARRAY_SIZE && i < |counts| && 0 <= ki <= 5
    requires forall r :: TWO <= r < RANK_ARRAY_SIZE ==> counts[r] >= 0
    requires Supply(counts, i) >= 5 - ki
    ensures |Kickers(counts, i, ki)| == 5 - ki
    ensures forall j :: 0 <= j < |Kickers(counts, i, ki)| ==> TWO <= Kickers(counts, i, ki)[j] <= i
    decreases i
  {
    if ki < 5 {
      SupplyPositive(counts, i, ki);
      var m := if counts[i] > 0 then Min(counts[i], 5 - ki) else 0;
      SupplyNonNegative(counts, i - 1);
      KickersFromCardSlots(counts, i - 1, ki + m);
    }
  }

  lemma {:induction false} SupplyNonNegative(counts: seq<int>, i: int)
    requires |counts| == RANK_ARRAY_SIZE && i < |counts|
    requires forall r :: TWO <= r < RANK_ARRAY_SIZE ==> counts[r] >= 0
    ensures Supply(counts, i) >= 0
    decreases i
  {
    if i >= TWO {
      SupplyNonNegative(counts, i - 1);
    }
  }

  // ---------------------------------------------------------------------------
  // What the scan is sure to find.

  /** Completeness of the scan over the slots above i: every repeated rank already seen
      has made the best type at least a pair, every four of a kind at least quads, every
      straight wholly above i at least a straight, and a straight recorded as the best is
      the highest one. While no straight is known, the run tracker is the maximal run of
      non-empty slots just above i. */
  ghost predicate ScanComplete(sizes: seq<int>, i: int, st: ScanState)
    requires ScanSizes(sizes) && 0 <= i <= ACE
  {
    (forall r :: i < r <= ACE && 2 <= sizes[r] <= 4 ==> st.best >= ONE_PAIR)
    && (forall r :: i < r <= ACE && sizes[r] == 4 ==> st.best >= FOUR_OF_A_KIND)
    && (st.pairHigh != RANK_UNSPECIFIED ==> st.best >= ONE_PAIR)
    && (forall h :: i < h - 4 && h <= ACE && StraightAt(sizes, h) ==> st.best >= STRAIGHT)
    && (st.best < STRAIGHT ==>
          (st.straightLength == 0 ==> i == ACE || sizes[i + 1] == 0)
          && (st.straightLength > 0 ==>
                st.straightHigh == ACE || (0 <= st.straightHigh < ACE && sizes[st.straightHigh + 1] == 0)))
    && (st.best == STRAIGHT ==>
          st.straightHigh >= i + 5
          && forall h :: i < h - 4 && h <= ACE && StraightAt(sizes, h) ==> h <= st.straightHigh)
  }

  lemma ScanCompleteStart(sizes: seq<int>)
    requires ScanSizes(sizes)
    ensures ScanComplete(sizes, ACE, SCAN_START)
  {
  }

  /** One scan step keeps completeness. */
  lemma ScanCompleteStep(sizes: seq<int>, i: int, st: ScanState)
    requires ScanSizes(sizes) && 1 <= i <= ACE && ScanInv(sizes, i, st) && ScanComplete(sizes, i, st)
    ensures ScanComplete(sizes, i - 1, ScanStep(st, i, sizes[i]))
  {
    ScanStepMonotone(st, i, sizes[i]);
    var size := sizes[i];
    if st.best >= STRAIGHT {
      ScanCompleteStepAbove(sizes, i, st);
    } else if size == 0 {
      ScanCompleteStepEmpty(sizes, i, st);
    } else {
      ScanCompleteStepRun(sizes, i, st);
    }
  }

  lemma ScanCompleteStepAbove(sizes: seq<int>, i: int, st: ScanState)
    requires ScanSizes(sizes) && 1 <= i <= ACE && ScanInv(sizes, i, st) && ScanComplete(sizes, i, st)
    requires st.best >= STRAIGHT
    ensures ScanComplete(sizes, i - 1, ScanStep(st, i, sizes[i]))
  {
    ScanStepMonotone(st, i, sizes[i]);
  }

  lemma ScanCompleteStepEmpty(sizes: seq<int>, i: int, st: ScanState)
    requires ScanSizes(sizes) && 1 <= i <= ACE && ScanInv(sizes, i, st) && ScanComplete(sizes, i, st)
    requires st.best < STRAIGHT && sizes[i] == 0
    ensures ScanComplete(sizes, i - 1, ScanStep(st, i, sizes[i]))
  {
    var next := ScanStep(st, i, sizes[i]);
    assert next == st.(straightHigh := RANK_UNSPECIFIED, straightLength := 0);
  }

  lemma ScanCompleteStepRun(sizes: seq<int>, i: int, st: ScanState)
    requires ScanSizes(sizes) && 1 <= i <= ACE && ScanInv(sizes, i, st) && ScanComplete(sizes, i, st)
    requires st.best < STRAIGHT && sizes[i] > 0
    ensures ScanComplete(sizes, i - 1, ScanStep(st, i, sizes[i]))
  {
    var next := ScanStep(st, i, sizes[i]);
    ScanStepMonotone(st, i, sizes[i]);
    var len := if st.straightHigh == RANK_UNSPECIFIED then 1 else st.straightLength + 1;
    RunAfterStep(sizes, i, st);
    forall h | i - 1 < h - 4 && h <= ACE && StraightAt(sizes, h)
      ensures next.best >= STRAIGHT && (next.best == STRAIGHT ==> h <= next.straightHigh)
    {
      if h - 4 == i {
        RunCoversStraight(sizes, i, st, h);
      }
    }
  }

  /** The straight tracker after a non-empty slot while no straight is known. */
  lemma RunAfterStep(sizes: seq<int>, i: int, st: ScanState)
    requires ScanSizes(sizes) && 1 <= i <= ACE && ScanInv(sizes, i, st) && ScanComplete(sizes, i, st)
    requires st.best < STRAIGHT && sizes[i] > 0
    ensures var next := ScanStep(st, i, sizes[i]);
      var len := if st.straightHigh == RANK_UNSPECIFIED then 1 else st.straightLength + 1;
      (len == 5 ==> next.best >= STRAIGHT && (next.best == STRAIGHT ==> next.straightHigh == i + 4))
      && (len < 5 && next.best < STRAIGHT ==>
            next.straightLength == len && next.straightHigh == i - 1 + len
            && (next.straightHigh == ACE || (0 <= next.straightHigh < ACE && sizes[next.straightHigh + 1] == 0)))
  {
  }

  /** A straight whose lowest slot is i makes the run above i four slots long. */
  lemma RunCoversStraight(sizes: seq<int>, i: int, st: ScanState, h: int)
    requires ScanSizes(sizes) && 1 <= i <= ACE && ScanInv(sizes, i, st) && ScanComplete(sizes, i, st)
    requires st.best < STRAIGHT && h == i + 4 && h <= ACE && StraightAt(sizes, h)
    ensures st.straightHigh != RANK_UNSPECIFIED && st.straightLength == 4
  {
    assert forall k :: i + 1 <= k <= i + 4 ==> sizes[k] > 0;
  }

  /** Completeness holds at the end of the scan. */
  lemma {:induction false} ScanCompleteAll(sizes: seq<int>, i: int, st: ScanState)
    requires ScanSizes(sizes) && 0 <= i <= ACE && ScanInv(sizes, i, st) && ScanComplete(sizes, i, st)
    ensures ScanComplete(sizes, 0, Scan(sizes, i, st))
    decreases i
  {
    if i > 0 {
      ScanInvStep(sizes, i, st);
      ScanCompleteStep(sizes, i, st);
      ScanCompleteAll(sizes, i - 1, ScanStep(st, i, sizes[i]));
    }
  }

  /** What the finished scan is sure to have found: a pair for every rank held two to four
      times, four of a kind for every rank held four times, a straight for every five
      consecutive non-empty slots (slot ONE standing for the ace), and, when a straight is
      the best, the highest straight present. */
  lemma ScanFinds(sizes: seq<int>)
    requires ScanSizes(sizes)
    ensures var st := Scan(sizes, ACE, SCAN_START);
      (forall r :: ONE <= r <= ACE && 2 <= sizes[r] <= 4 ==> st.best >= ONE_PAIR)
      && (forall r :: ONE <= r <= ACE && sizes[r] == 4 ==> st.best >= FOUR_OF_A_KIND)
      && (forall h :: FIVE <= h <= ACE && StraightAt(sizes, h) ==> st.best >= STRAIGHT)
      && (st.best == STRAIGHT ==>
            StraightAt(sizes, st.straightHigh)
            && forall h :: FIVE <= h <= ACE && StraightAt(sizes, h) ==> h <= st.straightHigh)
  {
    ScanInvStart(sizes);
    ScanCompleteStart(sizes);
    ScanInvAll(sizes, ACE, SCAN_START);
    ScanCompleteAll(sizes, ACE, SCAN_START);
  }

  // ---------------------------------------------------------------------------
  // The flush check.

  /** The first suit at or after k with five or more cards, or SUIT_ARRAY_SIZE when none has. */
  function FirstFlushSuit(suits: seq<seq<Rank>>, k: nat): (f: nat)
    requires |suits| == SUIT_ARRAY_SIZE && k <= SUIT_ARRAY_SIZE
    ensures k <= f <= SUIT_ARRAY_SIZE
    ensures f < SUIT_ARRAY_SIZE ==> |suits[f]| >= 5
    ensures forall j :: k <= j < f ==> |suits[j]| < 5
    decreases SUIT_ARRAY_SIZE - k
  {
    if k == SUIT_ARRAY_SIZE || |suits[k]| >= 5 then k else FirstFlushSuit(suits, k + 1)
  }

  /** Suits with fewer than five cards are passed over. */
  lemma {:induction false} FlushFromSkips(suits: seq<seq<Rank>>, k: nat, straightHigh: Rank, p: Partial)
    requires |suits| == SUIT_ARRAY_SIZE && k <= SUIT_ARRAY_SIZE
    ensures FlushFrom(suits, k, straightHigh, p) == FlushFrom(suits, FirstFlushSuit(suits, k), straightHigh, p)
    decreases SUIT_ARRAY_SIZE - k
  {
    if k < SUIT_ARRAY_SIZE && |suits[k]| < 5 {
      FlushFromSkips(suits, k + 1, straightHigh, p);
    }
  }

  /** Once a straight flush is taken, it stays: later suits can only append ranks to it. */
  lemma {:induction false} FlushFromAfterStraightFlush(suits: seq<seq<Rank>>, k: nat, straightHigh: Rank, p: Partial)
    requires |suits| == SUIT_ARRAY_SIZE && k <= SUIT_ARRAY_SIZE
    requires p.best == STRAIGHT_FLUSH && p.hand.handType == STRAIGHT_FLUSH
    ensures var q := FlushFrom(suits, k, straightHigh, p);
      q.best == STRAIGHT_FLUSH && q.hand.handType == STRAIGHT_FLUSH && p.hand.ranks <= q.hand.ranks
    decreases SUIT_ARRAY_SIZE - k
  {
    if k < SUIT_ARRAY_SIZE {
      if |suits[k]| >= 5 {
        var q := FlushSuit(suits[k], straightHigh, p);
        FlushFromAfterStraightFlush(suits, k + 1, straightHigh, q);
      } else {
        FlushFromAfterStraightFlush(suits, k + 1, straightHigh, p);
      }
    }
  }

  /** The straight-flush high the check finds in the flush of suit f, or 0. */
  function SuitStraightFlush(suits: seq<seq<Rank>>, f: nat, straightHigh: Rank): Rank
    requires |suits| == SUIT_ARRAY_SIZE && f < SUIT_ARRAY_SIZE
  {
    if straightHigh != RANK_UNSPECIFIED
    then StraightFlushHigh(SortDescending(suits[f]), 0, RANK_UNSPECIFIED, 0, 0)
    else RANK_UNSPECIFIED
  }

  /** The outcome of the flush check started as the evaluator starts it (best type from the
      scan, empty hand): with no suit of five, nothing changes; otherwise the first such suit
      decides, giving a straight flush from its run when one is found and else the flush of
      its five highest ranks (under a better pattern type, which the check keeps). */
  /** With no suit of five, the flush check leaves the pattern's best type and an empty hand. */
  lemma {:induction false} NoFlushOutcome(suits: seq<seq<Rank>>, straightHigh: Rank, best: HandType)
    requires |suits| == SUIT_ARRAY_SIZE && best < STRAIGHT_FLUSH && best != FLUSH
    requires FirstFlushSuit(suits, 0) == SUIT_ARRAY_SIZE
    ensures FlushFrom(suits, 0, straightHigh, Partial(best, EMPTY_HAND)) == Partial(best, EMPTY_HAND)
  {
    FlushOutcome(suits, straightHigh, best);
  }

  lemma FlushOutcome(suits: seq<seq<Rank>>, straightHigh: Rank, best: HandType)
    requires |suits| == SUIT_ARRAY_SIZE && best < STRAIGHT_FLUSH && best != FLUSH
    ensures var q := FlushFrom(suits, 0, straightHigh, Partial(best, EMPTY_HAND));
      var f := FirstFlushSuit(suits, 0);
      (f == SUIT_ARRAY_SIZE ==> q == Partial(best, EMPTY_HAND))
      && (f < SUIT_ARRAY_SIZE && SuitStraightFlush(suits, f, straightHigh) == RANK_UNSPECIFIED ==>
            q == Partial(Promote(best, FLUSH), Hand(FLUSH, SortDescending(suits[f])[..5])))
      && (f < SUIT_ARRAY_SIZE && SuitStraightFlush(suits, f, straightHigh) != RANK_UNSPECIFIED ==>
            q.best == STRAIGHT_FLUSH && q.hand.handType == STRAIGHT_FLUSH
            && RunRanks(SuitStraightFlush(suits, f, straightHigh)) <= q.hand.ranks)
  {
    var p := Partial(best, EMPTY_HAND);
    var f := FirstFlushSuit(suits, 0);
    FlushFromSkips(suits, 0, straightHigh, p);
    if f < SUIT_ARRAY_SIZE {
      var sf := SuitStraightFlush(suits, f, straightHigh);
      if sf != RANK_UNSPECIFIED {
        var q0 := Partial(STRAIGHT_FLUSH, Hand(STRAIGHT_FLUSH, RunRanks(sf)));
        assert FlushSuit(suits[f], straightHigh, p) == q0;
        FlushFromAfterStraightFlush(suits, f + 1, straightHigh, q0);
      }
    }
  }

  /** A run the straight-flush walk reports lies in the flush: its five ranks (the ace for
      the bottom of a wheel) are all there, and its top is at least FIVE. */
  lemma {:induction false} StraightFlushSound(flush: seq<Rank>, k: nat, sfHigh: Rank, prev: int, run: int)
    requires forall j :: 0 <= j < |flush| ==> IsCardRank(flush[j])
    requires sfHigh != RANK_UNSPECIFIED ==>
      1 <= run <= 4 && prev == sfHigh - run + 1 && FIVE <= sfHigh
      && forall x :: prev <= x <= sfHigh ==> x in flush
    ensures var r := StraightFlushHigh(flush, k, sfHigh, prev, run);
      r != RANK_UNSPECIFIED ==> FIVE <= r <= ACE && forall x :: x in RunRanks(r) ==> x in flush
    decreases |flush| - k
  {
    if k < |flush| {
      var rank := flush[k];
      if sfHigh == RANK_UNSPECIFIED || rank != prev - 1 {
        if rank > FOUR {
          StraightFlushSound(flush, k + 1, rank, rank, 1);
        }
      } else {
        var len := run + 1;
        if len == 5 {
          assert RunRanks(sfHigh) == [sfHigh, sfHigh - 1, sfHigh - 2, sfHigh - 3, rank];
          assert sfHigh in flush;
        } else if len == 4 && rank == TWO && flush[0] == ACE {
          assert RunRanks(sfHigh) == [FIVE, FOUR, THREE, TWO, ACE];
          assert sfHigh in flush;
        } else {
          StraightFlushSound(flush, k + 1, sfHigh, rank, len);
        }
      }
    }
  }

  // ---------------------------------------------------------------------------
  // Buckets in terms of the cards.

  /** Some card has rank r. */
  predicate HoldsRank(cards: seq<Card>, r: Rank)
  {
    exists t :: 0 <= t < |cards| && cards[t].rank == r
  }

  /** Some card of the suit with ordinal k has rank r. */
  predicate HoldsSuited(cards: seq<Card>, r: Rank, k: int)
  {
    exists t :: 0 <= t < |cards| && cards[t].rank == r && cards[t].suit.Ordinal() == k
  }

  /** A rank bucket is non-empty exactly when a card of that rank is held. */
  lemma {:induction false} RankBucketHolds(cards: seq<Card>, r: Rank)
    ensures |RankBucket(cards, r)| > 0 <==> HoldsRank(cards, r)
  {
    if |cards| > 0 {
      var init := cards[..|cards| - 1];
      RankBucketHolds(init, r);
      if HoldsRank(init, r) {
        var t :| 0 <= t < |init| && init[t].rank == r;
        assert cards[t].rank == r;
      }
      if HoldsRank(cards, r) && cards[|cards| - 1].rank != r {
        var t :| 0 <= t < |cards| && cards[t].rank == r;
        assert init[t].rank == r;
      }
    }
  }

  /** A suit bucket lists rank r exactly when a card of that suit and rank is held. */
  lemma {:induction false} SuitBucketHolds(cards: seq<Card>, r: Rank, k: int)
    ensures r in SuitBucket(cards, k) <==> HoldsSuited(cards, r, k)
  {
    if |cards| > 0 {
      var init := cards[..|cards| - 1];
      var last := cards[|cards| - 1];
      SuitBucketHolds(init, r, k);
      if HoldsSuited(init, r, k) {
        var t :| 0 <= t < |init| && init[t].rank == r && init[t].suit.Ordinal() == k;
        assert cards[t] == init[t];
      }
      if HoldsSuited(cards, r, k) && !(last.rank == r && last.suit.Ordinal() == k) {
        var t :| 0 <= t < |cards| && cards[t].rank == r && cards[t].suit.Ordinal() == k;
        assert init[t] == cards[t];
      }
    }
  }

  /** The rank a slot of the scan stands for: slot ONE is the ace. */
  function SlotRank(k: Rank): Rank { if k == ONE then ACE else k }

  /** Five consecutive ranks topped by high are held, the ace also counting below TWO. */
  predicate HoldsStraight(cards: seq<Card>, high: Rank)
  {
    FIVE <= high <= ACE && forall k :: high - 4 <= k <= high ==> HoldsRank(cards, SlotRank(k))
  }

  /** A straight among the cards is exactly five non-empty slots of the scan. */
  lemma StraightInSlots(cards: seq<Card>, high: Rank)
    ensures HoldsStraight(cards, high) <==> StraightAt(RankSizes(cards), high)
  {
    if FIVE <= high <= ACE {
      forall k | high - 4 <= k <= high
        ensures RankSizes(cards)[k] > 0 <==> HoldsRank(cards, SlotRank(k))
      {
        RankBucketHolds(cards, SlotRank(k));
      }
    }
  }

  // ---------------------------------------------------------------------------
  // The evaluation.

  /** The scan over the cards keeps its invariant and finds what ScanFinds promises. */
  lemma ScanOfCards(cards: seq<Card>)
    requires AllValid(cards)
    ensures ScanSizes(RankSizes(cards)) && ScanInv(RankSizes(cards), 0, ScanOf(cards))
    ensures ScanOf(cards).pairHigh == ONE ==> ScanOf(cards).best != FULL_HOUSE
  {
    RankSizesScanSizes(cards);
    ScanInvStart(RankSizes(cards));
    ScanInvAll(RankSizes(cards), ACE, SCAN_START);
    AliasAll(RankSizes(cards), ACE, SCAN_START);
  }

  /** The type of an evaluated hand is a real hand type, never below the scan's pattern;
      it is the pattern's type when no suit has five cards, and at least FLUSH when one has. */
  lemma EvaluationType(cards: seq<Card>)
    requires AllValid(cards) && |cards| >= 5
    ensures var e := Evaluation(cards);
      var st := ScanOf(cards);
      var f := FirstFlushSuit(SuitBuckets(cards), 0);
      HIGH_CARD <= e.handType <= STRAIGHT_FLUSH && e.handType >= st.best
      && (f == SUIT_ARRAY_SIZE ==> e.handType == PatternType(st.best))
      && (f < SUIT_ARRAY_SIZE ==> e.handType >= FLUSH)
  {
    var st := ScanOf(cards);
    ScanOfCards(cards);
    EvaluationParts(cards);
    FlushOutcome(SuitBuckets(cards), st.straightHigh, st.best);
  }

  /** Pairs, quads, straights and flushes among the cards are never missed. */
  lemma EvaluationFinds(cards: seq<Card>)
    requires AllValid(cards) && |cards| >= 5
    ensures var t := Evaluation(cards).handType;
      (forall r :: TWO <= r <= ACE && 2 <= |RankBucket(cards, r)| <= 4 ==> t >= ONE_PAIR)
      && (forall r :: TWO <= r <= ACE && |RankBucket(cards, r)| == 4 ==> t >= FOUR_OF_A_KIND)
      && (forall h :: HoldsStraight(cards, h) ==> t >= STRAIGHT)
      && (forall k :: 0 <= k < SUIT_ARRAY_SIZE && |SuitBucket(cards, k)| >= 5 ==> t >= FLUSH)
  {
    EvaluationType(cards);
    FoundAbove(cards, Evaluation(cards).handType);
  }

  /** A type at least the scan's pattern, and at least FLUSH when some suit has five cards,
      is at least the type of every pair, quads, straight and flush among the cards. */
  lemma {:induction false} FoundAbove(cards: seq<Card>, t: HandType)
    requires AllValid(cards)
    requires t >= ScanOf(cards).best && (FirstFlushSuit(SuitBuckets(cards), 0) < SUIT_ARRAY_SIZE ==> t >= FLUSH)
    ensures (forall r :: TWO <= r <= ACE && 2 <= |RankBucket(cards, r)| <= 4 ==> t >= ONE_PAIR)
      && (forall r :: TWO <= r <= ACE && |RankBucket(cards, r)| == 4 ==> t >= FOUR_OF_A_KIND)
      && (forall h :: HoldsStraight(cards, h) ==> t >= STRAIGHT)
      && (forall k :: 0 <= k < SUIT_ARRAY_SIZE && |SuitBucket(cards, k)| >= 5 ==> t >= FLUSH)
  {
    var sizes := RankSizes(cards);
    ScanOfCards(cards);
    ScanFinds(sizes);
    RankSizesBuckets(cards);
    forall h | HoldsStraight(cards, h) ensures StraightAt(sizes, h) {
      StraightInSlots(cards, h);
    }
    forall k | 0 <= k < SUIT_ARRAY_SIZE && |SuitBucket(cards, k)| >= 5
      ensures FirstFlushSuit(SuitBuckets(cards), 0) < SUIT_ARRAY_SIZE
    {
      FirstFlushSuitBound(SuitBuckets(cards), k);
    }
  }

  /** The first suit of five is no later than any suit of five. */
  lemma FirstFlushSuitBound(suits: seq<seq<Rank>>, k: nat)
    requires |suits| == SUIT_ARRAY_SIZE && k < SUIT_ARRAY_SIZE && |suits[k]| >= 5
    ensures FirstFlushSuit(suits, 0) <= k
  {
  }

  /** A straight is the highest straight held, its ranks from the top down, with the ace
      last in a wheel. */
  lemma EvaluationStraight(cards: seq<Card>)
    requires AllValid(cards) && |cards| >= 5 && Evaluation(cards).handType == STRAIGHT
    ensures var h := ScanOf(cards).straightHigh;
      HoldsStraight(cards, h) && (forall h' :: HoldsStraight(cards, h') ==> h' <= h)
      && Evaluation(cards).ranks == RunRanks(h)
  {
    var st := ScanOf(cards);
    EvaluationType(cards);
    assert st.best == STRAIGHT;
    EvaluationWithoutFlush(cards);
    assert Take(Expand(RemainingCounts(st.best, st, RankSizes(cards)), ACE), 0) == [];
    ScanStraightHighest(cards);
  }

  /** When the scan's pattern is a straight, its top is held and no straight held is higher. */
  lemma {:induction false} ScanStraightHighest(cards: seq<Card>)
    requires AllValid(cards) && ScanOf(cards).best == STRAIGHT
    ensures var h := ScanOf(cards).straightHigh;
      HoldsStraight(cards, h) && forall h' :: HoldsStraight(cards, h') ==> h' <= h
  {
    var st := ScanOf(cards);
    ScanOfCards(cards);
    ScanFinds(RankSizes(cards));
    StraightInSlots(cards, st.straightHigh);
    forall h' | HoldsStraight(cards, h') ensures h' <= st.straightHigh {
      StraightInSlots(cards, h');
    }
  }

  /** The wheel's ranks: five down to two, then the ace. */
  lemma WheelRanks()
    ensures RunRanks(FIVE) == [FIVE, FOUR, THREE, TWO, ACE]
  {
  }

  /** A flush comes exactly from the first suit with five cards, when the scan found nothing
      better and that suit holds no straight flush; its ranks are that suit's five highest,
      in descending order. */
  lemma EvaluationFlush(cards: seq<Card>)
    requires AllValid(cards) && |cards| >= 5
    ensures var suits := SuitBuckets(cards);
      var f := FirstFlushSuit(suits, 0);
      var st := ScanOf(cards);
      (Evaluation(cards).handType == FLUSH <==>
         f < SUIT_ARRAY_SIZE && st.best < FLUSH && SuitStraightFlush(suits, f, st.straightHigh) == RANK_UNSPECIFIED)
      && (Evaluation(cards).handType == FLUSH ==>
            Evaluation(cards).ranks == SortDescending(SuitBucket(cards, f))[..5])
  {
    var st := ScanOf(cards);
    ScanOfCards(cards);
    EvaluationParts(cards);
    FlushOutcome(SuitBuckets(cards), st.straightHigh, st.best);
  }

  /** A straight flush comes exactly from a run the check finds in the first suit with five
      cards; its top is FIVE..ACE, every rank of the run (the ace below TWO in a wheel) is
      held in that suit, and the hand's ranks start with the run from its top down. */
  lemma EvaluationStraightFlush(cards: seq<Card>)
    requires AllValid(cards) && |cards| >= 5
    ensures var suits := SuitBuckets(cards);
      var f := FirstFlushSuit(suits, 0);
      var st := ScanOf(cards);
      var sf := if f < SUIT_ARRAY_SIZE then SuitStraightFlush(suits, f, st.straightHigh) else RANK_UNSPECIFIED;
      (Evaluation(cards).handType == STRAIGHT_FLUSH <==> sf != RANK_UNSPECIFIED)
      && (sf != RANK_UNSPECIFIED ==>
            FIVE <= sf <= ACE && RunRanks(sf) <= Evaluation(cards).ranks
            && forall x :: x in RunRanks(sf) ==> HoldsSuited(cards, x, f))
  {
    var suits := SuitBuckets(cards);
    var f := FirstFlushSuit(suits, 0);
    var st := ScanOf(cards);
    ScanOfCards(cards);
    EvaluationParts(cards);
    FlushOutcome(suits, st.straightHigh, st.best);
    if f < SUIT_ARRAY_SIZE && st.straightHigh != RANK_UNSPECIFIED {
      var bucket := SuitBucket(cards, f);
      assert suits[f] == bucket;
      var flush := SortDescending(bucket);
      SuitBucketRanks(cards, f);
      forall j | 0 <= j < |flush| ensures IsCardRank(flush[j]) {
        assert flush[j] in multiset(bucket);
      }
      StraightFlushSound(flush, 0, RANK_UNSPECIFIED, 0, 0);
      forall x | x in flush ensures HoldsSuited(cards, x, f) {
        assert x in multiset(bucket);
        SuitBucketHolds(cards, x, f);
      }
    }
  }

  // ---------------------------------------------------------------------------
  // Straight flushes are not missed.

  /** No card is listed twice, as in any deal from one deck. */
  predicate DistinctCards(cards: seq<Card>)
  {
    forall i, j :: 0 <= i < j < |cards| ==> cards[i] != cards[j]
  }

  /** No rank is listed twice. */
  predicate DistinctRanks(s: seq<Rank>)
  {
    forall i, j :: 0 <= i < j < |s| ==> s[i] != s[j]
  }

  predicate StrictlyDescending(s: seq<Rank>)
  {
    forall j, k :: 0 <= j < k < |s| ==> s[j] > s[k]
  }

  /** Among distinct cards, a suit holds each rank at most once. */
  lemma {:induction false} SuitBucketDistinct(cards: seq<Card>, k: int)
    requires DistinctCards(cards)
    ensures DistinctRanks(SuitBucket(cards, k))
  {
    if |cards| > 0 {
      var init := cards[..|cards| - 1];
      var last := cards[|cards| - 1];
      SuitBucketDistinct(init, k);
      forall t | 0 <= t < |init|
        ensures !(init[t].rank == last.rank && init[t].suit.Ordinal() == last.suit.Ordinal())
      {
        assert init[t] == cards[t] != last;
      }
      SuitBucketHolds(init, last.rank, k);
    }
  }

  /** Sorting ranks that are all different gives a strictly descending list. */
  lemma {:induction false} SortStrictly(s: seq<Rank>)
    requires DistinctRanks(s)
    ensures StrictlyDescending(SortDescending(s))
    decreases |s|
  {
    if |s| > 0 {
      assert s == [s[0]] + s[1..];
      SortStrictly(s[1..]);
      var sorted := SortDescending(s[1..]);
      assert s[0] !in multiset(s[1..]);
      InsertStrictly(s[0], sorted);
    }
  }

  lemma {:induction false} InsertStrictly(x: Rank, sorted: seq<Rank>)
    requires StrictlyDescending(sorted) && x !in sorted
    ensures StrictlyDescending(InsertDescending(x, sorted))
    decreases |sorted|
  {
    if |sorted| > 0 && sorted[0] > x {
      assert sorted == [sorted[0]] + sorted[1..];
      var rest := InsertDescending(x, sorted[1..]);
      InsertStrictly(x, sorted[1..]);
      RestBelowHead(x, sorted, rest);
      assert InsertDescending(x, sorted) == [sorted[0]] + rest;
    }
  }

  /** Below the head of a strictly descending list, x inserted into the tail stays below
      the head when x is. */
  lemma RestBelowHead(x: Rank, sorted: seq<Rank>, rest: seq<Rank>)
    requires StrictlyDescending(sorted) && |sorted| > 0 && sorted[0] > x
    requires multiset(rest) == multiset(sorted[1..]) + multiset{x}
    ensures forall j :: 0 <= j < |rest| ==> rest[j] < sorted[0]
  {
    forall j | 0 <= j < |rest| ensures rest[j] < sorted[0] {
      assert rest[j] in multiset(rest);
      if rest[j] != x {
        assert rest[j] in multiset(sorted[1..]);
        var m :| 0 <= m < |sorted[1..]| && sorted[1..][m] == rest[j];
        assert sorted[m + 1] == rest[j];
      }
    }
  }

  /** In a strictly descending list holding all of h-m+1..h, those values sit at m
      consecutive positions from the position of h. */
  lemma {:induction false} RunPositions(s: seq<Rank>, h: Rank, m: nat, p: nat)
    requires StrictlyDescending(s) && p < |s| && s[p] == h && m >= 1
    requires forall x :: h - m < x <= h ==> x in s
    ensures p + m <= |s| && forall i :: p <= i < p + m ==> s[i] == h - (i - p)
    decreases m
  {
    if m > 1 {
      RunPositions(s, h, m - 1, p);
      assert forall j :: 0 <= j <= p + m - 2 ==> s[j] >= s[p + m - 2];
      assert h - (m - 1) in s;
      var q :| 0 <= q < |s| && s[q] == h - (m - 1);
      assert q >= p + m - 1;
      assert s[p + m - 1] >= s[q];
      assert s[p + m - 1] < s[p + m - 2];
    }
  }

  /** The straight-flush walk over a strictly descending flush, at position k, while a run of
      m ranks topped by h lies at positions p..p+m-1 (five ranks, or the wheel's 5-4-3-2
      under an ace at the front), finds a run topped by h or higher. */
  lemma {:induction false} WalkFindsRun(flush: seq<Rank>, k: nat, sfHigh: Rank, prev: int, run: int, h: Rank, p: nat, m: nat)
    requires StrictlyDescending(flush) && (m == 5 || m == 4) && h >= FIVE
    requires p + m <= |flush| && forall i :: p <= i < p + m ==> flush[i] == h - (i - p)
    requires m == 4 ==> flush[p + 3] == TWO && flush[0] == ACE
    requires k <= p + m - 1
    requires k == 0 ==> sfHigh == RANK_UNSPECIFIED
    requires k > 0 ==> sfHigh != RANK_UNSPECIFIED && prev == flush[k - 1] && 1 <= run <= 4 && sfHigh == prev + run - 1
    requires k > p ==> run >= k - p
    ensures StraightFlushHigh(flush, k, sfHigh, prev, run) >= h
    decreases |flush| - k
  {
    var rank := flush[k];
    assert k > p ==> rank == prev - 1;
    assert k <= p ==> rank >= flush[p];
    if sfHigh == RANK_UNSPECIFIED || rank != prev - 1 {
      WalkFindsRun(flush, k + 1, rank, rank, 1, h, p, m);
    } else {
      var len := run + 1;
      assert k == p + m - 1 ==> len == 5 || (len == 4 && rank == TWO && flush[0] == ACE);
      if !(len == 5 || (len == 4 && rank == TWO && flush[0] == ACE)) {
        WalkFindsRun(flush, k + 1, sfHigh, rank, len, h, p, m);
      } else {
        assert k <= p ==> flush[k - 1] > flush[p];
      }
    }
  }

  /** The walk over a strictly descending flush of card ranks finds a run topped by at least
      the top of any run of five the flush holds (the ace also counting below TWO). */
  lemma FlushRunFound(flush: seq<Rank>, h: Rank)
    requires StrictlyDescending(flush) && forall j :: 0 <= j < |flush| ==> IsCardRank(flush[j])
    requires FIVE <= h <= ACE && forall x :: x in RunRanks(h) ==> x in flush
    ensures |flush| >= 5 && StraightFlushHigh(flush, 0, RANK_UNSPECIFIED, 0, 0) >= h
  {
    var p, m := FlushRunPlaced(flush, h);
    WalkFindsRun(flush, 0, RANK_UNSPECIFIED, 0, 0, h, p, m);
  }

  /** Where the run of five sits in a strictly descending flush: m consecutive positions
      from p, the ace at the front standing for the fifth card of the run topped by FIVE. */
  lemma FlushRunPlaced(flush: seq<Rank>, h: Rank) returns (p: nat, m: nat)
    requires StrictlyDescending(flush) && forall j :: 0 <= j < |flush| ==> IsCardRank(flush[j])
    requires FIVE <= h <= ACE && forall x :: x in RunRanks(h) ==> x in flush
    ensures m == (if h == FIVE then 4 else 5) && p + m <= |flush|
    ensures forall i :: p <= i < p + m ==> flush[i] == h - (i - p)
    ensures m == 4 ==> flush[p + 3] == TWO && flush[0] == ACE && p >= 1
  {
    assert h in RunRanks(h);
    p :| 0 <= p < |flush| && flush[p] == h;
    m := if h == FIVE then 4 else 5;
    forall x | h - m < x <= h ensures x in flush {
      assert x == RunRanks(h)[h - x];
    }
    RunPositions(flush, h, m, p);
    if h == FIVE {
      assert ACE in RunRanks(h);
      var a :| 0 <= a < |flush| && flush[a] == ACE;
      assert flush[0] >= flush[a] && flush[0] != flush[p];
    }
  }

  /** Once a straight is the best type, the scan keeps a straight top. */
  predicate StraightKept(st: ScanState)
  {
    st.best >= STRAIGHT ==> st.straightHigh != RANK_UNSPECIFIED
  }

  lemma {:induction false} ScanKeepsStraight(sizes: seq<int>, i: int, st: ScanState)
    requires |sizes| == RANK_ARRAY_SIZE && i < RANK_ARRAY_SIZE && StraightKept(st)
    ensures StraightKept(Scan(sizes, i, st))
    decreases i
  {
    if i > 0 {
      ScanKeepsStraight(sizes, i - 1, ScanStep(st, i, sizes[i]));
    }
  }

  /** Among distinct cards, a run of five held in one suit gives that suit five cards or
      more, and the walk over its sorted ranks finds a run topped by at least the run's top. */
  lemma SuitRunFound(cards: seq<Card>, k: int, h: Rank)
    requires AllValid(cards) && DistinctCards(cards)
    requires FIVE <= h <= ACE && forall x :: x in RunRanks(h) ==> HoldsSuited(cards, x, k)
    ensures var bucket := SuitBucket(cards, k);
      |bucket| >= 5 && StraightFlushHigh(SortDescending(bucket), 0, RANK_UNSPECIFIED, 0, 0) >= h
  {
    var bucket := SuitBucket(cards, k);
    var flush := SortDescending(bucket);
    SuitBucketDistinct(cards, k);
    SortStrictly(bucket);
    SuitBucketRanks(cards, k);
    forall j | 0 <= j < |flush| ensures IsCardRank(flush[j]) {
      assert flush[j] in multiset(bucket);
    }
    forall x | x in RunRanks(h) ensures x in flush {
      SuitBucketHolds(cards, x, k);
      assert x in multiset(bucket);
    }
    FlushRunFound(flush, h);
    assert |multiset(flush)| == |multiset(bucket)|;
  }

  /** When the cards hold a straight, the scan ends with a straight top. */
  lemma ScanKeepsStraightTop(cards: seq<Card>, h: Rank)
    requires AllValid(cards) && HoldsStraight(cards, h)
    ensures ScanOf(cards).straightHigh != RANK_UNSPECIFIED
  {
    ScanOfCards(cards);
    ScanFinds(RankSizes(cards));
    StraightInSlots(cards, h);
    ScanKeepsStraight(RankSizes(cards), ACE, SCAN_START);
  }

  /** Among distinct cards, five consecutive ranks of one suit (the ace also below TWO),
      when every suit checked before it has fewer than five cards, make a straight flush,
      topped by the highest such run; the hand's ranks start with that run from its top down. */
  lemma EvaluationStraightFlushFound(cards: seq<Card>, k: int, h: Rank)
    requires AllValid(cards) && |cards| >= 5 && DistinctCards(cards)
    requires 0 <= k < SUIT_ARRAY_SIZE && forall j :: 0 <= j < k ==> |SuitBucket(cards, j)| < 5
    requires FIVE <= h <= ACE && forall x :: x in RunRanks(h) ==> HoldsSuited(cards, x, k)
    ensures var e := Evaluation(cards);
      e.handType == STRAIGHT_FLUSH && |e.ranks| >= 5 && h <= e.ranks[0] && RunRanks(e.ranks[0]) <= e.ranks
  {
    var suits := SuitBuckets(cards);
    SuitRunFound(cards, k, h);
    FirstFlushSuitBound(suits, k);
    assert FirstFlushSuit(suits, 0) == k;
    SuitedRunIsStraight(cards, k, h);
    ScanKeepsStraightTop(cards, h);
    EvaluationStraightFlush(cards);
    var sf := SuitStraightFlush(suits, k, ScanOf(cards).straightHigh);
    assert h <= sf;
    RunOpensHand(Evaluation(cards), sf, h);
  }

  /** Five consecutive ranks held in one suit are a straight. */
  lemma SuitedRunIsStraight(cards: seq<Card>, k: int, h: Rank)
    requires FIVE <= h <= ACE && forall x :: x in RunRanks(h) ==> HoldsSuited(cards, x, k)
    ensures HoldsStraight(cards, h)
  {
    forall q | h - 4 <= q <= h ensures HoldsRank(cards, SlotRank(q)) {
      assert SlotRank(q) == RunRanks(h)[h - q] && RunRanks(h)[h - q] in RunRanks(h);
      var t :| 0 <= t < |cards| && cards[t].rank == SlotRank(q) && cards[t].suit.Ordinal() == k;
    }
  }

  /** Ranks that open with a run topped by sf >= h open with a run topped at least at h. */
  lemma RunOpensHand(e: Hand, sf: Rank, h: Rank)
    requires FIVE <= sf <= ACE && RunRanks(sf) <= e.ranks && h <= sf
    ensures |e.ranks| >= 5 && h <= e.ranks[0] && RunRanks(e.ranks[0]) <= e.ranks
  {
    assert e.ranks[0] == RunRanks(sf)[0] == sf;
  }

  /** Without a suit of five, the hand is the scan's pattern followed by the highest ranks
      of the cards the pattern leaves, exactly five ranks in all, the kickers being real
      card ranks. */
  lemma EvaluationWithoutFlush(cards: seq<Card>)
    requires AllValid(cards) && |cards| >= 5
    requires FirstFlushSuit(SuitBuckets(cards), 0) == SUIT_ARRAY_SIZE
    ensures SlotsInRange(ScanOf(cards))
    ensures var st := ScanOf(cards);
      var pattern := PatternRanks(st.best, st);
      var rest := RemainingCounts(st.best, st, RankSizes(cards));
      |pattern| <= 5
      && Evaluation(cards) == Hand(PatternType(st.best), pattern + Take(Expand(rest, ACE), 5 - |pattern|))
      && |Evaluation(cards).ranks| == 5
      && forall j :: |pattern| <= j < 5 ==> IsCardRank(Evaluation(cards).ranks[j])
  {
    ScanOfCards(cards);
    EvaluationParts(cards);
    NoFlushAssembly(Evaluation(cards), ScanOf(cards), RankSizes(cards), SuitBuckets(cards));
  }

  /** A hand assembled after a flush check that finds no suit: the pattern, then the
      highest remaining ranks. */
  lemma {:induction false} NoFlushAssembly(h: Hand, st: ScanState, counts: seq<int>, suits: seq<seq<Rank>>)
    requires |counts| == RANK_ARRAY_SIZE && SlotsInRange(st) && |suits| == SUIT_ARRAY_SIZE
    requires st.best < STRAIGHT_FLUSH && st.best != FLUSH
    requires FirstFlushSuit(suits, 0) == SUIT_ARRAY_SIZE
    requires var p := FlushFrom(suits, 0, st.straightHigh, Partial(st.best, EMPTY_HAND));
      h == Assemble(p, st, counts)
      && (p.best != FLUSH && p.best != STRAIGHT_FLUSH ==>
            p.best == st.best && KickersFit(RemainingCounts(st.best, st, counts), |PatternRanks(st.best, st)|))
    ensures var pattern := PatternRanks(st.best, st);
      var rest := RemainingCounts(st.best, st, counts);
      |pattern| <= 5
      && h == Hand(PatternType(st.best), pattern + Take(Expand(rest, ACE), 5 - |pattern|))
      && |h.ranks| == 5
      && forall j :: |pattern| <= j < 5 ==> IsCardRank(h.ranks[j])
  {
    NoFlushOutcome(suits, st.straightHigh, st.best);
    AssembleFromEmpty(h, st, counts);
  }

  /** Assembly with nothing taken by the flush check: the pattern, then the highest
      remaining ranks, five ranks in all. */
  lemma {:induction false} AssembleFromEmpty(h: Hand, st: ScanState, counts: seq<int>)
    requires |counts| == RANK_ARRAY_SIZE && SlotsInRange(st)
    requires st.best != FLUSH && st.best != STRAIGHT_FLUSH
    requires KickersFit(RemainingCounts(st.best, st, counts), |PatternRanks(st.best, st)|)
    requires h == Assemble(Partial(st.best, EMPTY_HAND), st, counts)
    ensures var pattern := PatternRanks(st.best, st);
      var rest := RemainingCounts(st.best, st, counts);
      |pattern| <= 5
      && h == Hand(PatternType(st.best), pattern + Take(Expand(rest, ACE), 5 - |pattern|))
      && |h.ranks| == 5
      && forall j :: |pattern| <= j < 5 ==> IsCardRank(h.ranks[j])
  {
    AssembleWithKickers(Partial(st.best, EMPTY_HAND), st, counts);
    assert [] + PatternRanks(st.best, st) == PatternRanks(st.best, st);
  }

  /** Assembly of a non-flush hand with enough cards left for its kickers: whatever the
      flush check left in the hand, then the pattern, then the highest remaining ranks, five
      ranks added in all. */
  lemma AssembleWithKickers(p: Partial, st: ScanState, counts: seq<int>)
    requires |counts| == RANK_ARRAY_SIZE && SlotsInRange(st)
    requires p.best != FLUSH && p.best != STRAIGHT_FLUSH
    requires KickersFit(RemainingCounts(p.best, st, counts), |PatternRanks(p.best, st)|)
    ensures var pattern := PatternRanks(p.best, st);
      var rest := RemainingCounts(p.best, st, counts);
      var h := Assemble(p, st, counts);
      h == Hand(PatternType(p.best), p.hand.ranks + pattern + Take(Expand(rest, ACE), 5 - |pattern|))
      && |h.ranks| == |p.hand.ranks| + 5
      && forall j :: |p.hand.ranks| + |pattern| <= j < |h.ranks| ==> IsCardRank(h.ranks[j])
  {
    var pattern := PatternRanks(p.best, st);
    var rest := RemainingCounts(p.best, st, counts);
    var kickers := Kickers(rest, ACE, |pattern|);
    assert Assemble(p, st, counts) == Hand(PatternType(p.best), p.hand.ranks + pattern + kickers);
    KickersAreTop(rest, ACE, |pattern|);
    KickersFromCardSlots(rest, ACE, |pattern|);
  }

  // ---------------------------------------------------------------------------
  // Which ranks a hand holds.

  predicate CardRanks(s: seq<Rank>) { forall j :: 0 <= j < |s| ==> IsCardRank(s[j]) }

  /** The ace alias is never the high pair of a full house: slot ONE is scanned last, and a
      full house needs its pair recorded before. */
  lemma AliasStep(sizes: seq<int>, i: int, st: ScanState)
    requires ScanSizes(sizes) && 1 <= i <= ACE && ScanInv(sizes, i, st)
    ensures var next := ScanStep(st, i, sizes[i]);
      next.pairHigh == ONE ==> next.best != FULL_HOUSE
  {
  }

  lemma {:induction false} AliasAll(sizes: seq<int>, i: int, st: ScanState)
    requires ScanSizes(sizes) && 1 <= i <= ACE && ScanInv(sizes, i, st)
    ensures Scan(sizes, i, st).pairHigh == ONE ==> Scan(sizes, i, st).best != FULL_HOUSE
    decreases i
  {
    ScanInvStep(sizes, i, st);
    if i == 1 {
      AliasStep(sizes, i, st);
    } else {
      AliasAll(sizes, i - 1, ScanStep(st, i, sizes[i]));
    }
  }

  /** The pattern's ranks are card ranks, except the ace alias as the low pair of a two pair
      whose high pair is aces: a lone pair of aces is seen twice, once in slot ACE and again
      in slot ONE. */
  lemma PatternCardRanks(sizes: seq<int>, st: ScanState)
    requires ScanSizes(sizes) && ScanInv(sizes, 0, st)
    requires st.pairHigh == ONE ==> st.best != FULL_HOUSE
    ensures var pattern := PatternRanks(st.best, st);
      forall j :: 0 <= j < |pattern| ==>
        IsCardRank(pattern[j])
        || (pattern[j] == ONE && st.best == TWO_PAIR && (j == 2 || j == 3) && pattern[..2] == [ACE, ACE])
  {
  }

  /** The flush check only ever adds card ranks to the hand. */
  lemma {:induction false} FlushFromCardRanks(suits: seq<seq<Rank>>, k: nat, straightHigh: Rank, p: Partial)
    requires |suits| == SUIT_ARRAY_SIZE && k <= SUIT_ARRAY_SIZE
    requires forall j :: 0 <= j < SUIT_ARRAY_SIZE ==> CardRanks(suits[j])
    requires CardRanks(p.hand.ranks)
    ensures CardRanks(FlushFrom(suits, k, straightHigh, p).hand.ranks)
    decreases SUIT_ARRAY_SIZE - k
  {
    if k < SUIT_ARRAY_SIZE {
      if |suits[k]| >= 5 {
        FlushSuitCardRanks(suits[k], straightHigh, p);
        FlushFromCardRanks(suits, k + 1, straightHigh, FlushSuit(suits[k], straightHigh, p));
      } else {
        FlushFromCardRanks(suits, k + 1, straightHigh, p);
      }
    }
  }

  /** The check of one suit only adds card ranks: the run's or the flush's. */
  lemma FlushSuitCardRanks(bucket: seq<Rank>, straightHigh: Rank, p: Partial)
    requires |bucket| >= 5 && CardRanks(bucket) && CardRanks(p.hand.ranks)
    ensures CardRanks(FlushSuit(bucket, straightHigh, p).hand.ranks)
  {
    var flush := SortDescending(bucket);
    forall j | 0 <= j < |flush| ensures IsCardRank(flush[j]) {
      assert flush[j] in multiset(bucket);
    }
    StraightFlushSound(flush, 0, RANK_UNSPECIFIED, 0, 0);
  }

  /** Every rank of an evaluated hand is a card rank TWO..ACE, with one exception: a lone
      pair of aces comes out as two pair, aces over the alias ONE. */
  lemma EvaluationRanks(cards: seq<Card>)
    requires AllValid(cards) && |cards| >= 5
    ensures var e := Evaluation(cards);
      forall j :: 0 <= j < |e.ranks| ==>
        IsCardRank(e.ranks[j])
        || (e.ranks[j] == ONE && e.handType == TWO_PAIR && (j == 2 || j == 3) && e.ranks[..2] == [ACE, ACE])
  {
    var st := ScanOf(cards);
    var sizes := RankSizes(cards);
    var suits := SuitBuckets(cards);
    var p := FlushFrom(suits, 0, st.straightHigh, Partial(st.best, EMPTY_HAND));
    ScanOfCards(cards);
    EvaluationParts(cards);
    FlushOutcome(suits, st.straightHigh, st.best);
    forall k | 0 <= k < SUIT_ARRAY_SIZE ensures CardRanks(suits[k]) {
      SuitBucketRanks(cards, k);
    }
    FlushFromCardRanks(suits, 0, st.straightHigh, Partial(st.best, EMPTY_HAND));
    AssembledRanks(p, st, sizes);
  }

  lemma AssembledRanks(p: Partial, st: ScanState, sizes: seq<int>)
    requires ScanSizes(sizes) && ScanInv(sizes, 0, st) && SlotsInRange(st)
    requires st.pairHigh == ONE ==> st.best != FULL_HOUSE
    requires CardRanks(p.hand.ranks) && (p.best < FLUSH ==> p.hand.ranks == [])
    requires p.best != FLUSH && p.best != STRAIGHT_FLUSH ==>
      p.best == st.best && KickersFit(RemainingCounts(st.best, st, sizes), |PatternRanks(st.best, st)|)
    ensures var e := Assemble(p, st, sizes);
      forall j :: 0 <= j < |e.ranks| ==>
        IsCardRank(e.ranks[j])
        || (e.ranks[j] == ONE && e.handType == TWO_PAIR && (j == 2 || j == 3) && e.ranks[..2] == [ACE, ACE])
  {
    if p.best != FLUSH && p.best != STRAIGHT_FLUSH {
      PatternCardRanks(sizes, st);
      AssembleWithKickers(p, st, sizes);
    }
  }

  // ---------------------------------------------------------------------------
  // Two quirks of the scan.

  /** Trips tracking with no pair slot: the recorded trips is the highest slot of three
      seen so far, and while no slot of two has been seen the scan has no full house and
      records a pair only after trips. */
  ghost predicate TripsTracked(sizes: seq<int>, i: int, st: ScanState)
    requires ScanSizes(sizes) && 0 <= i <= ACE
  {
    (forall r :: i < r <= ACE && sizes[r] == 3 ==> st.trips >= r)
    && ((forall r :: i < r <= ACE ==> sizes[r] != 2) ==>
          st.best != FULL_HOUSE && (st.pairHigh != RANK_UNSPECIFIED ==> st.trips != RANK_UNSPECIFIED))
  }

  lemma TripsTrackedStep(sizes: seq<int>, i: int, st: ScanState)
    requires ScanSizes(sizes) && 1 <= i <= ACE && ScanInv(sizes, i, st) && TripsTracked(sizes, i, st)
    ensures TripsTracked(sizes, i - 1, ScanStep(st, i, sizes[i]))
  {
  }

  lemma {:induction false} TripsTrackedAll(sizes: seq<int>, i: int, st: ScanState)
    requires ScanSizes(sizes) && 0 <= i <= ACE && ScanInv(sizes, i, st) && TripsTracked(sizes, i, st)
    ensures TripsTracked(sizes, 0, Scan(sizes, i, st))
    decreases i
  {
    if i > 0 {
      ScanInvStep(sizes, i, st);
      TripsTrackedStep(sizes, i, st);
      TripsTrackedAll(sizes, i - 1, ScanStep(st, i, sizes[i]));
    }
  }

  /** No straight among the cards means no five non-empty slots. */
  lemma NoStraightSlots(cards: seq<Card>)
    requires forall h :: !HoldsStraight(cards, h)
    ensures forall h :: FIVE <= h <= ACE ==> !StraightAt(RankSizes(cards), h)
  {
    forall h | FIVE <= h <= ACE ensures !StraightAt(RankSizes(cards), h) {
      StraightInSlots(cards, h);
    }
  }

  /** No suit of five cards means the flush check finds no suit. */
  lemma NoFlushSuit(cards: seq<Card>)
    requires forall k :: 0 <= k < SUIT_ARRAY_SIZE ==> |SuitBucket(cards, k)| < 5
    ensures FirstFlushSuit(SuitBuckets(cards), 0) == SUIT_ARRAY_SIZE
  {
  }

  /** The scan of two slots of three, without slots of two or four and without a straight,
      ends on three of a kind of the highest slot of three. */
  lemma TwoTripsScan(sizes: seq<int>, r1: Rank, r2: Rank)
    requires ScanSizes(sizes)
    requires forall r :: TWO <= r <= ACE ==> sizes[r] != 2 && sizes[r] != 4
    requires TWO <= r1 <= ACE && TWO <= r2 <= ACE && r1 != r2 && sizes[r1] == 3 && sizes[r2] == 3
    requires forall h :: FIVE <= h <= ACE ==> !StraightAt(sizes, h)
    ensures var st := Scan(sizes, ACE, SCAN_START);
      st.best == THREE_OF_A_KIND && TWO <= st.trips <= ACE && sizes[st.trips] == 3
      && forall r :: TWO <= r <= ACE && sizes[r] == 3 ==> r <= st.trips
  {
    ScanInvStart(sizes);
    ScanInvAll(sizes, ACE, SCAN_START);
    assert TripsTracked(sizes, ACE, SCAN_START);
    TripsTrackedAll(sizes, ACE, SCAN_START);
    TwoTripsFinal(sizes, r1, Scan(sizes, ACE, SCAN_START));
  }

  /** The final state of such a scan: trips are recorded, quads, straight and full house
      are not, so the best type is three of a kind. */
  lemma {:induction false} TwoTripsFinal(sizes: seq<int>, r1: Rank, st: ScanState)
    requires ScanSizes(sizes) && ScanInv(sizes, 0, st) && TripsTracked(sizes, 0, st)
    requires forall r :: TWO <= r <= ACE ==> sizes[r] != 2 && sizes[r] != 4
    requires TWO <= r1 <= ACE && sizes[r1] == 3
    requires forall h :: FIVE <= h <= ACE ==> !StraightAt(sizes, h)
    ensures st.best == THREE_OF_A_KIND && TWO <= st.trips <= ACE && sizes[st.trips] == 3
    ensures forall r :: TWO <= r <= ACE && sizes[r] == 3 ==> r <= st.trips
  {
    assert st.trips >= r1;
    assert forall r :: 0 < r <= ACE ==> sizes[r] != 2 by {
      assert sizes[ONE] == sizes[ACE];
    }
  }

  /** Two (or more) ranks held three times each, without any rank held twice or four times
      and without straight or flush, give three of a kind of the highest of them, not a full
      house: the second trips is only recorded as a pair. */
  lemma TwoTripsAreThreeOfAKind(cards: seq<Card>, r1: Rank, r2: Rank)
    requires AllValid(cards) && |cards| >= 5
    requires forall r :: TWO <= r <= ACE ==> |RankBucket(cards, r)| != 2 && |RankBucket(cards, r)| != 4
    requires TWO <= r1 <= ACE && TWO <= r2 <= ACE && r1 != r2
    requires |RankBucket(cards, r1)| == 3 && |RankBucket(cards, r2)| == 3
    requires forall h :: !HoldsStraight(cards, h)
    requires forall k :: 0 <= k < SUIT_ARRAY_SIZE ==> |SuitBucket(cards, k)| < 5
    ensures var e := Evaluation(cards);
      e.handType == THREE_OF_A_KIND && |e.ranks| == 5
      && e.ranks[0] == e.ranks[1] == e.ranks[2]
      && |RankBucket(cards, e.ranks[0])| == 3
      && forall r :: TWO <= r <= ACE && |RankBucket(cards, r)| == 3 ==> r <= e.ranks[0]
  {
    TwoTripsScanOf(cards, r1, r2);
    EvaluationWithoutFlush(cards);
    TripsPattern(Evaluation(cards), ScanOf(cards), RankSizes(cards));
  }

  /** Under the same conditions the flush check finds no suit and the scan ends on three
      of a kind of the highest rank held three times. */
  lemma {:induction false} TwoTripsScanOf(cards: seq<Card>, r1: Rank, r2: Rank)
    requires AllValid(cards) && |cards| >= 5
    requires forall r :: TWO <= r <= ACE ==> |RankBucket(cards, r)| != 2 && |RankBucket(cards, r)| != 4
    requires TWO <= r1 <= ACE && TWO <= r2 <= ACE && r1 != r2
    requires |RankBucket(cards, r1)| == 3 && |RankBucket(cards, r2)| == 3
    requires forall h :: !HoldsStraight(cards, h)
    requires forall k :: 0 <= k < SUIT_ARRAY_SIZE ==> |SuitBucket(cards, k)| < 5
    ensures FirstFlushSuit(SuitBuckets(cards), 0) == SUIT_ARRAY_SIZE
    ensures var st := ScanOf(cards);
      st.best == THREE_OF_A_KIND && TWO <= st.trips <= ACE && |RankBucket(cards, st.trips)| == 3
      && forall r :: TWO <= r <= ACE && |RankBucket(cards, r)| == 3 ==> r <= st.trips
  {
    var sizes := RankSizes(cards);
    RankSizesScanSizes(cards);
    NoStraightSlots(cards);
    NoFlushSuit(cards);
    RankSizesBuckets(cards);
    TwoTripsScan(sizes, r1, r2);
  }

  /** A non-flush hand assembled from a scan whose best type is three of a kind opens with
      the trips rank three times. */
  lemma {:induction false} TripsPattern(e: Hand, st: ScanState, counts: seq<int>)
    requires |counts| == RANK_ARRAY_SIZE && SlotsInRange(st) && st.best == THREE_OF_A_KIND
    requires var pattern := PatternRanks(st.best, st);
      e == Hand(PatternType(st.best), pattern + Take(Expand(RemainingCounts(st.best, st, counts), ACE), 5 - |pattern|))
    requires |e.ranks| == 5
    ensures e.handType == THREE_OF_A_KIND && e.ranks[0] == e.ranks[1] == e.ranks[2] == st.trips
  {
    assert PatternRanks(st.best, st) == [st.trips, st.trips, st.trips];
  }

  /** Tracking of a lone pair of aces: the low pair stays unset until slot ONE, which
      records the alias as the low pair. */
  ghost predicate LoneAceTracked(sizes: seq<int>, i: int, st: ScanState)
    requires ScanSizes(sizes) && 0 <= i <= ACE
  {
    (i >= 1 ==> st.pairLow == RANK_UNSPECIFIED)
    && (i == 0 ==> st.pairLow == ONE && st.best >= TWO_PAIR)
  }

  lemma LoneAceStep(sizes: seq<int>, i: int, st: ScanState)
    requires ScanSizes(sizes) && 1 <= i <= ACE && ScanInv(sizes, i, st) && LoneAceTracked(sizes, i, st)
    requires sizes[ACE] == 2 && forall r :: TWO <= r < ACE ==> sizes[r] <= 1
    ensures LoneAceTracked(sizes, i - 1, ScanStep(st, i, sizes[i]))
  {
  }

  lemma {:induction false} LoneAceAll(sizes: seq<int>, i: int, st: ScanState)
    requires ScanSizes(sizes) && 0 <= i <= ACE && ScanInv(sizes, i, st) && LoneAceTracked(sizes, i, st)
    requires sizes[ACE] == 2 && forall r :: TWO <= r < ACE ==> sizes[r] <= 1
    ensures LoneAceTracked(sizes, 0, Scan(sizes, i, st))
    decreases i
  {
    if i > 0 {
      ScanInvStep(sizes, i, st);
      LoneAceStep(sizes, i, st);
      LoneAceAll(sizes, i - 1, ScanStep(st, i, sizes[i]));
    }
  }

  /** The scan of a lone pair of aces, without other repeated slots and without a
      straight, ends on two pair with the aces high and the alias ONE low. */
  lemma LoneAceScan(sizes: seq<int>)
    requires ScanSizes(sizes)
    requires sizes[ACE] == 2 && forall r :: TWO <= r < ACE ==> sizes[r] <= 1
    requires forall h :: FIVE <= h <= ACE ==> !StraightAt(sizes, h)
    ensures var st := Scan(sizes, ACE, SCAN_START);
      st.best == TWO_PAIR && st.pairHigh == ACE && st.pairLow == ONE
  {
    ScanInvStart(sizes);
    ScanInvAll(sizes, ACE, SCAN_START);
    LoneAceAll(sizes, ACE, SCAN_START);
  }

  /** A lone pair of aces, with no other repeated rank and no straight or flush, comes out
      as two pair: aces over the ace alias ONE, then one kicker. */
  lemma LoneAcePairIsTwoPair(cards: seq<Card>)
    requires AllValid(cards) && |cards| >= 5
    requires |RankBucket(cards, ACE)| == 2 && forall r :: TWO <= r < ACE ==> |RankBucket(cards, r)| <= 1
    requires forall h :: !HoldsStraight(cards, h)
    requires forall k :: 0 <= k < SUIT_ARRAY_SIZE ==> |SuitBucket(cards, k)| < 5
    ensures var e := Evaluation(cards);
      e.handType == TWO_PAIR && |e.ranks| == 5 && e.ranks[..4] == [ACE, ACE, ONE, ONE]
  {
    var sizes := RankSizes(cards);
    RankSizesScanSizes(cards);
    NoStraightSlots(cards);
    NoFlushSuit(cards);
    RankSizesBuckets(cards);
    LoneAceScan(sizes);
    EvaluationWithoutFlush(cards);
    AcesOverAlias(ScanOf(cards));
  }

  lemma AcesOverAlias(st: ScanState)
    requires st.best == TWO_PAIR && st.pairHigh == ACE && st.pairLow == ONE
    ensures PatternRanks(st.best, st) == [ACE, ACE, ONE, ONE]
  {
  }

  /** Every evaluation packs into a sort code below SORT_CODE_LIMIT, so it indexes the
      per-code counters in bounds. */
  lemma EvaluationSortCode(cards: seq<Card>)
    requires AllValid(cards) && |cards| >= 5
    ensures TYPE_SHIFT <= SortCode(Evaluation(cards)) < SORT_CODE_LIMIT
  {
    var e := Evaluation(cards);
    EvaluationType(cards);
    EvaluationRanks(cards);
    assert forall j :: 0 <= j < |e.ranks| ==> ONE <= e.ranks[j] <= ACE;
    RankedSortCode(e);
  }

  /** Only the first five ranks enter the sort code, so a typed hand whose ranks are all
      in ONE..ACE packs below SORT_CODE_LIMIT however many ranks it lists. */
  lemma RankedSortCode(h: Hand)
    requires HIGH_CARD <= h.handType <= STRAIGHT_FLUSH
    requires forall j :: 0 <= j < |h.ranks| ==> ONE <= h.ranks[j] <= ACE
    ensures TYPE_SHIFT <= SortCode(h) < SORT_CODE_LIMIT
  {
    var n := if |h.ranks| < 5 then |h.ranks| else 5;
    var t := Hand(h.handType, h.ranks[..n]);
    assert forall k :: 0 <= k < 5 ==> RankAt(t, k) == RankAt(h, k);
    SortCodeLimit(t);
  }
}
