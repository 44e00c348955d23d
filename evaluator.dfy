/** The hand evaluator: scratch arrays of per-rank and per-suit buckets, loaded with the
    community cards by Reset and reused by every Evaluate, which must leave them as Reset
    left them. */
module Evaluator {
  import opened Cards
  import opened Hands
  import opened EvaluatorSpec

  /** Bucket sizes as the scan reads them; slot 0 is never read and counts as empty. */
  function SlotSizes(buckets: seq<seq<Suit>>): (sizes: seq<int>)
    requires |buckets| == RANK_ARRAY_SIZE
    ensures |sizes| == RANK_ARRAY_SIZE && sizes[0] == 0
    ensures forall r :: 0 < r < RANK_ARRAY_SIZE ==> sizes[r] == |buckets[r]|
  {
    seq(RANK_ARRAY_SIZE, r requires 0 <= r < RANK_ARRAY_SIZE => if r == 0 then 0 else |buckets[r]|)
  }

  /** The counts the scan loop has recorded once it is down to slot i: the sizes of the
      slots above i, zero elsewhere. */
  function CountsAbove(sizes: seq<int>, i: int): (counts: seq<int>)
    requires |sizes| == RANK_ARRAY_SIZE
    ensures |counts| == RANK_ARRAY_SIZE
    ensures forall r :: 0 <= r < RANK_ARRAY_SIZE ==> counts[r] == if r > i then sizes[r] else 0
  {
    seq(RANK_ARRAY_SIZE, r requires 0 <= r < RANK_ARRAY_SIZE => if r > i then sizes[r] else 0)
  }

  lemma CountsAboveStep(sizes: seq<int>, i: int)
    requires |sizes| == RANK_ARRAY_SIZE && 0 <= i < RANK_ARRAY_SIZE
    ensures CountsAbove(sizes, i)[i := sizes[i]] == CountsAbove(sizes, i - 1)
  {
  }

  lemma CountsAboveAll(sizes: seq<int>)
    requires |sizes| == RANK_ARRAY_SIZE && sizes[0] == 0
    ensures CountsAbove(sizes, 0) == sizes
  {
  }

  /** The buckets once the hole cards are pushed and the ace alias is in place: the scan
      sees the sizes of the reference and the flush check the suits of the reference. */
  lemma LoadedBuckets(ranks: seq<seq<Suit>>, suits: seq<seq<Rank>>, cards: seq<Card>)
    requires |ranks| == RANK_ARRAY_SIZE && |suits| == SUIT_ARRAY_SIZE
    requires ranks[ONE] == RankBucket(cards, ACE)
    requires forall r :: 0 <= r < RANK_ARRAY_SIZE && r != ONE ==> ranks[r] == RankBucket(cards, r)
    requires forall k :: 0 <= k < SUIT_ARRAY_SIZE ==> suits[k] == SuitBucket(cards, k)
    ensures SlotSizes(ranks) == RankSizes(cards) && suits == SuitBuckets(cards)
  {
  }

  class HandEvaluator {
    /** Suits of the cards of each rank (slot ONE is the ace alias during Evaluate). */
    const rankBuckets: array<seq<Suit>>
    /** Ranks of the cards of each suit. */
    const suitBuckets: array<seq<Rank>>
    /** Bucket lengths after Reset, the lengths Evaluate truncates back to. */
    const rankResetLimit: array<int>
    const suitResetLimit: array<int>
    /** The community cards of the last Reset. */
    ghost var community: seq<Card>

    /** The arrays have their fixed sizes and the two limit arrays are distinct. */
    ghost predicate Shape()
      reads this
    {
      rankBuckets.Length == RANK_ARRAY_SIZE && suitBuckets.Length == SUIT_ARRAY_SIZE
      && rankResetLimit.Length == RANK_ARRAY_SIZE && suitResetLimit.Length == SUIT_ARRAY_SIZE
      && rankResetLimit != suitResetLimit
    }

    /** The scratch state Reset leaves: every bucket holds exactly the community cards of
        its rank or suit, in order, and every reset limit is its bucket's length. */
    ghost predicate Valid()
      reads this, rankBuckets, suitBuckets, rankResetLimit, suitResetLimit
    {
      Shape() && AllValid(community)
      && (forall r :: 0 <= r < RANK_ARRAY_SIZE ==>
            rankBuckets[r] == RankBucket(community, r) && rankResetLimit[r] == |rankBuckets[r]|)
      && (forall k :: 0 <= k < SUIT_ARRAY_SIZE ==>
            suitBuckets[k] == SuitBucket(community, k) && suitResetLimit[k] == |suitBuckets[k]|)
    }

    constructor ()
      ensures Valid() && community == []
      ensures fresh(rankBuckets) && fresh(suitBuckets) && fresh(rankResetLimit) && fresh(suitResetLimit)
    {
      rankBuckets := new seq<Suit>[RANK_ARRAY_SIZE](_ => []);
      suitBuckets := new seq<Rank>[SUIT_ARRAY_SIZE](_ => []);
      rankResetLimit := new int[RANK_ARRAY_SIZE](_ => 0);
      suitResetLimit := new int[SUIT_ARRAY_SIZE](_ => 0);
      community := [];
    }

    /** Clears the scratch state and loads the community cards. */
    method Reset(cards: seq<Card>)
      requires Shape() && AllValid(cards)
      modifies this, rankBuckets, suitBuckets, rankResetLimit, suitResetLimit
      ensures Valid() && community == cards
    {
      for r := 0 to RANK_ARRAY_SIZE
        invariant forall q :: 0 <= q < r ==> rankResetLimit[q] == 0
      {
        rankResetLimit[r] := 0;
      }
      for k := 0 to SUIT_ARRAY_SIZE
        invariant forall q :: 0 <= q < k ==> suitResetLimit[q] == 0
        invariant forall q :: 0 <= q < RANK_ARRAY_SIZE ==> rankResetLimit[q] == 0
      {
        suitResetLimit[k] := 0;
      }
      for r := 0 to RANK_ARRAY_SIZE
        invariant forall q :: 0 <= q < r ==> rankBuckets[q] == []
        invariant forall q :: 0 <= q < RANK_ARRAY_SIZE ==> rankResetLimit[q] == 0
        invariant forall q :: 0 <= q < SUIT_ARRAY_SIZE ==> suitResetLimit[q] == 0
      {
        rankBuckets[r] := [];
      }
      for k := 0 to SUIT_ARRAY_SIZE
        invariant forall q :: 0 <= q < k ==> suitBuckets[q] == []
        invariant forall q :: 0 <= q < RANK_ARRAY_SIZE ==> rankBuckets[q] == []
        invariant forall q :: 0 <= q < RANK_ARRAY_SIZE ==> rankResetLimit[q] == 0
        invariant forall q :: 0 <= q < SUIT_ARRAY_SIZE ==> suitResetLimit[q] == 0
      {
        suitBuckets[k] := [];
      }
      assert cards[..0] == [];
      for j := 0 to |cards|
        invariant forall r :: 0 <= r < RANK_ARRAY_SIZE ==>
          rankBuckets[r] == RankBucket(cards[..j], r) && rankResetLimit[r] == |rankBuckets[r]|
        invariant forall k :: 0 <= k < SUIT_ARRAY_SIZE ==>
          suitBuckets[k] == SuitBucket(cards[..j], k) && suitResetLimit[k] == |suitBuckets[k]|
      {
        var card := cards[j];
        assert cards[..j + 1][..j] == cards[..j];
        var ranki := card.rank;
        rankBuckets[ranki] := rankBuckets[ranki] + [card.suit];
        rankResetLimit[ranki] := |rankBuckets[ranki]|;
        var suiti := card.suit.Ordinal();
        suitBuckets[suiti] := suitBuckets[suiti] + [card.rank];
        suitResetLimit[suiti] := |suitBuckets[suiti]|;
      }
      assert cards[..|cards|] == cards;
      community := cards;
    }

    /** Evaluates the community cards together with the hole cards and puts the scratch
        state back as Reset left it. The kicker loop reads below slot 0 unless there are
        at least five cards. */
    method Evaluate(hole: seq<Card>) returns (hand: Hand)
      requires Valid() && AllValid(hole) && |community| + |hole| >= 5
      modifies rankBuckets, suitBuckets
      ensures Valid()
      ensures rankBuckets[..] == old(rankBuckets[..]) && suitBuckets[..] == old(suitBuckets[..])
      ensures hand == Evaluation(community + hole)
    {
      ghost var cards := community + hole;
      PushHole(hole);
      // The ace bucket is copied into slot ONE for the straight scan.
      rankBuckets[ONE] := rankBuckets[ACE];
      LoadedBuckets(rankBuckets[..], suitBuckets[..], cards);
      hand := Score(cards);
      RestoreBuckets(hole);
    }

    /** The body of Evaluate between loading and restoring the buckets: the scan, the flush
        check and, when no flush was taken, the assembly with its kickers. */
    method Score(ghost cards: seq<Card>) returns (hand: Hand)
      requires Shape() && AllValid(cards) && |cards| >= 5
      requires SlotSizes(rankBuckets[..]) == RankSizes(cards) && suitBuckets[..] == SuitBuckets(cards)
      ensures hand == Evaluation(cards)
    {
      var st, rankCount := ScanRanks();
      EvaluationParts(cards);
      var best, handType, ranks := CheckFlush(st.straightHigh, st.best);
      hand := Hand(handType, ranks);
      if best != FLUSH && best != STRAIGHT_FLUSH {
        hand := AssembleHand(best, st, rankCount, handType, ranks);
      }
    }

    /** Pushes the hole cards onto the buckets. */
    method PushHole(hole: seq<Card>)
      requires Valid() && AllValid(hole)
      modifies rankBuckets, suitBuckets
      ensures forall r :: 0 <= r < RANK_ARRAY_SIZE ==> rankBuckets[r] == RankBucket(community + hole, r)
      ensures forall k :: 0 <= k < SUIT_ARRAY_SIZE ==> suitBuckets[k] == SuitBucket(community + hole, k)
    {
      assert community + hole[..0] == community;
      for j := 0 to |hole|
        invariant forall r :: 0 <= r < RANK_ARRAY_SIZE ==> rankBuckets[r] == RankBucket(community + hole[..j], r)
        invariant forall k :: 0 <= k < SUIT_ARRAY_SIZE ==> suitBuckets[k] == SuitBucket(community + hole[..j], k)
      {
        var card := hole[j];
        assert (community + hole[..j + 1])[..|community| + j] == community + hole[..j];
        rankBuckets[card.rank] := rankBuckets[card.rank] + [card.suit];
        suitBuckets[card.suit.Ordinal()] := suitBuckets[card.suit.Ordinal()] + [card.rank];
      }
      assert hole[..|hole|] == hole;
    }

    /** The descending scan over rank slots ACE..ONE with its running trackers; also
        records each slot's count for the kickers. */
    method ScanRanks() returns (st: ScanState, rankCount: array<int>)
      requires rankBuckets.Length == RANK_ARRAY_SIZE
      ensures fresh(rankCount) && rankCount[..] == SlotSizes(rankBuckets[..])
      ensures st == Scan(SlotSizes(rankBuckets[..]), ACE, SCAN_START)
    {
      ghost var sizes := SlotSizes(rankBuckets[..]);
      rankCount := new int[RANK_ARRAY_SIZE](_ => 0);
      st := SCAN_START;
      var i := ACE;
      ghost var target := Scan(sizes, i, st);
      while i > 0
        invariant 0 <= i <= ACE && rankCount.Length == RANK_ARRAY_SIZE
        invariant Scan(sizes, i, st) == target
        invariant rankCount[..] == CountsAbove(sizes, i)
      {
        var size := |rankBuckets[i]|;
        assert size == sizes[i];
        CountsAboveStep(sizes, i);
        rankCount[i] := size;
        st := ScanSlot(st, i, size);
        i := i - 1;
      }
      CountsAboveAll(sizes);
    }

    /** One pass of the scan loop at slot i: the straight, four-of-a-kind, three-of-a-kind
        and pair checks in turn, each updating the best type so far and its trackers. */
    static method ScanSlot(st: ScanState, i: Rank, size: int) returns (next: ScanState)
      ensures next == ScanStep(st, i, size)
    {
      var best := st.best;
      var straightHigh := st.straightHigh;
      var straightLength := st.straightLength;
      var fourOfAKind := st.fourOfAKind;
      var trips := st.trips;
      var pairHigh := st.pairHigh;
      var pairLow := st.pairLow;
      // Straight
      if best < STRAIGHT {
        if size != 0 {
          if straightHigh == RANK_UNSPECIFIED {
            straightHigh := i;
            straightLength := 1;
          } else {
            straightLength := straightLength + 1;
            if straightLength == 5 {
              best := Promote(best, STRAIGHT);
            }
          }
        } else {
          straightHigh := RANK_UNSPECIFIED;
          straightLength := 0;
        }
      }
      // Four-of-a-kind
      if size == 4 && best < FOUR_OF_A_KIND {
        best := Promote(best, FOUR_OF_A_KIND);
        fourOfAKind := i;
      }
      // Three-of-a-kind
      if size == 3 {
        if trips == RANK_UNSPECIFIED {
          if pairHigh != RANK_UNSPECIFIED {
            best := Promote(best, FULL_HOUSE);
          } else {
            best := Promote(best, THREE_OF_A_KIND);
          }
          trips := i;
        } else {
          if pairHigh == RANK_UNSPECIFIED {
            best := Promote(best, ONE_PAIR);
            pairHigh := i;
          } else if pairLow == RANK_UNSPECIFIED {
            best := Promote(best, TWO_PAIR);
            pairLow := i;
          }
        }
      }
      // Pair
      if size == 2 {
        if pairHigh == RANK_UNSPECIFIED {
          best := Promote(best, ONE_PAIR);
          pairHigh := i;
        } else if pairLow == RANK_UNSPECIFIED {
          best := Promote(best, TWO_PAIR);
          pairLow := i;
        }
        if trips != RANK_UNSPECIFIED {
          best := Promote(best, FULL_HOUSE);
        }
      }
      next := ScanState(best, straightHigh, straightLength, fourOfAKind, trips, pairHigh, pairLow);
    }

    /** The flush check: for each suit with five or more cards, look for a straight flush
        (only when the scan saw a run), otherwise take the flush and stop. */
    method CheckFlush(straightHigh: Rank, scanBest: HandType) returns (best: HandType, handType: HandType, ranks: seq<Rank>)
      requires suitBuckets.Length == SUIT_ARRAY_SIZE
      ensures Partial(best, Hand(handType, ranks))
           == FlushFrom(suitBuckets[..], 0, straightHigh, Partial(scanBest, EMPTY_HAND))
    {
      ghost var target := FlushFrom(suitBuckets[..], 0, straightHigh, Partial(scanBest, EMPTY_HAND));
      best, handType, ranks := scanBest, HANDTYPE_UNSPECIFIED, [];
      var i := 0;
      while i < SUIT_ARRAY_SIZE
        invariant 0 <= i <= SUIT_ARRAY_SIZE
        invariant FlushFrom(suitBuckets[..], i, straightHigh, Partial(best, Hand(handType, ranks))) == target
      {
        if |suitBuckets[i]| >= 5 {
          best, handType, ranks := CheckSuit(suitBuckets[i], straightHigh, best, handType, ranks);
          if best != STRAIGHT_FLUSH {
            break;
          }
        }
        i := i + 1;
      }
    }

    /** One suit with five or more cards: sort its ranks high to low, look for a straight
        flush when the scan saw a run, and otherwise take the flush. */
    static method CheckSuit(bucket: seq<Rank>, straightHigh: Rank, best0: HandType, handType0: HandType, ranks0: seq<Rank>)
      returns (best: HandType, handType: HandType, ranks: seq<Rank>)
      requires |bucket| >= 5
      ensures Partial(best, Hand(handType, ranks)) == FlushSuit(bucket, straightHigh, Partial(best0, Hand(handType0, ranks0)))
    {
      best, handType, ranks := best0, handType0, ranks0;
      var flush := SortDescending(bucket);
      if straightHigh != RANK_UNSPECIFIED {
        var sfHigh := StraightFlushScan(flush);
        if sfHigh != RANK_UNSPECIFIED {
          best := Promote(best, STRAIGHT_FLUSH);
          handType := STRAIGHT_FLUSH;
          ranks := AddRun(ranks, sfHigh);
        }
      }
      if best != STRAIGHT_FLUSH {
        best := Promote(best, FLUSH);
        handType := FLUSH;
        ghost var ranksBefore := ranks;
        for k := 0 to 5
          invariant ranks == ranksBefore + flush[..k]
        {
          ranks := ranks + [flush[k]];
        }
      }
    }

    /** Walks a descending flush looking for five consecutive ranks, or the wheel 5-4-3-2
        with an ace on top; a run may not start at FOUR or below. */
    static method StraightFlushScan(flush: seq<Rank>) returns (sfHigh: Rank)
      requires |flush| > 0
      ensures sfHigh == StraightFlushHigh(flush, 0, RANK_UNSPECIFIED, 0, 0)
    {
      var high := RANK_UNSPECIFIED;
      var prevRank := 0;
      var runLength := 0;
      sfHigh := RANK_UNSPECIFIED;
      var k := 0;
      while k < |flush|
        invariant 0 <= k <= |flush|
        invariant StraightFlushHigh(flush, k, high, prevRank, runLength) == StraightFlushHigh(flush, 0, RANK_UNSPECIFIED, 0, 0)
      {
        var rank := flush[k];
        if high == RANK_UNSPECIFIED || rank != prevRank - 1 {
          if rank <= FOUR {
            break;
          }
          high := rank;
          runLength := 1;
        } else {
          runLength := runLength + 1;
          if runLength == 5 || (runLength == 4 && rank == TWO && flush[0] == ACE) {
            sfHigh := high;
            break;
          }
        }
        prevRank := rank;
        k := k + 1;
      }
    }

    /** Appends the five ranks of the run topped by high, writing the ace for slot ONE. */
    static method AddRun(ranks: seq<Rank>, high: Rank) returns (r: seq<Rank>)
      ensures r == ranks + RunRanks(high)
    {
      r := ranks;
      var rank := high;
      for k := 0 to 4
        invariant rank == high - k && r == ranks + RunRanks(high)[..k]
      {
        r := r + [rank];
        rank := rank - 1;
      }
      if rank == ONE {
        r := r + [ACE];
      } else {
        r := r + [rank];
      }
    }

    /** Assembles a hand that is neither a flush nor a straight flush: the pattern ranks,
        then the kickers. */
    method AssembleHand(best: HandType, st: ScanState, rankCount: array<int>, ghost handType0: HandType, ranks0: seq<Rank>)
      returns (hand: Hand)
      requires rankCount.Length == RANK_ARRAY_SIZE && SlotsInRange(st)
      requires best != FLUSH && best != STRAIGHT_FLUSH
      requires KickersFit(RemainingCounts(best, st, rankCount[..]), |PatternRanks(best, st)|)
      modifies rankCount
      ensures hand == Assemble(Partial(best, Hand(handType0, ranks0)), st, old(rankCount[..]))
    {
      var handType := HANDTYPE_UNSPECIFIED;
      var ranks := ranks0;
      var ki := 0;
      if best == FOUR_OF_A_KIND {
        handType := FOUR_OF_A_KIND;
        while ki < 4
          invariant 0 <= ki <= 4 && ranks == ranks0 + Repeat(st.fourOfAKind, ki)
        {
          ranks := ranks + [st.fourOfAKind];
          ki := ki + 1;
        }
        rankCount[st.fourOfAKind] := rankCount[st.fourOfAKind] - 4;
      } else if best == FULL_HOUSE {
        handType := FULL_HOUSE;
        while ki < 3
          invariant 0 <= ki <= 3 && ranks == ranks0 + Repeat(st.trips, ki)
        {
          ranks := ranks + [st.trips];
          ki := ki + 1;
        }
        while ki < 5
          invariant 3 <= ki <= 5 && ranks == ranks0 + Repeat(st.trips, 3) + Repeat(st.pairHigh, ki - 3)
        {
          ranks := ranks + [st.pairHigh];
          ki := ki + 1;
        }
      } else if best == STRAIGHT {
        handType := STRAIGHT;
        ranks := AddRun(ranks, st.straightHigh);
        ki := 5;
      } else if best == THREE_OF_A_KIND {
        handType := THREE_OF_A_KIND;
        while ki < 3
          invariant 0 <= ki <= 3 && ranks == ranks0 + Repeat(st.trips, ki)
        {
          ranks := ranks + [st.trips];
          ki := ki + 1;
        }
        rankCount[st.trips] := rankCount[st.trips] - 3;
      } else if best == TWO_PAIR {
        handType := TWO_PAIR;
        while ki < 2
          invariant 0 <= ki <= 2 && ranks == ranks0 + Repeat(st.pairHigh, ki)
        {
          ranks := ranks + [st.pairHigh];
          ki := ki + 1;
        }
        while ki < 4
          invariant 2 <= ki <= 4 && ranks == ranks0 + Repeat(st.pairHigh, 2) + Repeat(st.pairLow, ki - 2)
        {
          ranks := ranks + [st.pairLow];
          ki := ki + 1;
        }
        rankCount[st.pairHigh] := rankCount[st.pairHigh] - 2;
        rankCount[st.pairLow] := rankCount[st.pairLow] - 2;
      } else if best == ONE_PAIR {
        handType := ONE_PAIR;
        while ki < 2
          invariant 0 <= ki <= 2 && ranks == ranks0 + Repeat(st.pairHigh, ki)
        {
          ranks := ranks + [st.pairHigh];
          ki := ki + 1;
        }
        rankCount[st.pairHigh] := rankCount[st.pairHigh] - 2;
      } else {
        handType := HIGH_CARD;
      }
      assert ranks == ranks0 + PatternRanks(best, st) && ki == |PatternRanks(best, st)|;
      assert rankCount[..] == RemainingCounts(best, st, old(rankCount[..]));
      var kickers := AddKickers(rankCount, ki);
      hand := Hand(handType, ranks + kickers);
    }

    /** The kicker loop: from ACE down, take each slot's remaining cards until five ranks
        are placed. */
    static method AddKickers(rankCount: array<int>, ki0: int) returns (kickers: seq<Rank>)
      requires rankCount.Length == RANK_ARRAY_SIZE && KickersFit(rankCount[..], ki0)
      modifies rankCount
      ensures kickers == Kickers(old(rankCount[..]), ACE, ki0)
    {
      ghost var counts := rankCount[..];
      kickers := [];
      var ki := ki0;
      var i := rankCount.Length - 1;
      ghost var target := Kickers(counts, i, ki0);
      while ki < 5
        invariant 0 <= i <= ACE && 0 <= ki <= 5
        invariant forall r :: 0 <= r <= i ==> rankCount[r] == counts[r]
        invariant kickers + Kickers(counts, i, ki) == target
        invariant ki < 5 ==> Supply(counts, i) >= 5 - ki
        decreases i
      {
        SupplyPositive(counts, i, ki);
        ghost var kiAtSlot, kickersAtSlot := ki, kickers;
        var taken;
        ki, taken := TakeSlot(rankCount, i, ki);
        kickers := kickers + taken;
        KickersAtSlot(counts, i, kiAtSlot, ki, kickersAtSlot, kickers);
        i := i - 1;
      }
    }

    /** The inner kicker loop at slot i: place the slot's remaining cards one by one,
        stopping as soon as the fifth rank is placed. */
    static method TakeSlot(rankCount: array<int>, i: int, ki0: int) returns (ki: int, taken: seq<Rank>)
      requires 0 <= i < rankCount.Length && 0 <= ki0 < 5 && rankCount[i] >= 0
      modifies rankCount
      ensures ki - ki0 == if old(rankCount[i]) > 0 then Min(old(rankCount[i]), 5 - ki0) else 0
      ensures taken == Repeat(i, ki - ki0)
      ensures forall r :: 0 <= r < rankCount.Length && r != i ==> rankCount[r] == old(rankCount[r])
    {
      ghost var count := rankCount[i];
      ki, taken := ki0, [];
      while rankCount[i] > 0
        invariant ki0 <= ki < 5 && ki - ki0 <= count
        invariant rankCount[i] == count - (ki - ki0)
        invariant taken == Repeat(i, ki - ki0)
        invariant forall r :: 0 <= r < rankCount.Length && r != i ==> rankCount[r] == old(rankCount[r])
        decreases rankCount[i]
      {
        taken := taken + [i];
        ki := ki + 1;
        if ki == 5 {
          break;
        }
        rankCount[i] := rankCount[i] - 1;
      }
    }

    /** Truncates every bucket the hole cards touched back to its reset limit and empties
        the ace alias slot. */
    method RestoreBuckets(hole: seq<Card>)
      requires Shape() && AllValid(community) && AllValid(hole)
      requires rankBuckets[ONE] == RankBucket(community + hole, ACE)
      requires forall r :: 0 <= r < RANK_ARRAY_SIZE && r != ONE ==> rankBuckets[r] == RankBucket(community + hole, r)
      requires forall k :: 0 <= k < SUIT_ARRAY_SIZE ==> suitBuckets[k] == SuitBucket(community + hole, k)
      requires forall r :: 0 <= r < RANK_ARRAY_SIZE ==> rankResetLimit[r] == |RankBucket(community, r)|
      requires forall k :: 0 <= k < SUIT_ARRAY_SIZE ==> suitResetLimit[k] == |SuitBucket(community, k)|
      modifies rankBuckets, suitBuckets
      ensures Valid()
    {
      assert rankBuckets[..] == RanksDuringRestore(community, hole, 0);
      assert suitBuckets[..] == SuitsDuringRestore(community, hole, 0);
      TruncateTouched(hole);
      RestoreRanksDone(community, hole);
      RestoreSuitsDone(community, hole);
      rankBuckets[ONE] := [];
    }

    /** Cuts every bucket a hole card touched back to its reset limit, one hole card at a
        time. */
    method TruncateTouched(hole: seq<Card>)
      requires Shape() && AllValid(hole)
      requires rankBuckets[..] == RanksDuringRestore(community, hole, 0)
      requires suitBuckets[..] == SuitsDuringRestore(community, hole, 0)
      requires forall r :: 0 <= r < RANK_ARRAY_SIZE ==> rankResetLimit[r] == |RankBucket(community, r)|
      requires forall k :: 0 <= k < SUIT_ARRAY_SIZE ==> suitResetLimit[k] == |SuitBucket(community, k)|
      modifies rankBuckets, suitBuckets
      ensures rankBuckets[..] == RanksDuringRestore(community, hole, |hole|)
      ensures suitBuckets[..] == SuitsDuringRestore(community, hole, |hole|)
    {
      for j := 0 to |hole|
        invariant rankBuckets[..] == RanksDuringRestore(community, hole, j)
        invariant suitBuckets[..] == SuitsDuringRestore(community, hole, j)
      {
        var card := hole[j];
        var ranki := card.rank;
        RestoreRankStep(community, hole, j);
        rankBuckets[ranki] := rankBuckets[ranki][..rankResetLimit[ranki]];
        var suiti := card.suit.Ordinal();
        RestoreSuitStep(community, hole, j);
        suitBuckets[suiti] := suitBuckets[suiti][..suitResetLimit[suiti]];
      }
    }
  }

  ghost predicate HasRank(cards: seq<Card>, r: Rank)
  {
    exists t :: 0 <= t < |cards| && cards[t].rank == r
  }

  ghost predicate HasSuit(cards: seq<Card>, k: int)
  {
    exists t :: 0 <= t < |cards| && cards[t].suit.Ordinal() == k
  }

  /** The rank buckets once the restore loop has handled hole[..j]: a bucket of a rank met
      so far is back to its community part; slot ONE still holds the ace alias. */
  ghost function RanksDuringRestore(community: seq<Card>, hole: seq<Card>, j: int): (b: seq<seq<Suit>>)
    requires 0 <= j <= |hole|
    ensures |b| == RANK_ARRAY_SIZE
  {
    seq(RANK_ARRAY_SIZE, r requires 0 <= r < RANK_ARRAY_SIZE =>
      if r == ONE then RankBucket(community + hole, ACE)
      else if HasRank(hole[..j], r) then RankBucket(community, r)
      else RankBucket(community + hole, r))
  }

  /** The suit buckets once the restore loop has handled hole[..j]. */
  ghost function SuitsDuringRestore(community: seq<Card>, hole: seq<Card>, j: int): (b: seq<seq<Rank>>)
    requires 0 <= j <= |hole|
    ensures |b| == SUIT_ARRAY_SIZE
  {
    seq(SUIT_ARRAY_SIZE, k requires 0 <= k < SUIT_ARRAY_SIZE =>
      if HasSuit(hole[..j], k) then SuitBucket(community, k)
      else SuitBucket(community + hole, k))
  }

  lemma HasRankStep(cards: seq<Card>, j: int, q: Rank)
    requires 0 <= j < |cards|
    ensures HasRank(cards[..j + 1], q) <==> HasRank(cards[..j], q) || cards[j].rank == q
  {
    if HasRank(cards[..j + 1], q) && cards[j].rank != q {
      var t :| 0 <= t < j + 1 && cards[..j + 1][t].rank == q;
      assert cards[..j][t].rank == q;
    }
    if HasRank(cards[..j], q) {
      var t :| 0 <= t < j && cards[..j][t].rank == q;
      assert cards[..j + 1][t].rank == q;
    }
    if cards[j].rank == q {
      assert cards[..j + 1][j].rank == q;
    }
  }

  lemma HasSuitStep(cards: seq<Card>, j: int, k: int)
    requires 0 <= j < |cards|
    ensures HasSuit(cards[..j + 1], k) <==> HasSuit(cards[..j], k) || cards[j].suit.Ordinal() == k
  {
    if HasSuit(cards[..j + 1], k) && cards[j].suit.Ordinal() != k {
      var t :| 0 <= t < j + 1 && cards[..j + 1][t].suit.Ordinal() == k;
      assert cards[..j][t].suit.Ordinal() == k;
    }
    if HasSuit(cards[..j], k) {
      var t :| 0 <= t < j && cards[..j][t].suit.Ordinal() == k;
      assert cards[..j + 1][t].suit.Ordinal() == k;
    }
    if cards[j].suit.Ordinal() == k {
      assert cards[..j + 1][j].suit.Ordinal() == k;
    }
  }

  /** Truncating the bucket of hole[j]'s rank to its community length is one loop step. */
  lemma RestoreRankStep(community: seq<Card>, hole: seq<Card>, j: int)
    requires AllValid(hole) && 0 <= j < |hole|
    ensures |RankBucket(community, hole[j].rank)| <= |RanksDuringRestore(community, hole, j)[hole[j].rank]|
    ensures var b := RanksDuringRestore(community, hole, j);
      var r := hole[j].rank;
      b[r := b[r][..|RankBucket(community, r)|]] == RanksDuringRestore(community, hole, j + 1)
  {
    var r := hole[j].rank;
    var b := RanksDuringRestore(community, hole, j);
    var b' := RanksDuringRestore(community, hole, j + 1);
    RankBucketAppend(community, hole, r);
    HasRankStep(hole, j, r);
    assert b[r][..|RankBucket(community, r)|] == b'[r];
    forall q | 0 <= q < RANK_ARRAY_SIZE && q != r
      ensures b[q] == b'[q]
    {
      HasRankStep(hole, j, q);
    }
  }

  /** Truncating the bucket of hole[j]'s suit to its community length is one loop step. */
  lemma RestoreSuitStep(community: seq<Card>, hole: seq<Card>, j: int)
    requires 0 <= j < |hole|
    ensures |SuitBucket(community, hole[j].suit.Ordinal())| <= |SuitsDuringRestore(community, hole, j)[hole[j].suit.Ordinal()]|
    ensures var b := SuitsDuringRestore(community, hole, j);
      var k := hole[j].suit.Ordinal();
      b[k := b[k][..|SuitBucket(community, k)|]] == SuitsDuringRestore(community, hole, j + 1)
  {
    var k := hole[j].suit.Ordinal();
    var b := SuitsDuringRestore(community, hole, j);
    var b' := SuitsDuringRestore(community, hole, j + 1);
    SuitBucketAppend(community, hole, k);
    HasSuitStep(hole, j, k);
    assert b[k][..|SuitBucket(community, k)|] == b'[k];
    forall q | 0 <= q < SUIT_ARRAY_SIZE && q != k
      ensures b[q] == b'[q]
    {
      HasSuitStep(hole, j, q);
    }
  }

  /** After the loop and the clearing of slot ONE every rank bucket is its community part. */
  lemma RestoreRanksDone(community: seq<Card>, hole: seq<Card>)
    requires AllValid(community)
    ensures var b := RanksDuringRestore(community, hole, |hole|);
      forall r :: 0 <= r < RANK_ARRAY_SIZE && r != ONE ==> b[r] == RankBucket(community, r)
    ensures RankBucket(community, ONE) == []
  {
    assert hole[..|hole|] == hole;
    forall r | 0 <= r < RANK_ARRAY_SIZE && r != ONE && !HasRank(hole, r)
      ensures RankBucket(community + hole, r) == RankBucket(community, r)
    {
      RankBucketAppend(community, hole, r);
      RankBucketAbsent(hole, r);
    }
    RankBucketOutside(community, ONE);
  }

  /** After the loop every suit bucket is its community part. */
  lemma RestoreSuitsDone(community: seq<Card>, hole: seq<Card>)
    ensures var b := SuitsDuringRestore(community, hole, |hole|);
      forall k :: 0 <= k < SUIT_ARRAY_SIZE ==> b[k] == SuitBucket(community, k)
  {
    assert hole[..|hole|] == hole;
    forall k | 0 <= k < SUIT_ARRAY_SIZE && !HasSuit(hole, k)
      ensures SuitBucket(community + hole, k) == SuitBucket(community, k)
    {
      SuitBucketAppend(community, hole, k);
      SuitBucketAbsent(hole, k);
    }
  }
}
