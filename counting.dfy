/** The counters of the statistics and how collecting one street updates them: the
    winning-code counters of each street, the beat matrix between hole-hand classes, and
    the class appearance and win counters. */
module Counting {
  import opened Hands
  import opened Holdem
  import opened HoleIndex
  import opened Tally
  import opened EvaluatorSpec

  /** A counter vector of n zeros. */
  function Zeros(n: nat): (z: seq<int>)
    ensures |z| == n && forall k :: 0 <= k < n ==> z[k] == 0
  {
    seq(n, _ => 0)
  }

  /** An n-by-n matrix. */
  predicate Square(m: seq<seq<int>>, n: nat)
  {
    |m| == n && forall a :: 0 <= a < n ==> |m[a]| == n
  }

  /** The river tally as written: for each player i of the ranking and each later j, the
      cell (class of i, class of j) gains one when j's code differs from i's. */
  method TallyBeats(beat: seq<seq<int>>, ranked: seq<Standing>) returns (r: seq<seq<int>>)
    requires |ranked| > 0 && Square(beat, HOLE_HAND_COUNT)
    requires forall k :: 0 <= k < |ranked| ==> 0 <= ranked[k].tag < HOLE_HAND_COUNT
    ensures Square(r, HOLE_HAND_COUNT)
    ensures forall a, b :: 0 <= a < HOLE_HAND_COUNT && 0 <= b < HOLE_HAND_COUNT ==>
      r[a][b] == beat[a][b] + PairCount(ranked, a, b)
  {
    r := beat;
    var prev := 0;
    var i := 0;
    while i < |ranked| - 1
      invariant 0 <= i <= |ranked| - 1 && Square(r, HOLE_HAND_COUNT)
      invariant forall a, b :: 0 <= a < HOLE_HAND_COUNT && 0 <= b < HOLE_HAND_COUNT ==>
        r[a][b] + PairCount(ranked[i..], a, b) == beat[a][b] + PairCount(ranked, a, b)
    {
      prev := ranked[i].code;
      var j := i + 1;
      while j < |ranked|
        invariant i + 1 <= j <= |ranked| && prev == ranked[i].code && Square(r, HOLE_HAND_COUNT)
        invariant forall a, b :: 0 <= a < HOLE_HAND_COUNT && 0 <= b < HOLE_HAND_COUNT ==>
          r[a][b] + PairCount(ranked[i..], a, b)
          == beat[a][b] + PairCount(ranked, a, b) + Against(ranked[i], ranked[i + 1..j], a, b)
      {
        ghost var r0 := r;
        if ranked[j].code != prev {
          var w, l := ranked[i].tag, ranked[j].tag;
          r := r[w := r[w][l := r[w][l] + 1]];
        }
        prev := ranked[i].code;
        BeatStep(beat, ranked, i, j, r0, r);
        j := j + 1;
      }
      assert ranked[i..][1..] == ranked[i + 1..] && ranked[i + 1..j] == ranked[i + 1..];
      i := i + 1;
    }
    assert ranked[i..][1..] == [];
  }

  /** One step of the inner loop of the river tally: crediting the pair (i, j) when their
      codes differ extends the credits of i to the players up to j. */
  lemma {:induction false} BeatStep(beat: seq<seq<int>>, ranked: seq<Standing>, i: int, j: int, r: seq<seq<int>>, r2: seq<seq<int>>)
    requires 0 <= i < j < |ranked| && Square(beat, HOLE_HAND_COUNT) && Square(r, HOLE_HAND_COUNT)
    requires 0 <= ranked[i].tag < HOLE_HAND_COUNT && 0 <= ranked[j].tag < HOLE_HAND_COUNT
    requires forall a, b :: 0 <= a < HOLE_HAND_COUNT && 0 <= b < HOLE_HAND_COUNT ==>
      r[a][b] + PairCount(ranked[i..], a, b)
      == beat[a][b] + PairCount(ranked, a, b) + Against(ranked[i], ranked[i + 1..j], a, b)
    requires r2 == if ranked[j].code != ranked[i].code
      then r[ranked[i].tag := r[ranked[i].tag][ranked[j].tag := r[ranked[i].tag][ranked[j].tag] + 1]]
      else r
    ensures Square(r2, HOLE_HAND_COUNT)
    ensures forall a, b :: 0 <= a < HOLE_HAND_COUNT && 0 <= b < HOLE_HAND_COUNT ==>
      r2[a][b] + PairCount(ranked[i..], a, b)
      == beat[a][b] + PairCount(ranked, a, b) + Against(ranked[i], ranked[i + 1..j + 1], a, b)
  {
    var x, y := ranked[i], ranked[j];
    CreditCell(r, x, y, r2);
    assert ranked[i + 1..j + 1] == ranked[i + 1..j] + [y];
    forall a, b | 0 <= a < HOLE_HAND_COUNT && 0 <= b < HOLE_HAND_COUNT
      ensures r2[a][b] + PairCount(ranked[i..], a, b)
        == beat[a][b] + PairCount(ranked, a, b) + Against(x, ranked[i + 1..j + 1], a, b)
    {
      AgainstAppend(x, ranked[i + 1..j], y, a, b);
    }
  }

  /** Crediting x followed by y when their codes differ adds one to cell (class of x,
      class of y) and leaves every other cell as it was. */
  lemma {:induction false} CreditCell(r: seq<seq<int>>, x: Standing, y: Standing, r2: seq<seq<int>>)
    requires Square(r, HOLE_HAND_COUNT) && 0 <= x.tag < HOLE_HAND_COUNT && 0 <= y.tag < HOLE_HAND_COUNT
    requires r2 == if x.code != y.code then r[x.tag := r[x.tag][y.tag := r[x.tag][y.tag] + 1]] else r
    ensures Square(r2, HOLE_HAND_COUNT)
    ensures forall a, b :: 0 <= a < HOLE_HAND_COUNT && 0 <= b < HOLE_HAND_COUNT ==>
      r2[a][b] == r[a][b] + if Credited(x, y, a, b) then 1 else 0
  {
  }

  /** Counts one appearance for the class of every player. */
  method CountAppearances(appearance: seq<int>, ranked: seq<Standing>) returns (r: seq<int>)
    requires |appearance| == HOLE_HAND_COUNT
    requires forall k :: 0 <= k < |ranked| ==> 0 <= ranked[k].tag < HOLE_HAND_COUNT
    ensures |r| == HOLE_HAND_COUNT
    ensures forall c :: 0 <= c < HOLE_HAND_COUNT ==> r[c] == appearance[c] + TagCount(ranked, c)
    ensures Sum(r) == Sum(appearance) + |ranked|
  {
    r := appearance;
    for k := 0 to |ranked|
      invariant |r| == HOLE_HAND_COUNT && Sum(r) == Sum(appearance) + k
      invariant forall c :: 0 <= c < HOLE_HAND_COUNT ==> r[c] == appearance[c] + TagCount(ranked[..k], c)
    {
      var c := ranked[k].tag;
      SumUpdate(r, c, 1);
      r := r[c := r[c] + 1];
      assert ranked[..k + 1][..k] == ranked[..k];
    }
    assert ranked[..|ranked|] == ranked;
  }

  /** The counters after one win for the highest code among the standings. */
  predicate TopCounted(after: seq<int>, before: seq<int>, s: seq<Standing>)
  {
    |s| > 0 && 0 <= MaxCode(s) < |before| && after == before[MaxCode(s) := before[MaxCode(s)] + 1]
  }

  /** Counts a win for the code of the first player of the ranking: the highest code. */
  method CountTop(counts: seq<int>, s: seq<Standing>, ranked: seq<Standing>) returns (r: seq<int>)
    requires |s| > 0 && ranked == RankByCode(s)
    requires forall k :: 0 <= k < |s| ==> 0 <= s[k].code < |counts|
    ensures TopCounted(r, counts, s)
  {
    RankTop(s);
    var m := ranked[0].code;
    r := counts[m := counts[m] + 1];
  }

  /** The beat matrix gains the order-free count of each ordered pair of classes. */
  ghost predicate BeatsCredited(s: seq<Standing>, beat0: seq<seq<int>>, beat: seq<seq<int>>)
    requires Square(beat0, HOLE_HAND_COUNT)
  {
    Square(beat, HOLE_HAND_COUNT)
    && forall a, b :: 0 <= a < HOLE_HAND_COUNT && 0 <= b < HOLE_HAND_COUNT ==>
         beat[a][b] == beat0[a][b] + Beats(s, a, b)
  }

  /** Every class gains one appearance per player of that class. */
  ghost predicate AppearancesCounted(s: seq<Standing>, appearance0: seq<int>, appearance: seq<int>)
    requires |appearance0| == HOLE_HAND_COUNT
  {
    |appearance| == HOLE_HAND_COUNT
    && (forall c :: 0 <= c < HOLE_HAND_COUNT ==> appearance[c] == appearance0[c] + TagCount(s, c))
  }

  /** The class of one player with the highest code gains a win. */
  ghost predicate WinCounted(s: seq<Standing>, wins0: seq<int>, wins: seq<int>)
  {
    exists k :: 0 <= k < |s| && s[k].code == MaxCode(s) && 0 <= s[k].tag < |wins0|
      && wins == wins0[s[k].tag := wins0[s[k].tag] + 1]
  }

  /** The river's class statistics, from the ranking of the players: the pair loop over the
      ranking, an appearance for every player, a win for the class of the first. */
  method CreditRiver(beat0: seq<seq<int>>, appearance0: seq<int>, wins0: seq<int>, s: seq<Standing>, ranked: seq<Standing>)
    returns (beat: seq<seq<int>>, appearance: seq<int>, wins: seq<int>)
    requires Square(beat0, HOLE_HAND_COUNT) && |appearance0| == HOLE_HAND_COUNT && |wins0| == HOLE_HAND_COUNT
    requires |s| > 0 && ranked == RankByCode(s)
    requires forall k :: 0 <= k < |s| ==> 0 <= s[k].tag < HOLE_HAND_COUNT
    ensures BeatsCredited(s, beat0, beat)
    ensures AppearancesCounted(s, appearance0, appearance)
    ensures |wins| == HOLE_HAND_COUNT && WinCounted(s, wins0, wins)
  {
    assert forall k :: 0 <= k < |ranked| ==> 0 <= ranked[k].tag < HOLE_HAND_COUNT;
    beat := CreditPairs(beat0, s, ranked);
    appearance := CreditAppearances(appearance0, s, ranked);
    wins := CreditWin(wins0, s, ranked);
  }

  /** The class of the first player of the ranking gains a win. */
  method CreditWin(wins0: seq<int>, s: seq<Standing>, ranked: seq<Standing>) returns (wins: seq<int>)
    requires |wins0| == HOLE_HAND_COUNT && |s| > 0 && ranked == RankByCode(s)
    requires forall k :: 0 <= k < |s| ==> 0 <= s[k].tag < HOLE_HAND_COUNT
    ensures |wins| == HOLE_HAND_COUNT && WinCounted(s, wins0, wins)
  {
    ghost var i := RankTopIndex(s);
    TopWins(s, wins0, i);
    var c := ranked[0].tag;
    wins := wins0[c := wins0[c] + 1];
  }

  /** A win for the class of a player holding the highest code is a counted win. */
  lemma TopWins(s: seq<Standing>, wins0: seq<int>, i: int)
    requires 0 <= i < |s| && s[i].code == MaxCode(s) && 0 <= s[i].tag < |wins0|
    ensures WinCounted(s, wins0, wins0[s[i].tag := wins0[s[i].tag] + 1])
  {
  }

  /** The pair loop over the ranking, read as the order-free count. */
  method CreditPairs(beat0: seq<seq<int>>, s: seq<Standing>, ranked: seq<Standing>) returns (beat: seq<seq<int>>)
    requires Square(beat0, HOLE_HAND_COUNT) && |s| > 0 && ranked == RankByCode(s)
    requires forall k :: 0 <= k < |ranked| ==> 0 <= ranked[k].tag < HOLE_HAND_COUNT
    ensures BeatsCredited(s, beat0, beat)
  {
    beat := TallyBeats(beat0, ranked);
    forall a, b {
      RankCredits(s, a, b);
    }
  }

  /** The appearance loop over the ranking, read as the per-class count of the standings. */
  method CreditAppearances(appearance0: seq<int>, s: seq<Standing>, ranked: seq<Standing>) returns (appearance: seq<int>)
    requires |appearance0| == HOLE_HAND_COUNT && ranked == RankByCode(s)
    requires forall k :: 0 <= k < |ranked| ==> 0 <= ranked[k].tag < HOLE_HAND_COUNT
    ensures AppearancesCounted(s, appearance0, appearance)
  {
    appearance := CountAppearances(appearance0, ranked);
    forall c {
      TagCountPermutation(ranked, s, c);
    }
  }

  /** The counters a run accumulates: wins per sort code on each street, the class-by-class
      beat matrix, and per class the games played and the games won at the river. */
  datatype Counters = Counters(winFlop: seq<int>, winTurn: seq<int>, winRiver: seq<int>,
                               beat: seq<seq<int>>, appearance: seq<int>, wins: seq<int>)

  /** The sizes the counters are built with. */
  predicate Shaped(c: Counters)
  {
    |c.winFlop| == SORT_CODE_LIMIT && |c.winTurn| == SORT_CODE_LIMIT && |c.winRiver| == SORT_CODE_LIMIT
    && Square(c.beat, HOLE_HAND_COUNT) && |c.appearance| == HOLE_HAND_COUNT && |c.wins| == HOLE_HAND_COUNT
  }

  /** What collecting a street does to the counters, given the standings of its players:
      with winning hands gathered, the street's counter gains one win for the highest code;
      at the river with hole cards gathered, the classes are credited; nothing else changes.
      Method contracts state it, and GameCounted, as `StreetCounted(...) == true`: compared
      with `true`, the predicate is handed on whole from a call to its caller instead of
      being unfolded into its parts at every step. */
  ghost predicate StreetCounted(round: Round, winningHand: bool, holeCards: bool, s: seq<Standing>, c0: Counters, c: Counters)
    requires Shaped(c0)
  {
    Shaped(c)
    && (if round == FLOP && winningHand then TopCounted(c.winFlop, c0.winFlop, s) else c.winFlop == c0.winFlop)
    && (if round == TURN && winningHand then TopCounted(c.winTurn, c0.winTurn, s) else c.winTurn == c0.winTurn)
    && (if round == RIVER && winningHand then TopCounted(c.winRiver, c0.winRiver, s) else c.winRiver == c0.winRiver)
    && if round == RIVER && holeCards then
         BeatsCredited(s, c0.beat, c.beat) && AppearancesCounted(s, c0.appearance, c.appearance)
         && WinCounted(s, c0.wins, c.wins)
       else c.beat == c0.beat && c.appearance == c0.appearance && c.wins == c0.wins
  }

  /** What collecting the three later streets of one game does to the counters, given the
      standings of the flop, the turn and the river: with winning hands gathered, each
      street's counter gains one win for that street's highest code; with hole cards
      gathered, the classes are credited from the river; nothing else changes. */
  ghost predicate GameCounted(winningHand: bool, holeCards: bool, flop: seq<Standing>, turn: seq<Standing>,
                              river: seq<Standing>, c0: Counters, c: Counters)
    requires Shaped(c0)
  {
    Shaped(c)
    && (if winningHand then
          TopCounted(c.winFlop, c0.winFlop, flop) && TopCounted(c.winTurn, c0.winTurn, turn)
          && TopCounted(c.winRiver, c0.winRiver, river)
        else c.winFlop == c0.winFlop && c.winTurn == c0.winTurn && c.winRiver == c0.winRiver)
    && if holeCards then
         BeatsCredited(river, c0.beat, c.beat) && AppearancesCounted(river, c0.appearance, c.appearance)
         && WinCounted(river, c0.wins, c.wins)
       else c.beat == c0.beat && c.appearance == c0.appearance && c.wins == c0.wins
  }

  /** Counting the flop, then the turn, then the river is counting the game. */
  lemma StreetsCompose(winningHand: bool, holeCards: bool, flop: seq<Standing>, turn: seq<Standing>,
                       river: seq<Standing>, c0: Counters, c1: Counters, c2: Counters, c3: Counters)
    requires Shaped(c0) && StreetCounted(FLOP, winningHand, holeCards, flop, c0, c1)
    requires StreetCounted(TURN, winningHand, holeCards, turn, c1, c2)
    requires StreetCounted(RIVER, winningHand, holeCards, river, c2, c3)
    ensures GameCounted(winningHand, holeCards, flop, turn, river, c0, c3)
  {
  }

  // ---------------------------------------------------------------------------
  // The codes the source actually ranks by. The evaluator never sets the sort code of the
  // hands it returns, so the hands stored for a street keep the field's default, and every
  // player is ranked with the same code.

  /** The sort code of a hand the evaluator returns: the default of the unset field. */
  const STORED_SORT_CODE := 0

  /** The standings as the stored hands give them: the same classes, every code the stored
      one. */
  function StoredCodes(s: seq<Standing>): (r: seq<Standing>)
    ensures |r| == |s|
    ensures forall k :: 0 <= k < |s| ==> r[k].code == STORED_SORT_CODE && r[k].tag == s[k].tag
  {
    seq(|s|, k requires 0 <= k < |s| => Standing(STORED_SORT_CODE, s[k].tag))
  }

  /** Counting a street from the stored codes: with winning hands gathered, the win always
      goes to counter 0, whatever the hands; the beat matrix never changes. */
  lemma StoredCodesCount(round: Round, winningHand: bool, holeCards: bool, s: seq<Standing>, c0: Counters, c: Counters)
    requires Shaped(c0) && |s| > 0
    requires StreetCounted(round, winningHand, holeCards, StoredCodes(s), c0, c)
    ensures round == FLOP && winningHand ==>
      c.winFlop == c0.winFlop[STORED_SORT_CODE := c0.winFlop[STORED_SORT_CODE] + 1]
    ensures round == TURN && winningHand ==>
      c.winTurn == c0.winTurn[STORED_SORT_CODE := c0.winTurn[STORED_SORT_CODE] + 1]
    ensures round == RIVER && winningHand ==>
      c.winRiver == c0.winRiver[STORED_SORT_CODE := c0.winRiver[STORED_SORT_CODE] + 1]
    ensures c.beat == c0.beat
  {
    var t := StoredCodes(s);
    assert MaxCode(t) == STORED_SORT_CODE by {
      var k :| 0 <= k < |t| && t[k].code == MaxCode(t);
    }
    if round == RIVER && holeCards {
      forall a, b | 0 <= a < HOLE_HAND_COUNT && 0 <= b < HOLE_HAND_COUNT
        ensures c.beat[a][b] == c0.beat[a][b]
      {
        TiesWinNothing(t, a, b);
      }
      forall a | 0 <= a < HOLE_HAND_COUNT
        ensures c.beat[a] == c0.beat[a]
      {
      }
    }
  }

  /** Counting a street from the stored codes, the class win may go to any player. */
  lemma StoredCodesAnyWinner(s: seq<Standing>, wins0: seq<int>, i: int)
    requires 0 <= i < |s| && 0 <= s[i].tag < |wins0|
    ensures WinCounted(StoredCodes(s), wins0, wins0[s[i].tag := wins0[s[i].tag] + 1])
  {
    var t := StoredCodes(s);
    assert MaxCode(t) == STORED_SORT_CODE by {
      var k :| 0 <= k < |t| && t[k].code == MaxCode(t);
    }
    TopWins(t, wins0, i);
  }

  /** Where two players' hands differ, ranking by the hands' codes credits the class of
      the better hand over the class of the other in the beat matrix, while the stored codes
      credit nothing. */
  lemma StoredCodesLoseBeats(s: seq<Standing>, i: int, j: int)
    requires 0 <= i < |s| && 0 <= j < |s| && s[i].code > s[j].code
    ensures Beats(s, s[i].tag, s[j].tag) >= 1
    ensures Beats(StoredCodes(s), s[i].tag, s[j].tag) == 0
  {
    HigherCodeWins(s, i, j);
    TiesWinNothing(StoredCodes(s), s[i].tag, s[j].tag);
  }

  /** The counting half of collecting a street, from the standings of its players: ranks
      them by code, then updates the counters the options ask for. */
  method CountStreet(round: Round, winningHand: bool, holeCards: bool, s: seq<Standing>, c0: Counters)
    returns (c: Counters)
    requires Shaped(c0) && (round == FLOP || round == TURN || round == RIVER)
    requires winningHand || (round == RIVER && holeCards) ==> |s| > 0
    requires forall k :: 0 <= k < |s| ==> 0 <= s[k].code < SORT_CODE_LIMIT && 0 <= s[k].tag < HOLE_HAND_COUNT
    ensures StreetCounted(round, winningHand, holeCards, s, c0, c)
  {
    c := c0;
    var ranked := RankByCode(s);
    if winningHand {
      if round == FLOP {
        var w := CountTop(c.winFlop, s, ranked);
        c := c.(winFlop := w);
      } else if round == TURN {
        var w := CountTop(c.winTurn, s, ranked);
        c := c.(winTurn := w);
      } else {
        var w := CountTop(c.winRiver, s, ranked);
        c := c.(winRiver := w);
      }
    }
    if round == RIVER && holeCards {
      var beat, appearance, wins := CreditRiver(c.beat, c.appearance, c.wins, s, ranked);
      c := c.(beat := beat, appearance := appearance, wins := wins);
    }
  }

}
