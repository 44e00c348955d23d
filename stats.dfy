/** The statistics aggregator: the hole-class index, the beat matrix between classes, the
    winning-code counters of each street, and the class appearance and win counters. */
module Stats {
  import opened Cards
  import opened Hands
  import opened Holdem
  import opened Poker
  import opened HoleIndex
  import opened HandIndex
  import opened Streets
  import opened Tally
  import opened EvaluatorSpec
  import opened EvaluatorProps
  import Evaluator
  import opened Counting

  /** The index of a hand: its position when it is a class. A hand that is not a key
      reads as 0, the value a lookup of a missing key yields. */
  function IndexOf(index: map<Hand, int>, h: Hand): (i: int)
    ensures IndexBounded(index) ==> 0 <= i < HOLE_HAND_COUNT
  {
    if h in index then index[h] else 0
  }

  /** Every value of the index is a class position. */
  ghost predicate IndexBounded(index: map<Hand, int>)
  {
    forall h :: h in index ==> 0 <= index[h] < HOLE_HAND_COUNT
  }

  /** Looking up a class in the class index gives its position, and any other hand gives a
      position too. */
  lemma IndexOfClass(index: map<Hand, int>, h: Hand)
    requires IndexesAllClasses(index)
    ensures IndexBounded(index)
    ensures IsHoleClass(h) ==> IndexOf(index, h) == ClassIndex(h)
  {
    forall g | g in index
      ensures 0 <= index[g] < HOLE_HAND_COUNT
    {
      ClassIndexRoundTrip(g);
    }
  }

  /** The statistics of a simulation run. */
  class Statistics {
    /** The options of the run: which statistics to gather, and how many games. */
    const statsWinningHand: bool
    const statsHoleCards: bool
    const iterations: int
    var table: Table?
    var players: seq<Player>
    /** Hole-hand class to dense index. */
    const handIndex: map<Hand, int>
    /** beat[i][j]: river pairs won by class i over class j. */
    var beat: seq<seq<int>>
    /** Wins per sort code on each street. */
    var winFlop: seq<int>
    var winTurn: seq<int>
    var winRiver: seq<int>
    /** Per class: games played, and games won at the river. */
    var appearance: seq<int>
    var wins: seq<int>
    var totalGames: int

    /** The shapes the constructor establishes and Collect keeps. */
    ghost predicate Valid()
      reads this`winFlop, this`winTurn, this`winRiver, this`beat, this`appearance, this`wins
    {
      IndexBounded(handIndex) && Shaped(Tallies())
    }

    /** The counters, as one value. */
    function Tallies(): (c: Counters)
      reads this`winFlop, this`winTurn, this`winRiver, this`beat, this`appearance, this`wins
      ensures c.winFlop == winFlop && c.winTurn == winTurn && c.winRiver == winRiver
      ensures c.beat == beat && c.appearance == appearance && c.wins == wins
    {
      Counters(winFlop, winTurn, winRiver, beat, appearance, wins)
    }

    /** Builds the class index, an all-zero class-by-class beat matrix, per-code counters
        sized one past the code of five aces in a straight flush, and per-class counters. */
    constructor (statsWinningHand: bool, statsHoleCards: bool, iterations: int)
      ensures Valid() && IndexesAllClasses(handIndex)
      ensures this.statsWinningHand == statsWinningHand && this.statsHoleCards == statsHoleCards
      ensures this.iterations == iterations
      ensures table == null && players == [] && totalGames == 0
      ensures forall a, b :: 0 <= a < HOLE_HAND_COUNT && 0 <= b < HOLE_HAND_COUNT ==> beat[a][b] == 0
      ensures winFlop == Zeros(SORT_CODE_LIMIT) && winTurn == Zeros(SORT_CODE_LIMIT)
      ensures winRiver == Zeros(SORT_CODE_LIMIT)
      ensures appearance == Zeros(HOLE_HAND_COUNT) && wins == Zeros(HOLE_HAND_COUNT)
    {
      this.statsWinningHand := statsWinningHand;
      this.statsHoleCards := statsHoleCards;
      this.iterations := iterations;
      var index, offset := BuildHandIndex();
      var rows: seq<seq<int>> := [];
      for i := 0 to offset
        invariant |rows| == i && forall k :: 0 <= k < i ==> rows[k] == Zeros(offset)
      {
        rows := rows + [Zeros(offset)];
      }
      var top := Hand(STRAIGHT_FLUSH, [ACE, ACE, ACE, ACE, ACE]);
      SortCodeLimit(top);
      IndexOfClass(index, top);
      handIndex := index;
      beat := rows;
      winFlop := Zeros(SortCode(top) + 1);
      winTurn := Zeros(SortCode(top) + 1);
      winRiver := Zeros(SortCode(top) + 1);
      appearance := Zeros(|index|);
      wins := Zeros(|index|);
      table := null;
      players := [];
      totalGames := 0;
    }

    /** Binds the table and the players, in order, for a new game and counts the game. */
    method NewGame(t: Table, ps: seq<Player>)
      modifies this`table, this`players, this`totalGames
      ensures table == t && players == ps && totalGames == old(totalGames) + 1
    {
      table := t;
      var bound: seq<Player> := [];
      for i := 0 to |ps|
        invariant bound == ps[..i]
      {
        bound := bound + [ps[i]];
      }
      assert ps[..|ps|] == ps;
      players := bound;
      totalGames := totalGames + 1;
    }

    /** The players of a street as the tally sees them: the code of their hand for the
        street, and the index of their hole-hand class. */
    function Standings(round: Round): (s: seq<Standing>)
      reads this`players, players
      ensures |s| == |players|
      ensures forall k :: 0 <= k < |s| ==>
        s[k] == Standing(SortCode(StreetHand(players[k], round)), IndexOf(handIndex, players[k].preflopHand))
    {
      var ps := players;
      seq(|ps|, k reads ps requires 0 <= k < |ps| =>
        Standing(SortCode(StreetHand(ps[k], round)), IndexOf(handIndex, ps[k].preflopHand)))
    }

    /** The standings of a street stay as they are while the players, their classes and
        their hands for the street do. */
    twostate lemma StandingsKept(round: Round)
      requires old(players) == players
      requires forall k :: 0 <= k < |players| ==>
        players[k].preflopHand == old(players[k].preflopHand)
        && StreetHand(players[k], round) == old(StreetHand(players[k], round))
      ensures Standings(round) == old(Standings(round))
    {
    }

    /** Every player's hand for the street is the best hand of the community cards and
        their hole cards. */
    ghost predicate StreetEvaluated(round: Round)
      reads this`table, this`players, table`community, players
      requires table != null
    {
      forall k :: 0 <= k < |players| ==>
        StreetHand(players[k], round) == Evaluation(table.community + players[k].cards)
    }

    /** Whether collecting this round evaluates the players' hands. */
    predicate Evaluates(round: Round)
    {
      round == RIVER || (statsWinningHand && (round == FLOP || round == TURN))
    }

    /** Whether collecting this round reads the first player of the ranking. */
    predicate Credits(round: Round)
    {
      (statsWinningHand && (round == FLOP || round == TURN || round == RIVER))
      || (statsHoleCards && round == RIVER)
    }

    /** Records what a round shows. INITIAL: each player's hole-hand class. FLOP and TURN,
        when winning hands are gathered: every player's best hand, and one win for the
        highest code. RIVER: every player's best hand; when winning hands are gathered, one
        win for the highest code; when hole cards are gathered, every pair of players with
        different codes gives one win to the class of the higher code over the class of the
        lower, every player's class gains an appearance, and the class of one player with
        the highest code gains a win. */
    method Collect(round: Round)
      requires Valid() && table != null
      requires round == INITIAL ==> forall k :: 0 <= k < |players| ==> |players[k].cards| >= 2
      requires Evaluates(round) ==> CanEvaluate(table.community, players) && Distinct(players)
      requires Credits(round) ==> |players| > 0
      modifies this`winFlop, this`winTurn, this`winRiver, this`beat, this`appearance, this`wins
      modifies (if round == INITIAL then players else [])`preflopHand
      modifies (if round == FLOP && Evaluates(round) then players else [])`flopHand
      modifies (if round == TURN && Evaluates(round) then players else [])`turnHand
      modifies (if round == RIVER then players else [])`riverHand
      ensures Valid()
      ensures round == INITIAL ==> forall k :: 0 <= k < |players| ==> players[k].preflopHand == HoleHand(players[k].cards)
      ensures round != INITIAL ==> forall k :: 0 <= k < |players| ==> players[k].preflopHand == old(players[k].preflopHand)
      ensures Evaluates(round) ==> StreetEvaluated(round)
      ensures table == old(table) && players == old(players) && totalGames == old(totalGames)
      ensures table.community == old(table.community)
      ensures forall k :: 0 <= k < |players| ==> players[k].cards == old(players[k].cards)
      ensures round == INITIAL ==> Tallies() == old(Tallies())
      ensures round != INITIAL ==>
        StreetCounted(round, statsWinningHand, statsHoleCards, Standings(round), old(Tallies()), Tallies()) == true
      ensures !(round == FLOP && Evaluates(round)) ==>
        forall k :: 0 <= k < |players| ==> players[k].flopHand == old(players[k].flopHand)
      ensures !(round == TURN && Evaluates(round)) ==>
        forall k :: 0 <= k < |players| ==> players[k].turnHand == old(players[k].turnHand)
    {
      if round == INITIAL {
        CollectHoleHands();
      } else if Evaluates(round) {
        CollectStreet(round);
      }
    }

    /** Collect at FLOP, TURN and RIVER when the street is evaluated: every player's best
        hand is stored, then the counters are updated from the players' standings. */
    method CollectStreet(round: Round)
      requires Valid() && table != null && Evaluates(round) && round != INITIAL
      requires CanEvaluate(table.community, players) && Distinct(players)
      requires Credits(round) ==> |players| > 0
      modifies this`winFlop, this`winTurn, this`winRiver, this`beat, this`appearance, this`wins
      modifies (if round == FLOP then players else [])`flopHand, (if round == TURN then players else [])`turnHand
      modifies (if round == RIVER then players else [])`riverHand
      ensures Valid() && StreetEvaluated(round)
      ensures forall k :: 0 <= k < |players| ==> players[k].preflopHand == old(players[k].preflopHand)
      ensures StreetCounted(round, statsWinningHand, statsHoleCards, Standings(round), old(Tallies()), Tallies()) == true
      ensures table == old(table) && players == old(players) && totalGames == old(totalGames)
      ensures table.community == old(table.community)
      ensures forall k :: 0 <= k < |players| ==> players[k].cards == old(players[k].cards)
      ensures round != FLOP ==> forall k :: 0 <= k < |players| ==> players[k].flopHand == old(players[k].flopHand)
      ensures round != TURN ==> forall k :: 0 <= k < |players| ==> players[k].turnHand == old(players[k].turnHand)
    {
      ghost var t0 := Tallies();
      StoreStreetHands(round);
      assert Tallies() == t0;
      label stored:
      CountRound(round);
    }

    /** The players' stored hands, and so whether they are evaluated, stay as they are while
        the table, its community cards and the players are left as they are. */
    twostate lemma HandsKept(round: Round)
      requires old(table) == table && old(players) == players && table != null
      requires unchanged(table) && unchanged(players)
      ensures forall k :: 0 <= k < |players| ==> players[k].preflopHand == old(players[k].preflopHand)
      ensures StreetEvaluated(round) == old(StreetEvaluated(round))
    {
    }

    /** Stores every player's best hand for the street, from a fresh evaluator. */
    method StoreStreetHands(round: Round)
      requires table != null && (round == FLOP || round == TURN || round == RIVER)
      requires CanEvaluate(table.community, players) && Distinct(players)
      modifies (if round == FLOP then players else [])`flopHand, (if round == TURN then players else [])`turnHand
      modifies (if round == RIVER then players else [])`riverHand
      ensures StreetEvaluated(round)
      ensures forall k :: 0 <= k < |players| ==> players[k].preflopHand == old(players[k].preflopHand)
      ensures forall k :: 0 <= k < |players| ==> 0 <= SortCode(StreetHand(players[k], round)) < SORT_CODE_LIMIT
      ensures table == old(table) && players == old(players) && totalGames == old(totalGames)
      ensures table.community == old(table.community)
      ensures forall k :: 0 <= k < |players| ==> players[k].cards == old(players[k].cards)
      ensures round != FLOP ==> forall k :: 0 <= k < |players| ==> players[k].flopHand == old(players[k].flopHand)
      ensures round != TURN ==> forall k :: 0 <= k < |players| ==> players[k].turnHand == old(players[k].turnHand)
    {
      var he := new Evaluator.HandEvaluator();
      var hands := EvaluateStreet(he, players, table.community, round);
      StoredStreet(round, players, table.community, hands);
    }

    /** Hands the evaluator gave for the community cards and each player's hole cards, once
        stored as the players' hands for the street, make the street evaluated; the code of
        each of them is below the counters' size. */
    lemma StoredStreet(round: Round, ps: seq<Player>, community: seq<Card>, hands: seq<Hand>)
      requires table != null && ps == players && community == table.community
      requires CanEvaluate(community, ps) && |hands| == |ps|
      requires forall k :: 0 <= k < |ps| ==> hands[k] == Evaluation(community + ps[k].cards)
      requires forall k :: 0 <= k < |ps| ==> StreetHand(ps[k], round) == hands[k]
      ensures StreetEvaluated(round)
      ensures forall k :: 0 <= k < |players| ==> 0 <= SortCode(StreetHand(players[k], round)) < SORT_CODE_LIMIT
    {
      forall k | 0 <= k < |ps|
        ensures 0 <= SortCode(hands[k]) < SORT_CODE_LIMIT
      {
        EvaluationSortCode(community + ps[k].cards);
      }
    }

    /** Counts a street whose hands are stored: the counters the players' standings give
        replace the current ones, and the players are left as they are. */
    method CountRound(round: Round)
      requires Valid() && table != null && (round == FLOP || round == TURN || round == RIVER)
      requires Credits(round) ==> |players| > 0
      requires forall k :: 0 <= k < |players| ==> 0 <= SortCode(StreetHand(players[k], round)) < SORT_CODE_LIMIT
      modifies this`winFlop, this`winTurn, this`winRiver, this`beat, this`appearance, this`wins
      ensures Valid()
      ensures StreetCounted(round, statsWinningHand, statsHoleCards, Standings(round), old(Tallies()), Tallies()) == true
      ensures forall k :: 0 <= k < |players| ==> players[k].preflopHand == old(players[k].preflopHand)
      ensures StreetEvaluated(round) == old(StreetEvaluated(round))
      ensures table == old(table) && players == old(players) && totalGames == old(totalGames)
      ensures table.community == old(table.community)
      ensures forall k :: 0 <= k < |players| ==> players[k].cards == old(players[k].cards)
      ensures round != FLOP ==> forall k :: 0 <= k < |players| ==> players[k].flopHand == old(players[k].flopHand)
      ensures round != TURN ==> forall k :: 0 <= k < |players| ==> players[k].turnHand == old(players[k].turnHand)
    {
      label counted:
      TallyRound(round);
      HandsKept@counted(round);
    }

    /** The counters the players' standings give replace the current ones. */
    method TallyRound(round: Round)
      requires Valid() && table != null && (round == FLOP || round == TURN || round == RIVER)
      requires Credits(round) ==> |players| > 0
      requires forall k :: 0 <= k < |players| ==> 0 <= SortCode(StreetHand(players[k], round)) < SORT_CODE_LIMIT
      modifies this`winFlop, this`winTurn, this`winRiver, this`beat, this`appearance, this`wins
      ensures Valid()
      ensures StreetCounted(round, statsWinningHand, statsHoleCards, Standings(round), old(Tallies()), Tallies()) == true
      ensures table == old(table) && players == old(players) && totalGames == old(totalGames)
      ensures table.community == old(table.community)
      ensures forall k :: 0 <= k < |players| ==> players[k].cards == old(players[k].cards)
      ensures round != FLOP ==> forall k :: 0 <= k < |players| ==> players[k].flopHand == old(players[k].flopHand)
      ensures round != TURN ==> forall k :: 0 <= k < |players| ==> players[k].turnHand == old(players[k].turnHand)
    {
      var s := Standings(round);
      StandingsInRange(round);
      var c := CountStreet(round, statsWinningHand, statsHoleCards, s, Tallies());
      SetTallies(c);
      assert Standings(round) == s;
    }

    /** With every code of the street below the counters' size, each standing indexes the
        counters: its code a winning-code counter, its class a class counter. */
    lemma StandingsInRange(round: Round)
      requires IndexBounded(handIndex)
      requires forall k :: 0 <= k < |players| ==> 0 <= SortCode(StreetHand(players[k], round)) < SORT_CODE_LIMIT
      ensures forall k :: 0 <= k < |players| ==>
        0 <= Standings(round)[k].code < SORT_CODE_LIMIT && 0 <= Standings(round)[k].tag < HOLE_HAND_COUNT
    {
    }

    /** Replaces the counters. */
    method SetTallies(c: Counters)
      modifies this`winFlop, this`winTurn, this`winRiver, this`beat, this`appearance, this`wins
      ensures Tallies() == c
      ensures table == old(table) && players == old(players) && totalGames == old(totalGames)
      ensures table != null ==> table.community == old(table.community)
      ensures forall k :: 0 <= k < |players| ==> players[k].cards == old(players[k].cards)
      ensures forall k :: 0 <= k < |players| ==>
        players[k].flopHand == old(players[k].flopHand) && players[k].turnHand == old(players[k].turnHand)
    {
      winFlop, winTurn, winRiver, beat, appearance, wins := c.winFlop, c.winTurn, c.winRiver, c.beat, c.appearance, c.wins;
    }

    /** Collect at INITIAL: each player's hole-hand class. */
    method CollectHoleHands()
      requires table != null
      requires forall k :: 0 <= k < |players| ==> |players[k].cards| >= 2
      modifies players`preflopHand
      ensures forall k :: 0 <= k < |players| ==> players[k].preflopHand == HoleHand(players[k].cards)
      ensures table == old(table) && players == old(players) && totalGames == old(totalGames)
      ensures table.community == old(table.community)
      ensures forall k :: 0 <= k < |players| ==> players[k].cards == old(players[k].cards)
      ensures forall k :: 0 <= k < |players| ==>
        players[k].flopHand == old(players[k].flopHand) && players[k].turnHand == old(players[k].turnHand)
    {
      for i := 0 to |players|
        invariant forall k :: 0 <= k < i ==> players[k].preflopHand == HoleHand(players[k].cards)
      {
        var p := players[i];
        p.preflopHand := HoleHand(p.cards);
      }
    }
  }
}
