/** A game of Hold'em: the seats around the table, the deck, the deal of each street, the
    betting rounds and the statistics collected after each of them. */
module HoldemGame {
  import opened Cards
  import opened Hands
  import opened Holdem
  import opened Poker
  import opened PlayerModels
  import opened Streets
  import opened EvaluatorSpec
  import opened Stats
  import opened Counting
  import opened Tally

  /** The seat `offset` places after `position` around a table of n seats, wrapping. */
  function Rotation(position: int, offset: int, n: int): (seat: int)
    requires n > 0
    ensures 0 <= seat < n
  {
    (position + offset) % n
  }

  /** Going once round the table, either way, lands on the same seat. */
  lemma ShiftBySeats(x: int, n: int, turns: int)
    requires n > 0 && (turns == 1 || turns == -1)
    ensures (x + turns * n) % n == x % n
  {
    var q, r := x / n, x % n;
    assert x + turns * n == (q + turns) * n + r;
    DivModUnique(x + turns * n, n, q + turns, r);
  }

  /** A seat with the same remainder as x is x's remainder, and differs from x by whole
      turns of the table. */
  lemma SeatIsRemainder(seat: int, x: int, n: int)
    requires n > 0 && 0 <= seat < n && seat % n == x % n
    ensures seat == x % n && (seat - x) % n == 0
  {
    DivModUnique(seat, n, 0, seat);
    var q := x / n;
    assert x == q * n + seat;
    DivModUnique(seat - x, n, -q, 0);
  }

  /** What a betting round makes of an action: checking goes on, anything else throws a
      logic error with this message. */
  function ActionOutcome(a: PlayerAction): (r: Result<()>)
    ensures r.Ok? <==> a == CHECK
  {
    match a
    case CHECK => Ok(())
    case FOLD => Err("Unimplemented action: FOLD")
    case RAISE => Err("Unimplemented action: RAISE")
    case RAISE_ALL_IN => Err("Unimplemented action: RAISE_ALL_IN")
    case UNSPECIFIED => Err("Invalid action value: 0")
  }

  /** The message a betting round throws for an action other than CHECK. */
  function ActionMessage(a: PlayerAction): string
  {
    if ActionOutcome(a).Err? then ActionOutcome(a).message else ""
  }

  /** The number of cards a street deals: two per player before the flop, three on the
      flop, one on the turn and on the river. */
  function DealCount(round: Round, players: nat): nat
  {
    if round == INITIAL then 2 * players
    else if round == FLOP then 3
    else if round == TURN || round == RIVER then 1
    else 0
  }

  /** The number of community cards once a street is dealt. */
  function CommunityAfter(round: Round): nat
  {
    if round == FLOP then 3 else if round == TURN then 4 else if round == RIVER then 5 else 0
  }

  /** The street dealt just before this one. */
  function PreviousStreet(round: Round): Round
  {
    if round == RIVER then TURN else if round == TURN then FLOP else INITIAL
  }

  /** Every card of a shuffled deck is a valid card. */
  lemma ShuffledDeckValid(cards: seq<Card>)
    requires multiset(cards) == multiset(NewDeckOrder())
    ensures AllValid(cards) && |cards| == 52
  {
    NewDeckIsComplete();
    forall k | 0 <= k < |cards|
      ensures ValidCard(cards[k])
    {
      assert cards[k] in multiset(NewDeckOrder());
    }
    assert |multiset(cards)| == |cards|;
  }

  /** The hands of a later street are, in seat order, the best hand of the community cards
      that street had, as they came off the deck after every player's two hole cards, and
      each player's own two hole cards. */
  ghost predicate Recorded(hands: seq<Hand>, cards: seq<Card>, round: Round)
  {
    2 * |hands| + CommunityAfter(round) <= |cards|
    && forall k :: 0 <= k < |hands| ==>
      hands[k] == Evaluation(cards[2 * |hands|..2 * |hands| + CommunityAfter(round)] + cards[2 * k..2 * k + 2])
  }

  /** What collecting a later street does to the flop and turn hands: the hands of that
      street, when the statistics evaluate it, are recorded from the deck; the hands of every
      other street are as they were. */
  ghost predicate StreetRecorded(round: Round, evaluates: bool, flop: seq<Hand>, turn: seq<Hand>,
    flop0: seq<Hand>, turn0: seq<Hand>, cards: seq<Card>)
  {
    (if round == FLOP && evaluates then Recorded(flop, cards, FLOP) else flop == flop0)
    && (if round == TURN && evaluates then Recorded(turn, cards, TURN) else turn == turn0)
  }

  /** Collecting the flop, the turn and the river in turn leaves, with the winning-hand
      statistics on, the flop and turn hands recorded from the deck. */
  /** What a whole hand leaves in the players' flop and turn hands: with winning-hand
      statistics on, each is the evaluation of the player's hole cards with the board of
      that street; with them off, both are what they were before the hand. */
  ghost predicate StreetsRecorded(winningHand: bool, flop: seq<Hand>, turn: seq<Hand>,
    flop0: seq<Hand>, turn0: seq<Hand>, cards: seq<Card>)
  {
    if winningHand then Recorded(flop, cards, FLOP) && Recorded(turn, cards, TURN)
    else flop == flop0 && turn == turn0
  }

  lemma StreetsRecordedCompose(winningHand: bool, flop0: seq<Hand>, turn0: seq<Hand>,
    flop1: seq<Hand>, turn1: seq<Hand>, flop2: seq<Hand>, turn2: seq<Hand>,
    flop3: seq<Hand>, turn3: seq<Hand>, cards: seq<Card>)
    requires StreetRecorded(FLOP, winningHand, flop1, turn1, flop0, turn0, cards)
    requires StreetRecorded(TURN, winningHand, flop2, turn2, flop1, turn1, cards)
    requires StreetRecorded(RIVER, true, flop3, turn3, flop2, turn2, cards)
    ensures StreetsRecorded(winningHand, flop3, turn3, flop0, turn0, cards)
  {
  }

  class Game {
    const table: Table
    const players: seq<Player>
    const models: seq<PlayerModel>
    const stats: Statistics
    const deck: Deck
    const playerCount: int

    /** One model per player, the players bound one per seat and the button at a seat. */
    ghost predicate Seated()
      reads this, table`button
    {
      playerCount == |players| == |models| && playerCount > 0 && Distinct(players)
      && 0 <= table.button < playerCount
    }

    /** Seated, with a deck holding the 52 cards. */
    ghost predicate Valid()
      reads this, table, deck
    {
      Seated() && deck.Valid()
    }

    /** Seats the players at the table, puts the button at the seat the random draw chose
        and opens a new deck. */
    constructor (table: Table, players: seq<Player>, models: seq<PlayerModel>, stats: Statistics, button: int)
      requires |players| > 0 && |models| == |players| && Distinct(players)
      requires 0 <= button < |players|
      modifies table
      ensures Valid()
      ensures this.table == table && this.players == players && this.models == models
      ensures this.stats == stats && playerCount == |players|
      ensures table.players == players && table.button == button && table.community == old(table.community)
      ensures fresh(deck) && deck.cards == NewDeckOrder() && deck.next == 0
    {
      this.table := table;
      this.players := players;
      this.models := models;
      this.stats := stats;
      this.playerCount := |players|;
      deck := new Deck();
      new;
      table.SetButton(button);
      table.SetPlayers(players);
    }

    /** Moves a seat by an offset, adding or subtracting the player count until it is a
        seat again. */
    method RotatePosition(position: int, offset: int) returns (seat: int)
      requires playerCount > 0 && position < playerCount
      ensures 0 <= seat < playerCount && (seat - position - offset) % playerCount == 0
      ensures seat == Rotation(position, offset, playerCount)
    {
      seat := position + offset;
      while seat < 0
        invariant seat % playerCount == (position + offset) % playerCount
        decreases -seat
      {
        ShiftBySeats(seat, playerCount, 1);
        seat := seat + playerCount;
      }
      while seat >= playerCount
        invariant seat >= 0 && seat % playerCount == (position + offset) % playerCount
        decreases seat
      {
        ShiftBySeats(seat, playerCount, -1);
        seat := seat - playerCount;
      }
      SeatIsRemainder(seat, position + offset, playerCount);
    }

    /** Clears the community cards, puts the shuffled order in the deck and moves the
        button one seat back. */
    method ResetForNextHand(shuffled: seq<Card>)
      requires Valid() && multiset(shuffled) == multiset(deck.cards)
      modifies table`community, table`button, deck
      ensures Valid()
      ensures table.community == [] && deck.cards == shuffled && deck.next == 0
      ensures table.button == Rotation(old(table.button), -1, playerCount)
    {
      table.ClearCommunityCards();
      deck.Shuffle(shuffled);
      var button := RotatePosition(table.button, -1);
      table.SetButton(button);
    }

    /** Readies every player, the table and the deck for a new hand and tells the
        statistics a game begins. */
    method NewGame(shuffled: seq<Card>)
      requires Valid() && multiset(shuffled) == multiset(deck.cards)
      modifies players`cards, players`folded, table`community, table`button, deck
      modifies stats`table, stats`players, stats`totalGames
      ensures Valid()
      ensures forall k :: 0 <= k < |players| ==> players[k].cards == [] && !players[k].folded
      ensures table.community == [] && deck.cards == shuffled && deck.next == 0
      ensures table.button == Rotation(old(table.button), -1, playerCount)
      ensures stats.table == table && stats.players == players
      ensures stats.totalGames == old(stats.totalGames) + 1
      ensures stats.Tallies() == old(stats.Tallies()) && (old(stats.Valid()) ==> stats.Valid())
      ensures AllValid(deck.cards) && |deck.cards| == 52
      ensures FlopHands(players) == old(FlopHands(players)) && TurnHands(players) == old(TurnHands(players))
    {
      ShuffledDeckValid(shuffled);
      ResetPlayers();
      ResetForNextHand(shuffled);
      stats.NewGame(table, players);
      FlopHandsKept(players);
      TurnHandsKept(players);
    }

    /** Readies every player for a new hand: no cards and not folded. */
    method ResetPlayers()
      modifies players`cards, players`folded
      ensures forall k :: 0 <= k < |players| ==> players[k].cards == [] && !players[k].folded
    {
      for i := 0 to |players|
        invariant forall k :: 0 <= k < i ==> players[k].cards == [] && !players[k].folded
      {
        players[i].Reset();
      }
    }

    /** Deals a street from the deck: before the flop two consecutive cards to each player
        in seat order, then three community cards on the flop and one on the turn and on
        the river. */
    method Deal(round: Round)
      requires Seated() && round != Round.UNSPECIFIED
      requires 0 <= deck.next && deck.next + DealCount(round, |players|) <= |deck.cards|
      modifies (if round == INITIAL then players else [])`cards, table`community, deck`next
      ensures Seated() && deck.next == old(deck.next) + DealCount(round, |players|)
      ensures round == INITIAL ==> table.community == old(table.community)
      ensures round == INITIAL ==> forall k :: 0 <= k < |players| ==>
        players[k].cards == old(players[k].cards) + deck.cards[old(deck.next) + 2 * k..old(deck.next) + 2 * k + 2]
      ensures round != INITIAL ==>
        table.community == old(table.community) + deck.cards[old(deck.next)..deck.next]
    {
      if round == INITIAL {
        for i := 0 to |players|
          invariant Seated() && deck.next == old(deck.next) + 2 * i && table.community == old(table.community)
          invariant forall k :: 0 <= k < i ==>
            players[k].cards == old(players[k].cards) + deck.cards[old(deck.next) + 2 * k..old(deck.next) + 2 * k + 2]
          invariant forall k :: i <= k < |players| ==> players[k].cards == old(players[k].cards)
        {
          DealTwo(i);
        }
      } else {
        var n := DealCount(round, |players|);
        for i := 0 to n
          invariant Seated() && deck.next == old(deck.next) + i
          invariant table.community == old(table.community) + deck.cards[old(deck.next)..deck.next]
        {
          var card := deck.DealCard();
          table.AddCommunityCard(card);
        }
      }
    }

    /** Deals the next two cards of the deck to the player in seat i. */
    method DealTwo(i: int)
      requires Seated() && 0 <= i < |players| && 0 <= deck.next && deck.next + 2 <= |deck.cards|
      modifies {players[i]}`cards, deck`next
      ensures Seated() && deck.next == old(deck.next) + 2
      ensures players[i].cards == old(players[i].cards) + deck.cards[old(deck.next)..deck.next]
    {
      var c0 := deck.DealCard();
      players[i].AddCard(c0);
      var c1 := deck.DealCard();
      players[i].AddCard(c1);
    }

    /** Asks each player's model to act, as many times as there are players: first the seat
        three before the button before the flop and one before it after, then, every time,
        the seat one before the button. Any action but CHECK throws. The result lists the
        seats asked. */
    method BettingRound(round: Round) returns (r: Result<seq<int>>)
      requires Seated()
      ensures r.Ok? && |r.value| == playerCount
      ensures r.value[0] == Rotation(table.button, if round == INITIAL then -3 else -1, playerCount)
      ensures forall k :: 1 <= k < playerCount ==> r.value[k] == Rotation(table.button, -1, playerCount)
    {
      var startingOffset := if round == INITIAL then -3 else -1;
      var nextToAct := RotatePosition(table.button, startingOffset);
      var asked: seq<int> := [];
      var thrown := false;
      var message := "";
      var remaining := |players|;
      while remaining > 0 && !thrown
        invariant 0 <= remaining <= |players| && |asked| == |players| - remaining && !thrown
        invariant 0 <= nextToAct < playerCount
        invariant nextToAct == Rotation(table.button, if asked == [] then startingOffset else -1, playerCount)
        invariant asked != [] ==> asked[0] == Rotation(table.button, startingOffset, playerCount)
        invariant forall k :: 1 <= k < |asked| ==> asked[k] == Rotation(table.button, -1, playerCount)
      {
        var action := Act(models[nextToAct], table, round, nextToAct, players[nextToAct]);
        asked := asked + [nextToAct];
        thrown := ActionOutcome(action).Err?;
        message := ActionMessage(action);
        nextToAct := RotatePosition(table.button, -1);
        remaining := remaining - 1;
      }
      r := if thrown then Err(message) else Ok(asked);
    }

    /** The cards dealt so far, through the given street, come off the deck in order: two
        to each player in seat order, then the community cards. */
    ghost predicate DealtThrough(round: Round)
      reads this, table`community, deck, players`cards
    {
      HolesDealt() && CommunityDealt(round)
    }

    ghost predicate HolesDealt()
      reads this, deck`cards, players`cards
    {
      2 * |players| <= |deck.cards| && forall k :: 0 <= k < |players| ==> players[k].cards == deck.cards[2 * k..2 * k + 2]
    }

    ghost predicate CommunityDealt(round: Round)
      reads this, table`community, deck
    {
      deck.next == 2 * |players| + CommunityAfter(round) <= |deck.cards|
      && table.community == deck.cards[2 * |players|..deck.next]
    }

    /** The statistics follow this game's table and players. */
    ghost predicate Bound()
      reads this, table`button, deck`cards, stats`table, stats`players
    {
      Seated() && stats.table == table && stats.players == players
      && AllValid(deck.cards) && |deck.cards| == 52 && 2 * |players| + 5 <= 52
    }

    /** The first street: the hole cards are dealt, the players are asked to act and the
        statistics record each player's hole-hand class. */
    method StreetInitial()
      requires Bound() && stats.Valid() && deck.next == 0 && table.community == []
      requires forall k :: 0 <= k < |players| ==> players[k].cards == []
      modifies players`cards, table`community, deck`next
      modifies stats`winFlop, stats`winTurn, stats`winRiver, stats`beat, stats`appearance, stats`wins
      modifies players`preflopHand
      ensures Bound() && stats.Valid() && DealtThrough(INITIAL)
      ensures PreflopRecorded() && stats.Tallies() == old(stats.Tallies())
      ensures deck.cards == old(deck.cards) && stats.totalGames == old(stats.totalGames)
      ensures table.button == old(table.button)
    {
      DealHoles();
      CollectHoles();
    }

    /** Deals every player's hole cards off the top of the deck and asks the players to act. */
    method DealHoles()
      requires Bound() && stats.Valid() && deck.next == 0 && table.community == []
      requires forall k :: 0 <= k < |players| ==> players[k].cards == []
      modifies players`cards, table`community, deck`next
      ensures Bound() && stats.Valid() && DealtThrough(INITIAL) && stats.Tallies() == old(stats.Tallies())
      ensures deck.cards == old(deck.cards) && stats.totalGames == old(stats.totalGames)
    {
      Deal(INITIAL);
      var bet := BettingRound(INITIAL);
      assert bet.Ok?;
    }

    /** The statistics record each player's dealt hole cards as a hole-hand class. */
    method CollectHoles()
      requires Bound() && stats.Valid() && DealtThrough(INITIAL)
      modifies stats`winFlop, stats`winTurn, stats`winRiver, stats`beat, stats`appearance, stats`wins
      modifies players`preflopHand
      ensures stats.Valid() && PreflopRecorded() && stats.Tallies() == old(stats.Tallies())
      ensures stats.table == old(stats.table) && stats.players == old(stats.players)
      ensures stats.totalGames == old(stats.totalGames) && table.community == old(table.community)
      ensures forall k :: 0 <= k < |players| ==> players[k].cards == old(players[k].cards)
    {
      stats.Collect(INITIAL);
    }

    /** A later street: its community cards are dealt, the players are asked to act and the
        statistics collect the street. */
    method Street(round: Round) returns (ghost standings: seq<Standing>)
      requires round == FLOP || round == TURN || round == RIVER
      requires Bound() && stats.Valid() && HolesDealt() && CommunityDealt(PreviousStreet(round))
      requires PreflopRecorded()
      modifies table`community, deck`next
      modifies stats`winFlop, stats`winTurn, stats`winRiver, stats`beat, stats`appearance, stats`wins
      modifies (if round == FLOP then players else [])`flopHand, (if round == TURN then players else [])`turnHand
      modifies (if round == RIVER then players else [])`riverHand
      ensures Bound() && HolesDealt() && CommunityDealt(round) && PreflopRecorded()
      ensures deck.cards == old(deck.cards) && stats.totalGames == old(stats.totalGames)
      ensures table.button == old(table.button)
      ensures stats.Valid() && standings == stats.Standings(round)
      ensures StreetCounted(round, stats.statsWinningHand, stats.statsHoleCards, standings,
        old(stats.Tallies()), stats.Tallies()) == true
      ensures round == RIVER ==> RiverEvaluated()
      ensures StreetRecorded(round, stats.Evaluates(round), FlopHands(players), TurnHands(players),
        old(FlopHands(players)), old(TurnHands(players)), deck.cards) == true
      ensures round != FLOP ==> stats.Standings(FLOP) == old(stats.Standings(FLOP))
      ensures round != TURN ==> stats.Standings(TURN) == old(stats.Standings(TURN))
    {
      DealStreet(round);
      FlopHandsKept(players);
      TurnHandsKept(players);
      standings := CollectDealt(round);
      if round != FLOP {
        stats.StandingsKept(FLOP);
      }
      if round != TURN {
        stats.StandingsKept(TURN);
      }
    }

    /** The statistics collect a dealt street; what has been dealt stays as it is. */
    method CollectDealt(round: Round) returns (ghost standings: seq<Standing>)
      requires round == FLOP || round == TURN || round == RIVER
      requires Bound() && HolesDealt() && CommunityDealt(round) && PreflopRecorded()
      requires stats.Valid() && CanEvaluate(table.community, players)
      modifies stats`winFlop, stats`winTurn, stats`winRiver, stats`beat, stats`appearance, stats`wins
      modifies (if round == FLOP then players else [])`flopHand, (if round == TURN then players else [])`turnHand
      modifies (if round == RIVER then players else [])`riverHand
      ensures Bound() && HolesDealt() && CommunityDealt(round) && PreflopRecorded()
      ensures deck.cards == old(deck.cards) && stats.totalGames == old(stats.totalGames)
      ensures stats.Valid() && standings == stats.Standings(round)
      ensures StreetCounted(round, stats.statsWinningHand, stats.statsHoleCards, standings,
        old(stats.Tallies()), stats.Tallies()) == true
      ensures round == RIVER ==> RiverEvaluated()
      ensures forall k :: 0 <= k < |players| ==> players[k].preflopHand == old(players[k].preflopHand)
      ensures round != FLOP ==> forall k :: 0 <= k < |players| ==> players[k].flopHand == old(players[k].flopHand)
      ensures round != TURN ==> forall k :: 0 <= k < |players| ==> players[k].turnHand == old(players[k].turnHand)
      ensures StreetRecorded(round, stats.Evaluates(round), FlopHands(players), TurnHands(players),
        old(FlopHands(players)), old(TurnHands(players)), deck.cards) == true
    {
      standings := CollectStatistics(round);
      if round != RIVER && stats.Evaluates(round) {
        RecordedFromStatistics(round);
      }
    }

    /** Hands the statistics evaluated from the community cards of a dealt street are the
        hands of the cards that street dealt off the deck. */
    lemma RecordedFromStatistics(round: Round)
      requires round == FLOP || round == TURN
      requires Bound() && HolesDealt() && CommunityDealt(round) && stats.StreetEvaluated(round)
      ensures round == FLOP ==> Recorded(FlopHands(players), deck.cards, FLOP)
      ensures round == TURN ==> Recorded(TurnHands(players), deck.cards, TURN)
    {
      var hands := if round == FLOP then FlopHands(players) else TurnHands(players);
      assert |hands| == |players|;
      var community := deck.cards[2 * |hands|..2 * |hands| + CommunityAfter(round)];
      assert table.community == community;
      forall k | 0 <= k < |hands|
        ensures hands[k] == Evaluation(community + deck.cards[2 * k..2 * k + 2])
      {
        assert players[k].cards == deck.cards[2 * k..2 * k + 2];
        assert StreetHand(stats.players[k], round) == Evaluation(stats.table.community + stats.players[k].cards);
        if round == FLOP {
          FlopHandsAt(players, k);
        } else {
          TurnHandsAt(players, k);
        }
      }
      assert Recorded(hands, deck.cards, round);
    }

    /** The statistics collect a dealt street; the cards, the hole-hand classes and the
        statistics' table and players stay as they are. */
    method CollectStatistics(round: Round) returns (ghost standings: seq<Standing>)
      requires round == FLOP || round == TURN || round == RIVER
      requires Bound() && stats.Valid() && CanEvaluate(table.community, players)
      modifies stats`winFlop, stats`winTurn, stats`winRiver, stats`beat, stats`appearance, stats`wins
      modifies (if round == FLOP then players else [])`flopHand, (if round == TURN then players else [])`turnHand
      modifies (if round == RIVER then players else [])`riverHand
      ensures stats.table == old(stats.table) && stats.players == old(stats.players)
      ensures stats.totalGames == old(stats.totalGames) && table.community == old(table.community)
      ensures forall k :: 0 <= k < |players| ==>
        players[k].cards == old(players[k].cards) && players[k].preflopHand == old(players[k].preflopHand)
      ensures stats.Valid() && standings == stats.Standings(round)
      ensures StreetCounted(round, stats.statsWinningHand, stats.statsHoleCards, standings,
        old(stats.Tallies()), stats.Tallies()) == true
      ensures round == RIVER ==> RiverEvaluated()
      ensures stats.Evaluates(round) ==> stats.StreetEvaluated(round)
      ensures round != FLOP ==> forall k :: 0 <= k < |players| ==> players[k].flopHand == old(players[k].flopHand)
      ensures round != TURN ==> forall k :: 0 <= k < |players| ==> players[k].turnHand == old(players[k].turnHand)
      ensures !(round == FLOP && stats.Evaluates(round)) ==> FlopHands(players) == old(FlopHands(players))
      ensures !(round == TURN && stats.Evaluates(round)) ==> TurnHands(players) == old(TurnHands(players))
    {
      stats.Collect(round);
      standings := stats.Standings(round);
      if round == RIVER {
        RiverFromStatistics();
      }
      if !(round == FLOP && stats.Evaluates(round)) {
        FlopHandsKept(players);
      }
      if !(round == TURN && stats.Evaluates(round)) {
        TurnHandsKept(players);
      }
    }

    /** The statistics' river hands are the players' river hands. */
    lemma RiverFromStatistics()
      requires stats.table == table && stats.players == players && stats.StreetEvaluated(RIVER)
      ensures RiverEvaluated()
    {
    }

    /** Deals a later street's community cards, which follow the cards already dealt, and
        asks the players to act; every player then has cards to evaluate. */
    method DealStreet(round: Round)
      requires round == FLOP || round == TURN || round == RIVER
      requires Bound() && HolesDealt() && CommunityDealt(PreviousStreet(round)) && PreflopRecorded()
      modifies table`community, deck`next
      ensures Bound() && HolesDealt() && CommunityDealt(round) && PreflopRecorded()
      ensures CanEvaluate(table.community, players)
      ensures deck.cards == old(deck.cards) && stats.totalGames == old(stats.totalGames)
      ensures table.button == old(table.button)
      ensures forall k :: 0 <= k < |players| ==> players[k].preflopHand == old(players[k].preflopHand)
      ensures round != FLOP ==> forall k :: 0 <= k < |players| ==> players[k].flopHand == old(players[k].flopHand)
      ensures round != TURN ==> forall k :: 0 <= k < |players| ==> players[k].turnHand == old(players[k].turnHand)
    {
      ghost var start := 2 * |players|;
      ghost var before := deck.next;
      Deal(round);
      assert deck.cards[start..before] + deck.cards[before..deck.next] == deck.cards[start..deck.next];
      var bet := BettingRound(round);
      assert bet.Ok?;
      DealtCanEvaluate(round);
    }

    /** Once the flop is dealt, every player's cards and the community cards are valid and
        make at least five cards. */
    lemma DealtCanEvaluate(round: Round)
      requires round == FLOP || round == TURN || round == RIVER
      requires Bound() && DealtThrough(round)
      ensures CanEvaluate(table.community, players)
    {
      forall k | 0 <= k < |players|
        ensures AllValid(players[k].cards)
      {
        assert players[k].cards == deck.cards[2 * k..2 * k + 2];
      }
    }

    /** Each player's hole-hand class is the class of their hole cards. */
    ghost predicate PreflopRecorded()
      reads this, players`cards, players`preflopHand
    {
      forall k :: 0 <= k < |players| ==>
        |players[k].cards| >= 2 && players[k].preflopHand == HoleHand(players[k].cards)
    }

    /** Every player's river hand is the best hand of the community cards and their hole
        cards. */
    ghost predicate RiverEvaluated()
      reads this, table`community, players`cards, players`riverHand
    {
      forall k :: 0 <= k < |players| ==>
        players[k].riverHand == Evaluation(table.community + players[k].cards)
    }

    /** One game: a new hand with the shuffled deck, then each street dealt, bet and
        collected in turn. The hole cards and the five community cards come off the deck in
        order, each player's hole-hand class and river hand are recorded, and the game is
        counted. */
    method Play(shuffled: seq<Card>) returns (ghost flop: seq<Standing>, ghost turn: seq<Standing>, ghost river: seq<Standing>)
      requires Valid() && stats.Valid() && multiset(shuffled) == multiset(deck.cards)
      requires 2 * playerCount + 5 <= 52
      modifies players, table, deck, stats
      ensures Valid() && Bound() && stats.Valid() && stats.totalGames == old(stats.totalGames) + 1
      ensures deck.cards == shuffled && deck.next == 2 * playerCount + 5
      ensures DealtThrough(RIVER)
      ensures PreflopRecorded() && RiverEvaluated()
      ensures table.button == Rotation(old(table.button), -1, playerCount)
      ensures StreetsRecorded(stats.statsWinningHand, FlopHands(players), TurnHands(players),
        old(FlopHands(players)), old(TurnHands(players)), deck.cards) == true
      ensures forall k :: 0 <= k < |players| ==> !players[k].folded
      ensures flop == stats.Standings(FLOP) && turn == stats.Standings(TURN) && river == stats.Standings(RIVER)
      ensures GameCounted(stats.statsWinningHand, stats.statsHoleCards, flop, turn, river,
        old(stats.Tallies()), stats.Tallies()) == true
    {
      NewGame(shuffled);
      flop, turn, river := PlayStreets();
    }

    /** Deals, bets and collects the four streets of a hand, from a full undealt deck. */
    method PlayStreets() returns (ghost flop: seq<Standing>, ghost turn: seq<Standing>, ghost river: seq<Standing>)
      requires Bound() && stats.Valid() && deck.next == 0 && table.community == []
      requires forall k :: 0 <= k < |players| ==> players[k].cards == []
      modifies players`cards, table`community, deck`next
      modifies stats`winFlop, stats`winTurn, stats`winRiver, stats`beat, stats`appearance, stats`wins
      modifies players`preflopHand, players`flopHand, players`turnHand, players`riverHand
      ensures Bound() && stats.Valid() && DealtThrough(RIVER) && PreflopRecorded() && RiverEvaluated()
      ensures old(deck.Valid()) ==> deck.Valid()
      ensures table.button == old(table.button)
      ensures StreetsRecorded(stats.statsWinningHand, FlopHands(players), TurnHands(players),
        old(FlopHands(players)), old(TurnHands(players)), deck.cards) == true
      ensures deck.cards == old(deck.cards) && stats.totalGames == old(stats.totalGames)
      ensures deck.next == 2 * playerCount + 5
      ensures flop == stats.Standings(FLOP) && turn == stats.Standings(TURN) && river == stats.Standings(RIVER)
      ensures GameCounted(stats.statsWinningHand, stats.statsHoleCards, flop, turn, river,
        old(stats.Tallies()), stats.Tallies()) == true
    {
      StreetInitial();
      FlopHandsKept(players);
      TurnHandsKept(players);
      ghost var c0, f0, t0 := stats.Tallies(), FlopHands(players), TurnHands(players);
      flop := Street(FLOP);
      ghost var c1, f1, t1 := stats.Tallies(), FlopHands(players), TurnHands(players);
      turn := Street(TURN);
      ghost var c2, f2, t2 := stats.Tallies(), FlopHands(players), TurnHands(players);
      river := Street(RIVER);
      StreetsCompose(stats.statsWinningHand, stats.statsHoleCards, flop, turn, river, c0, c1, c2, stats.Tallies());
      StreetsRecordedCompose(stats.statsWinningHand, f0, t0, f1, t1, f2, t2, FlopHands(players), TurnHands(players), deck.cards);
    }
  }
}
