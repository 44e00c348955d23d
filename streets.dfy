/** Evaluating the players' best hands for a street and storing them on the players. */
module Streets {
  import opened Cards
  import opened Hands
  import opened Holdem
  import opened Poker
  import opened EvaluatorSpec
  import Evaluator

  /** The hand a player holds for a street. It reads that street's field only. */
  function StreetHand(p: Player, round: Round): Hand
    reads (if round == FLOP || round == TURN || round == RIVER then {} else {p})`preflopHand
    reads (if round == FLOP then {p} else {})`flopHand, (if round == TURN then {p} else {})`turnHand
    reads (if round == RIVER then {p} else {})`riverHand
  {
    if round == FLOP then p.flopHand
    else if round == TURN then p.turnHand
    else if round == RIVER then p.riverHand
    else p.preflopHand
  }

  /** The players' flop hands, in seat order. */
  function FlopHands(ps: seq<Player>): (hs: seq<Hand>)
    reads ps`flopHand
    ensures |hs| == |ps|
  {
    if ps == [] then [] else [ps[0].flopHand] + FlopHands(ps[1..])
  }

  /** The flop hands stay as they are while no player's flop hand changes. */
  twostate lemma FlopHandsKept(ps: seq<Player>)
    requires unchanged(ps`flopHand)
    ensures FlopHands(ps) == old(FlopHands(ps))
  {
  }

  /** A player's entry among the flop hands is that player's flop hand. */
  lemma FlopHandsAt(ps: seq<Player>, k: int)
    requires 0 <= k < |ps|
    ensures FlopHands(ps)[k] == ps[k].flopHand
  {
    if k > 0 {
      FlopHandsAt(ps[1..], k - 1);
    }
  }

  /** The players' turn hands, in seat order. */
  function TurnHands(ps: seq<Player>): (hs: seq<Hand>)
    reads ps`turnHand
    ensures |hs| == |ps|
  {
    if ps == [] then [] else [ps[0].turnHand] + TurnHands(ps[1..])
  }

  /** The turn hands stay as they are while no player's turn hand changes. */
  twostate lemma TurnHandsKept(ps: seq<Player>)
    requires unchanged(ps`turnHand)
    ensures TurnHands(ps) == old(TurnHands(ps))
  {
  }

  /** A player's entry among the turn hands is that player's turn hand. */
  lemma TurnHandsAt(ps: seq<Player>, k: int)
    requires 0 <= k < |ps|
    ensures TurnHands(ps)[k] == ps[k].turnHand
  {
    if k > 0 {
      TurnHandsAt(ps[1..], k - 1);
    }
  }

  /** Community and hole cards the evaluator accepts for every player. */
  predicate CanEvaluate(community: seq<Card>, ps: seq<Player>)
    reads ps`cards
  {
    AllValid(community)
    && forall k :: 0 <= k < |ps| ==> AllValid(ps[k].cards) && |community| + |ps[k].cards| >= 5
  }

  /** No player is listed twice: the players are bound one per seat. */
  predicate Distinct(ps: seq<Player>)
  {
    forall i :: 0 <= i < |ps| ==> ps[i] !in ps[..i]
  }

  /** Evaluates every player's cards with the community cards on one evaluator, reset for
      each player, and stores each hand as the player's hand for the street. */
  method EvaluateStreet(he: Evaluator.HandEvaluator, ps: seq<Player>, community: seq<Card>, round: Round)
    returns (hands: seq<Hand>)
    requires round == FLOP || round == TURN || round == RIVER
    requires he.Shape() && CanEvaluate(community, ps) && Distinct(ps)
    modifies he, he.rankBuckets, he.suitBuckets, he.rankResetLimit, he.suitResetLimit
    modifies (if round == FLOP then ps else [])`flopHand, (if round == TURN then ps else [])`turnHand
    modifies (if round == RIVER then ps else [])`riverHand
    ensures he.Shape() && |hands| == |ps|
    ensures forall k :: 0 <= k < |ps| ==> hands[k] == Evaluation(community + ps[k].cards)
    ensures forall k :: 0 <= k < |ps| ==> StreetHand(ps[k], round) == hands[k]
  {
    hands := [];
    for i := 0 to |ps|
      invariant he.Shape() && |hands| == i
      invariant forall k :: 0 <= k < i ==> hands[k] == Evaluation(community + ps[k].cards)
      invariant forall k :: 0 <= k < i ==> StreetHand(ps[k], round) == hands[k]
    {
      var hand := StoreNext(he, ps, i, community, round, hands);
      hands := hands + [hand];
    }
  }

  /** Evaluates the player in seat `i` and stores the hand, leaving the hands stored on the
      earlier players as they were. */
  method StoreNext(he: Evaluator.HandEvaluator, ps: seq<Player>, i: nat, community: seq<Card>, round: Round, hands: seq<Hand>)
    returns (hand: Hand)
    requires round == FLOP || round == TURN || round == RIVER
    requires he.Shape() && CanEvaluate(community, ps) && Distinct(ps) && i < |ps| && |hands| == i
    requires forall k :: 0 <= k < i ==> hands[k] == Evaluation(community + ps[k].cards)
    requires forall k :: 0 <= k < i ==> StreetHand(ps[k], round) == hands[k]
    modifies he, he.rankBuckets, he.suitBuckets, he.rankResetLimit, he.suitResetLimit
    modifies (if round == FLOP then ps else [])`flopHand, (if round == TURN then ps else [])`turnHand
    modifies (if round == RIVER then ps else [])`riverHand
    ensures he.Shape() && hand == Evaluation(community + ps[i].cards)
    ensures forall k :: 0 <= k <= i ==> (hands + [hand])[k] == Evaluation(community + ps[k].cards)
    ensures forall k :: 0 <= k <= i ==> StreetHand(ps[k], round) == (hands + [hand])[k]
  {
    forall k | 0 <= k < i
      ensures ps[k] != ps[i]
    {
      DistinctAt(ps, k, i);
    }
    hand := EvaluatePlayer(he, community, ps[i], round);
  }

  /** Two seats of distinct players hold different players. */
  lemma DistinctAt(ps: seq<Player>, k: int, i: int)
    requires Distinct(ps) && 0 <= k < i < |ps|
    ensures ps[k] != ps[i]
  {
    assert ps[k] == ps[..i][k];
  }

  /** Evaluates one player's cards on the evaluator, reset to the community cards, and
      stores the hand as the player's hand for the street. */
  method EvaluatePlayer(he: Evaluator.HandEvaluator, community: seq<Card>, p: Player, round: Round) returns (hand: Hand)
    requires round == FLOP || round == TURN || round == RIVER
    requires he.Shape() && AllValid(community) && AllValid(p.cards) && |community| + |p.cards| >= 5
    modifies he, he.rankBuckets, he.suitBuckets, he.rankResetLimit, he.suitResetLimit
    modifies (if round == FLOP then {p} else {})`flopHand, (if round == TURN then {p} else {})`turnHand
    modifies (if round == RIVER then {p} else {})`riverHand
    ensures he.Shape() && hand == Evaluation(community + p.cards)
    ensures StreetHand(p, round) == hand
  {
    hand := EvaluateWith(he, community, p.cards);
    if round == FLOP {
      p.flopHand := hand;
    } else if round == TURN {
      p.turnHand := hand;
    } else {
      p.riverHand := hand;
    }
  }

  /** Resets the evaluator to the community cards and evaluates one player's cards. */
  method EvaluateWith(he: Evaluator.HandEvaluator, community: seq<Card>, hole: seq<Card>) returns (hand: Hand)
    requires he.Shape() && AllValid(community) && AllValid(hole) && |community| + |hole| >= 5
    modifies he, he.rankBuckets, he.suitBuckets, he.rankResetLimit, he.suitResetLimit
    ensures he.Shape() && hand == Evaluation(community + hole)
  {
    he.Reset(community);
    hand := he.Evaluate(hole);
  }
}
