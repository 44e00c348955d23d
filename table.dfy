/** The players and the table of a poker game. */
module Poker {
  import opened Cards
  import opened Hands

  /** A player: hole cards, hands stored by index, a folded flag, and the hands the
      statistics record for each street. */
  class Player {
    var cards: seq<Card>
    var hands: seq<Hand>
    var folded: bool
    var preflopHand: Hand
    var flopHand: Hand
    var turnHand: Hand
    var riverHand: Hand

    constructor ()
      ensures cards == [] && hands == [] && !folded
      ensures preflopHand == flopHand == turnHand == riverHand == EMPTY_HAND
    {
      cards := [];
      hands := [];
      folded := false;
      preflopHand, flopHand, turnHand, riverHand := EMPTY_HAND, EMPTY_HAND, EMPTY_HAND, EMPTY_HAND;
    }

    /** Appends a card to the hole cards. */
    method AddCard(card: Card)
      modifies this`cards
      ensures cards == old(cards) + [card]
    {
      cards := cards + [card];
    }

    /** The hand stored at index i. */
    function HandAt(i: nat): (h: Hand)
      reads this
      requires i < |hands|
      ensures h == hands[i]
    {
      hands[i]
    }

    /** Stores h at index i, first growing the list with empty hands when it is too short;
        the other entries keep their values. */
    method SetHand(i: nat, h: Hand)
      modifies this`hands
      ensures |hands| == if i < |old(hands)| then |old(hands)| else i + 1
      ensures HandAt(i) == h
      ensures forall k :: 0 <= k < |hands| && k != i ==>
        hands[k] == if k < |old(hands)| then old(hands)[k] else EMPTY_HAND
    {
      if |hands| <= i {
        hands := hands + seq(i + 1 - |hands|, _ => EMPTY_HAND);
      }
      hands := hands[i := h];
    }

    method Fold()
      modifies this`folded
      ensures folded
    {
      folded := true;
    }

    /** Readies the player for a new hand: no cards, not folded; stored hands stay. */
    method Reset()
      modifies this`cards, this`folded
      ensures cards == [] && !folded
    {
      cards := [];
      folded := false;
    }
  }

  /** The table: the seated players, the dealer button and the community cards. */
  class Table {
    var players: seq<Player>
    var button: int
    var community: seq<Card>

    constructor ()
      ensures players == [] && community == []
    {
      players := [];
      button := 0;
      community := [];
    }

    method SetPlayers(ps: seq<Player>)
      modifies this`players
      ensures players == ps
    {
      players := ps;
    }

    method SetButton(b: int)
      modifies this`button
      ensures button == b
    {
      button := b;
    }

    /** Appends a card to the community cards. */
    method AddCommunityCard(card: Card)
      modifies this`community
      ensures community == old(community) + [card]
    {
      community := community + [card];
    }

    method ClearCommunityCards()
      modifies this`community
      ensures community == []
    {
      community := [];
    }
  }
}
