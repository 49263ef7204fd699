/**
 * The Texas Hold'em table as far as it is written: seating players with
 * two cards each, and the start of the first round with its blinds.
 * Betting rounds and the showdown are not written in the source.
 */
module TexasHoldemGame {
  import opened Wrappers
  import opened Cards
  import Shuffling

  type UserId = nat

  datatype Player = Player(user: UserId, first: Card, second: Card, currentBet: nat, folded: bool, playedRound: bool)

  /** The most players a table seats. */
  const MaxSeats: nat := 10

  /** Seat i is the first one held by `user`. */
  predicate FirstSeat(ps: seq<Player>, user: UserId, i: int)
  {
    0 <= i < |ps| && ps[i].user == user && forall j :: 0 <= j < i ==> ps[j].user != user
  }

  /** The cards `get_hand` reports for the first seat of `user`, or None when the user has no seat. */
  function HandOf(ps: seq<Player>, user: UserId): (r: Option<seq<Card>>)
    ensures r.None? <==> forall i :: 0 <= i < |ps| ==> ps[i].user != user
    ensures r.Some? ==> exists i :: FirstSeat(ps, user, i) && r.value == [ps[i].first, ps[i].second]
  {
    if |ps| == 0 then None
    else if ps[0].user == user then
      assert FirstSeat(ps, user, 0);
      Some([ps[0].first, ps[0].second])
    else
      var r := HandOf(ps[1..], user);
      if r.Some? then
        var i :| FirstSeat(ps[1..], user, i) && r.value == [ps[1..][i].first, ps[1..][i].second];
        assert FirstSeat(ps, user, i + 1);
        r
      else
        assert forall i :: 0 < i < |ps| ==> ps[i] == ps[1..][i - 1];
        r
  }

  class TexasHoldem {
    const buyIn: nat
    var players: seq<Player>
    var communityCards: seq<Card>
    const deck: Deck
    var currentBet: nat
    var round: nat

    /** `TexasHoldem::new`: two shuffled packs without jokers, nobody seated, round 0. */
    constructor (buyIn: nat, draws: seq<nat>)
      requires Shuffling.ValidDraws(104, draws)
      ensures this.buyIn == buyIn && players == [] && communityCards == [] && currentBet == 0 && round == 0
      ensures fresh(deck)
      ensures |deck.cards| == 104
      ensures forall c :: multiset(deck.cards)[c] == Copies(2, false, c)
      ensures forall i :: 0 <= i < |deck.cards| ==> deck.cards[i].cardType != Joker
    {
      var d := ShuffledShoe(2, draws);
      this.buyIn := buyIn;
      players := [];
      communityCards := [];
      deck := d;
      currentBet := 0;
      round := 0;
    }

    /** `add_player`: a new seat holding the next two cards off the deck, which the source unwraps. */
    method AddPlayer(user: UserId)
      requires |deck.cards| >= 2
      modifies this, deck
      ensures var n := |old(deck.cards)|;
        players == old(players) + [Player(user, old(deck.cards)[n - 1], old(deck.cards)[n - 2], 0, false, false)] &&
        deck.cards == old(deck.cards)[..n - 2]
      ensures multiset(old(deck.cards)) == multiset(deck.cards) + multiset{players[|players| - 1].first, players[|players| - 1].second}
      ensures round == old(round) && currentBet == old(currentBet) && communityCards == old(communityCards)
    {
      var c1 := deck.Deal();
      var c2 := deck.Deal();
      players := players + [Player(user, c1, c2, 0, false, false)];
    }

    /**
     * `start`: the seats are shuffled with `draws`, the first pays the small
     * blind and the second the big blind, a fiftieth of the buy-in.  The
     * source unwraps both seats.  `shuffled` is the seating before the blinds.
     */
    method Start(draws: seq<nat>) returns (ghost shuffled: seq<Player>)
      requires |players| >= 2 && Shuffling.ValidDraws(|players|, draws)
      modifies this
      ensures round == 1 && communityCards == [] && currentBet == buyIn / 50
      ensures |shuffled| == |old(players)| && multiset(shuffled) == multiset(old(players))
      ensures players == shuffled[0 := shuffled[0].(currentBet := (buyIn / 50) / 2)][1 := shuffled[1].(currentBet := buyIn / 50)]
      ensures players[0].currentBet == (buyIn / 50) / 2 && players[1].currentBet == buyIn / 50
    {
      round := 1;
      communityCards := [];
      players := Shuffling.FisherYates(players, draws);
      shuffled := players;
      var big := buyIn / 50;
      var small := big / 2;
      players := players[0 := players[0].(currentBet := small)];
      players := players[1 := players[1].(currentBet := big)];
      currentBet := big;
    }

    /** `can_join`: fewer than ten seats taken and the first round not begun. */
    predicate CanJoin()
      reads this
    {
      |players| < MaxSeats && round == 0
    }

    /** `can_start`: at least two players are seated. */
    predicate CanStart()
      reads this
    {
      |players| >= 2
    }

    /** `get_hand` on this table. */
    function GetHand(user: UserId): (r: Option<seq<Card>>)
      reads this
      ensures r.Some? ==> |r.value| == 2
      ensures r.None? <==> forall i :: 0 <= i < |players| ==> players[i].user != user
    {
      HandOf(players, user)
    }
  }
}
