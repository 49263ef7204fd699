/**
 * A blackjack session against the dealer ("George"): the player's hands
 * (up to four after splits), the dealer's hand, a shuffled six-pack shoe,
 * the insurance phase and the message handler that drives the session.
 */
module Blackjack {
  import opened Wrappers
  import opened Cards
  import opened BlackjackRules
  import opened UserFiles
  import Shuffling
  import Text
  import Config

  /** The most hands a player can hold after splitting. */
  const MaxHands: nat := 4
  /** Packs in the shoe. */
  const ShoePacks: nat := 6

  function Reversed(s: seq<Card>): (r: seq<Card>)
    ensures |r| == |s|
  {
    if s == [] then [] else Reversed(s[1..]) + [s[0]]
  }

  /** The shoe `after` is the shoe `before` with at most `most` cards taken off its top. */
  predicate DrawnFromTop(before: seq<Card>, after: seq<Card>, most: nat)
  {
    |after| <= |before| <= |after| + most && after == before[..|after|]
  }

  /** Two runs of draws are one run of at most both counts. */
  lemma DrawnFromTopTrans(a: seq<Card>, b: seq<Card>, c: seq<Card>, i: nat, j: nat)
    requires DrawnFromTop(a, b, i) && DrawnFromTop(b, c, j)
    ensures DrawnFromTop(a, c, i + j)
  {
    assert a[..|b|][..|c|] == a[..|c|];
  }

  /** The shoe after `i` messages, each taking at most 19 cards off the top of the dealt shoe. */
  lemma {:induction false} ShoeAfterMessages(shoes: seq<seq<Card>>, i: nat)
    requires i < |shoes| && |shoes[0]| == ShoePacks * 52 - 4
    requires forall k :: 0 <= k < |shoes| - 1 ==> DrawnFromTop(shoes[k], shoes[k + 1], 19)
    ensures |shoes[i]| + 19 * i >= ShoePacks * 52 - 4
    ensures |shoes[i]| <= |shoes[0]| && shoes[i] == shoes[0][..|shoes[i]|]
  {
    if i > 0 {
      ShoeAfterMessages(shoes, i - 1);
      assert DrawnFromTop(shoes[i - 1], shoes[i], 19);
      assert shoes[0][..|shoes[i - 1]|][..|shoes[i]|] == shoes[0][..|shoes[i]|];
    }
  }

  /**
   * A session starts from the shoe less the four dealt cards, and a message
   * takes at most 19 cards: through its first fifteen messages the shoe
   * still holds the 19 cards a message may need.
   */
  lemma FifteenMessagesFit(shoes: seq<seq<Card>>)
    requires |shoes| >= 1 && |shoes[0]| == ShoePacks * 52 - 4
    requires forall k :: 0 <= k < |shoes| - 1 ==> DrawnFromTop(shoes[k], shoes[k + 1], 19)
    ensures forall i :: 0 <= i < |shoes| && i <= 15 ==> |shoes[i]| >= 19
  {
    forall i | 0 <= i < |shoes| && i <= 15
      ensures |shoes[i]| >= 19
    {
      ShoeAfterMessages(shoes, i);
    }
  }

  predicate NoJokers(s: seq<Card>)
  {
    forall i :: 0 <= i < |s| ==> s[i].cardType != Joker
  }

  class BlackjackPlayer {
    var hands: seq<Hand>
    var bet: nat
    var playingHand: nat

    predicate Valid()
      reads this
    {
      playingHand < |hands| <= MaxHands
    }

    constructor (bet: nat)
      ensures Valid()
      ensures hands == [[]] && this.bet == bet && playingHand == 0
    {
      hands := [[]];
      this.bet := bet;
      playingHand := 0;
    }

    function PlayingHand(): Hand
      reads this
      requires Valid()
    {
      hands[playingHand]
    }

    /** The source indexes the first two cards, so the playing hand must hold two. */
    function CanSplit(): bool
      reads this
      requires Valid() && |PlayingHand()| >= 2
    {
      CanSplitHand(PlayingHand(), |hands|)
    }

    /** The playing hand gives its last card to a new hand at the end. */
    method Split()
      requires Valid() && |hands| < MaxHands && |PlayingHand()| >= 1
      modifies this
      ensures Valid() && bet == old(bet) && playingHand == old(playingHand)
      ensures hands == old(hands)[playingHand := old(PlayingHand())[..|old(PlayingHand())| - 1]]
                       + [[old(PlayingHand())[|old(PlayingHand())| - 1]]]
    {
      var h := hands[playingHand];
      var second := h[|h| - 1];
      hands := hands[playingHand := h[..|h| - 1]] + [[second]];
    }

    method DoubleDown(amt: nat)
      modifies this
      ensures bet == old(bet) + amt && hands == old(hands) && playingHand == old(playingHand)
    {
      bet := bet + amt;
    }

    method Hit(c: Card)
      requires Valid()
      modifies this
      ensures Valid() && bet == old(bet) && playingHand == old(playingHand)
      ensures hands == old(hands)[playingHand := old(PlayingHand()) + [c]]
    {
      hands := hands[playingHand := hands[playingHand] + [c]];
    }

    /** Moves to the next hand if there is one. */
    method NextHand() returns (worked: bool)
      requires Valid()
      modifies this
      ensures Valid() && hands == old(hands) && bet == old(bet)
      ensures worked <==> old(playingHand) < |hands| - 1
      ensures playingHand == if worked then old(playingHand) + 1 else old(playingHand)
    {
      if playingHand < |hands| - 1 {
        playingHand := playingHand + 1;
        worked := true;
      } else {
        worked := false;
      }
    }
  }

  /** What a message to the session answers. */
  datatype Reply =
    | Panicked
    | InsuranceUnaffordable | InsurancePush | InsuranceDealerBlackjack | InsuranceLost
    | DealerBlackjack | GameBegun | InsuranceNotUnderstood
    | HitTaken | Settled(result: HandResult)
    | SplitUnaffordable | SplitDone
    | DealerBlackjackForgiven
    | DoubleNotANumber | DoubleAmountRejected | DoubleUnaffordable
    | NotUnderstood

  class BlackJack {
    const player: BlackjackPlayer
    var dealer: Hand
    const deck: Deck
    var offeredInsurance: bool
    var playerBlackjack: bool
    var turn: nat
    const originalBet: nat

    predicate Valid()
      reads this, player, deck
    {
      player.Valid() && NoJokers(deck.cards)
    }

    /** A dealt session: every hand holds a card and the playing hand at least two. */
    predicate InPlay()
      reads this, player, deck
    {
      Valid() &&
      (forall i :: 0 <= i < |player.hands| ==> |player.hands[i]| >= 1) &&
      |player.PlayingHand()| >= 2
    }

    /** `BlackJack::new`: a shuffled six-pack shoe without jokers and an empty table. */
    constructor (bet: nat, draws: seq<nat>)
      requires Shuffling.ValidDraws(ShoePacks * 52, draws)
      ensures Valid() && fresh(player) && fresh(deck)
      ensures |deck.cards| == ShoePacks * 52
      ensures forall c :: multiset(deck.cards)[c] == Copies(ShoePacks, false, c)
      ensures player.hands == [[]] && player.bet == bet && player.playingHand == 0
      ensures dealer == [] && !offeredInsurance && !playerBlackjack && turn == 0
      ensures originalBet == bet
    {
      var d := ShuffledShoe(ShoePacks, draws);
      player := new BlackjackPlayer(bet);
      dealer := [];
      deck := d;
      offeredInsurance := false;
      playerBlackjack := false;
      turn := 0;
      originalBet := bet;
    }

    /** Takes the top card of the shoe; the shoe keeps having no jokers. */
    method DrawCard() returns (c: Card)
      requires Valid() && |deck.cards| >= 1
      modifies deck
      ensures Valid()
      ensures c == old(deck.cards)[|old(deck.cards)| - 1] && c.cardType != Joker
      ensures deck.cards == old(deck.cards)[..|old(deck.cards)| - 1]
    {
      c := deck.Deal();
    }

    /** `deal`: player, dealer, player, dealer; then the insurance offer and the natural check. */
    method Deal()
      requires Valid() && |deck.cards| >= 4
      modifies this, player, deck
      ensures Valid()
      ensures var n := |old(deck.cards)|;
        deck.cards == old(deck.cards)[..n - 4] &&
        player.hands == old(player.hands)[0 := old(player.hands)[0] + [old(deck.cards)[n - 1], old(deck.cards)[n - 3]]] &&
        dealer == old(dealer) + [old(deck.cards)[n - 2], old(deck.cards)[n - 4]]
      ensures player.bet == old(player.bet) && player.playingHand == old(player.playingHand) && turn == old(turn)
      ensures offeredInsurance <==> dealer[0].cardType == Ace || IsTenValue(dealer[0])
      ensures playerBlackjack <==> IsBlackjack(player.hands[0])
    {
      ghost var shoe := deck.cards;
      ghost var n := |shoe|;
      var first := player.hands[0];
      var c1 := DrawCard();
      player.hands := player.hands[0 := first + [c1]];
      var c2 := DrawCard();
      dealer := dealer + [c2];
      var c3 := DrawCard();
      player.hands := player.hands[0 := first + [c1, c3]];
      var c4 := DrawCard();
      dealer := dealer + [c4];
      assert shoe[..n - 1][..n - 2][..n - 3][..n - 4] == shoe[..n - 4];
      offeredInsurance := dealer[0].cardType == Ace || IsTenValue(dealer[0]);
      playerBlackjack := IsBlackjack(player.hands[0]);
    }

    /** `hit`: one card to the playing hand. */
    method Hit()
      requires Valid() && |deck.cards| >= 1
      modifies this, player, deck
      ensures Valid() && turn == old(turn) + 1
      ensures player.bet == old(player.bet) && player.playingHand == old(player.playingHand)
      ensures var n := |old(deck.cards)|;
        deck.cards == old(deck.cards)[..n - 1] &&
        player.hands == old(player.hands)[player.playingHand := old(player.PlayingHand()) + [old(deck.cards)[n - 1]]]
      ensures dealer == old(dealer) && offeredInsurance == old(offeredInsurance)
      ensures playerBlackjack == old(playerBlackjack)
    {
      var c := DrawCard();
      player.Hit(c);
      turn := turn + 1;
    }

    /**
     * `next_player_hand`: the bet goes back to the original stake, the next
     * hand (if any) becomes the playing hand, and that hand is hit, also when
     * there was no next hand.
     */
    method NextPlayerHand() returns (worked: bool)
      requires Valid() && |deck.cards| >= 1
      modifies this, player, deck
      ensures Valid()
      ensures worked <==> old(player.playingHand) < |old(player.hands)| - 1
      ensures player.playingHand == if worked then old(player.playingHand) + 1 else old(player.playingHand)
      ensures player.bet == originalBet && turn == 0
      ensures var n := |old(deck.cards)|;
        deck.cards == old(deck.cards)[..n - 1] &&
        player.hands == old(player.hands)[player.playingHand := old(player.hands)[player.playingHand] + [old(deck.cards)[n - 1]]]
      ensures playerBlackjack <==> IsBlackjack(player.PlayingHand())
      ensures dealer == old(dealer) && offeredInsurance == old(offeredInsurance)
    {
      player.bet := originalBet;
      worked := player.NextHand();
      Hit();
      turn := 0;
      playerBlackjack := IsBlackjack(player.PlayingHand());
    }

    /** The dealer's face-up card. */
    function DealerCard(): Card
      reads this
      requires |dealer| >= 1
    {
      dealer[0]
    }

    /**
     * `dealer_turn`: the dealer draws until the total reaches 17.  Every card
     * of the shoe adds at least one to the all-aces-one total, so enough cards
     * remain whenever that total plus the shoe reaches 17.
     */
    method DealerTurn()
      requires Valid() && HardSum(dealer) + |deck.cards| >= 17
      modifies this, deck
      ensures Valid()
      ensures Score(dealer) >= 17
      ensures |old(dealer)| <= |dealer| <= |old(dealer)| + 17
      ensures dealer[..|old(dealer)|] == old(dealer)
      ensures old(deck.cards) == deck.cards + Reversed(dealer[|old(dealer)|..])
      ensures DrawnBelow17(old(dealer), dealer[|old(dealer)|..])
      ensures offeredInsurance == old(offeredInsurance) && playerBlackjack == old(playerBlackjack)
      ensures turn == old(turn)
    {
      ghost var start := dealer;
      ghost var drawn: seq<Card> := [];
      assert deck.cards + Reversed(drawn) == deck.cards;
      while Score(dealer) < 17
        invariant DealerDrawing(start, drawn, old(deck.cards))
        invariant offeredInsurance == old(offeredInsurance) && playerBlackjack == old(playerBlackjack)
        invariant turn == old(turn)
        decreases |deck.cards|
      {
        drawn := DealerDraws(start, drawn, old(deck.cards));
      }
      assert dealer[..|start|] == start;
      assert dealer[|start|..] == drawn;
    }

    /**
     * The dealer's loop so far: `drawn` went from the shoe `shoe` onto the
     * starting hand, one card for each point the all-aces-one total gained
     * at least, each taken below 17.
     */
    predicate DealerDrawing(start: Hand, drawn: seq<Card>, shoe: seq<Card>)
      reads this, player, deck
    {
      Valid() && dealer == start + drawn && |drawn| <= 17 &&
      shoe == deck.cards + Reversed(drawn) &&
      HardSum(dealer) >= HardSum(start) + |drawn| &&
      HardSum(dealer) + |deck.cards| >= 17 &&
      DrawnBelow17(start, drawn)
    }

    /** One turn of the dealer's loop: the top card of the shoe joins the dealer's hand. */
    method DealerDraws(ghost start: Hand, ghost drawn: seq<Card>, ghost shoe: seq<Card>) returns (ghost next: seq<Card>)
      requires DealerDrawing(start, drawn, shoe) && Score(dealer) < 17
      modifies this, deck
      ensures DealerDrawing(start, next, shoe) && |deck.cards| < old(|deck.cards|)
      ensures next == drawn + [dealer[|dealer| - 1]]
      ensures offeredInsurance == old(offeredInsurance) && playerBlackjack == old(playerBlackjack)
      ensures turn == old(turn)
    {
      ScoreIsBestTotal(dealer);
      var c := DrawCard();
      DealerStep(start, drawn, c, shoe, deck.cards);
      next := drawn + [c];
      dealer := dealer + [c];
    }

    /** `stand`: the turn counter advances and the dealer plays. */
    method Stand()
      requires Valid() && HardSum(dealer) + |deck.cards| >= 17
      modifies this, deck
      ensures Valid() && turn == old(turn) + 1
      ensures Score(dealer) >= 17
      ensures |old(dealer)| <= |dealer| <= |old(dealer)| + 17
      ensures dealer[..|old(dealer)|] == old(dealer)
      ensures old(deck.cards) == deck.cards + Reversed(dealer[|old(dealer)|..])
      ensures DrawnBelow17(old(dealer), dealer[|old(dealer)|..])
      ensures offeredInsurance == old(offeredInsurance) && playerBlackjack == old(playerBlackjack)
      ensures DrawnFromTop(old(deck.cards), deck.cards, 17)
    {
      turn := turn + 1;
      DealerTurn();
      assert old(deck.cards)[..|deck.cards|] == deck.cards;
    }

    /** `double_down`: the bet grows by `amt`, the hand takes one card and stands. */
    method DoubleDown(amt: nat)
      requires Valid() && |deck.cards| >= 18
      modifies this, player, deck
      ensures Valid() && turn == old(turn) + 2
      ensures player.bet == old(player.bet) + amt && player.playingHand == old(player.playingHand)
      ensures var n := |old(deck.cards)|;
        player.hands == old(player.hands)[player.playingHand := old(player.PlayingHand()) + [old(deck.cards)[n - 1]]] &&
        |deck.cards| >= n - 18
      ensures Score(dealer) >= 17 && |old(dealer)| <= |dealer| && dealer[..|old(dealer)|] == old(dealer)
      ensures offeredInsurance == old(offeredInsurance) && playerBlackjack == old(playerBlackjack)
      ensures DrawnFromTop(old(deck.cards), deck.cards, 18)
    {
      player.DoubleDown(amt);
      Hit();
      ghost var mid := deck.cards;
      Stand();
      DrawnFromTopTrans(old(deck.cards), mid, deck.cards, 1, 17);
    }

    /**
     * `determine_winner`: settles the playing hand against the dealer, credits
     * the payout and moves to the next hand; the session ends when there is none.
     * On the owner's always-win switch the dealer forfeits whatever the cards say.
     */
    method DetermineWinner(store: UserStore, user: UserId, superboost: bool, winAlways: bool)
        returns (result: HandResult, ended: bool)
      requires Valid() && |deck.cards| >= 1
      modifies this, player, deck, store
      ensures Valid()
      ensures result == Outcome(Config.OwnerAlwaysWins(user, winAlways), old(player.PlayingHand()), old(dealer))
      ensures store.Get(user).bananas == old(store.Get(user).bananas) + Payout(result, old(player.bet), old(playerBlackjack), superboost)
      ensures store.Get(user) == old(store.Get(user)).(bananas := store.Get(user).bananas)
      ensures forall u :: u != user ==> store.Get(u) == old(store.Get(u))
      ensures ended <==> old(player.playingHand) >= |old(player.hands)| - 1
      ensures player.playingHand == if ended then old(player.playingHand) else old(player.playingHand) + 1
      ensures |player.hands| == |old(player.hands)|
      ensures forall i :: 0 <= i < |player.hands| ==> |player.hands[i]| >= |old(player.hands)[i]|
      ensures |player.hands[player.playingHand]| == |old(player.hands)[player.playingHand]| + 1
      ensures |deck.cards| == |old(deck.cards)| - 1
      ensures DrawnFromTop(old(deck.cards), deck.cards, 1)
      ensures player.bet == originalBet && turn == 0
      ensures dealer == old(dealer) && offeredInsurance == old(offeredInsurance)
    {
      result := Outcome(Config.OwnerAlwaysWins(user, winAlways), player.PlayingHand(), dealer);
      var payout := Payout(result, player.bet, playerBlackjack, superboost);
      store.AddBananas(user, payout);
      var worked := NextPlayerHand();
      ended := !worked;
    }

    /** The insurance phase: "yes" takes insurance, "no" declines it. */
    method InsuranceMessage(w: string, store: UserStore, user: UserId, superboost: bool, winAlways: bool)
        returns (reply: Reply, ended: bool)
      requires InPlay() && offeredInsurance
      modifies this, store
      ensures InPlay()
      ensures dealer == old(dealer) && turn == old(turn) && playerBlackjack == old(playerBlackjack)
      ensures forall u :: u != user ==> store.Get(u) == old(store.Get(u))
      ensures store.Get(user) == old(store.Get(user)).(bananas := store.Get(user).bananas)
      ensures var bal, bet := old(store.Get(user).bananas), player.bet;
        if w == "yes" then
          if bal < bet / 2 then
            reply == InsuranceUnaffordable && !ended && offeredInsurance && store.Get(user).bananas == bal
          else if IsBlackjack(player.PlayingHand()) then
            reply == InsurancePush && ended && store.Get(user).bananas == bal + bet
          else if IsBlackjack(dealer) then
            reply == InsuranceDealerBlackjack && ended && store.Get(user).bananas == bal + bet
          else
            reply == InsuranceLost && !ended && !offeredInsurance && store.Get(user).bananas == bal + bet / 2
        else if w == "no" then
          if IsBlackjack(dealer) && Config.OwnerAlwaysWins(user, winAlways) then
            reply == DealerBlackjackForgiven && ended &&
            store.Get(user).bananas == bal + Payout(DealerForfeits, bet, false, superboost)
          else if IsBlackjack(dealer) then
            reply == DealerBlackjack && ended && store.Get(user).bananas == bal
          else
            reply == GameBegun && !ended && !offeredInsurance && store.Get(user).bananas == bal
        else
          reply == InsuranceNotUnderstood && !ended && offeredInsurance && store.Get(user).bananas == bal
    {
      if w == "yes" {
        if store.Get(user).bananas < player.bet / 2 {
          reply, ended := InsuranceUnaffordable, false;
          return;
        }
        if IsBlackjack(player.PlayingHand()) {
          store.AddBananas(user, player.bet);
          reply, ended := InsurancePush, true;
          return;
        }
        if IsBlackjack(dealer) {
          store.AddBananas(user, player.bet);
          reply, ended := InsuranceDealerBlackjack, true;
          return;
        }
        store.AddBananas(user, player.bet / 2);
        offeredInsurance := false;
        reply, ended := InsuranceLost, false;
        return;
      } else if w == "no" {
        if IsBlackjack(dealer) {
          if Config.OwnerAlwaysWins(user, winAlways) {
            store.AddBananas(user, Payout(DealerForfeits, player.bet, false, superboost));
            reply, ended := DealerBlackjackForgiven, true;
            return;
          }
          reply, ended := DealerBlackjack, true;
          return;
        }
        offeredInsurance := false;
      } else {
        reply, ended := InsuranceNotUnderstood, false;
        return;
      }
      reply, ended := GameBegun, false;
    }

    /** "hit": one more card; a bust settles the hand at once. */
    method HitMessage(store: UserStore, user: UserId, superboost: bool, winAlways: bool)
        returns (reply: Reply, ended: bool)
      requires InPlay() && |deck.cards| >= 2 && !IsBlackjack(player.PlayingHand())
      modifies this, player, deck, store
      ensures Valid()
      ensures !ended ==> InPlay()
      ensures forall u :: u != user ==> store.Get(u) == old(store.Get(u))
      ensures store.Get(user) == old(store.Get(user)).(bananas := store.Get(user).bananas)
      ensures dealer == old(dealer) && offeredInsurance == old(offeredInsurance)
      ensures var bal, hand := old(store.Get(user).bananas), old(player.PlayingHand());
        var top := old(deck.cards)[|old(deck.cards)| - 1];
        if IsBust(hand + [top]) then
          reply == Settled(Outcome(Config.OwnerAlwaysWins(user, winAlways), hand + [top], dealer)) &&
          (ended <==> old(player.playingHand) >= |old(player.hands)| - 1) &&
          store.Get(user).bananas == bal + Payout(reply.result, old(player.bet), old(playerBlackjack), superboost)
        else
          reply == HitTaken && !ended && store.Get(user).bananas == bal &&
          player.playingHand == old(player.playingHand) &&
          player.hands == old(player.hands)[old(player.playingHand) := hand + [top]]
      ensures DrawnFromTop(old(deck.cards), deck.cards, 2)
    {
      Hit();
      if IsBust(player.PlayingHand()) {
        ghost var mid := deck.cards;
        var result;
        result, ended := DetermineWinner(store, user, superboost, winAlways);
        DrawnFromTopTrans(old(deck.cards), mid, deck.cards, 1, 1);
        reply := Settled(result);
        return;
      }
      reply, ended := HitTaken, false;
    }

    /** "stand": the dealer plays and the hand is settled. */
    method StandMessage(store: UserStore, user: UserId, superboost: bool, winAlways: bool)
        returns (reply: Reply, ended: bool)
      requires InPlay() && |deck.cards| >= 18
      modifies this, player, deck, store
      ensures Valid()
      ensures !ended ==> InPlay()
      ensures forall u :: u != user ==> store.Get(u) == old(store.Get(u))
      ensures store.Get(user) == old(store.Get(user)).(bananas := store.Get(user).bananas)
      ensures offeredInsurance == old(offeredInsurance)
      ensures Score(dealer) >= 17 && |old(dealer)| <= |dealer| && dealer[..|old(dealer)|] == old(dealer)
      ensures reply == Settled(Outcome(Config.OwnerAlwaysWins(user, winAlways), old(player.PlayingHand()), dealer))
      ensures ended <==> old(player.playingHand) >= |old(player.hands)| - 1
      ensures store.Get(user).bananas ==
        old(store.Get(user).bananas) + Payout(reply.result, old(player.bet), old(playerBlackjack), superboost)
      ensures DrawnFromTop(old(deck.cards), deck.cards, 18)
    {
      Stand();
      ghost var mid := deck.cards;
      var result;
      result, ended := DetermineWinner(store, user, superboost, winAlways);
      DrawnFromTopTrans(old(deck.cards), mid, deck.cards, 17, 1);
      reply := Settled(result);
    }

    /** "split": the stake is paid again and the playing hand is split in two. */
    method SplitMessage(store: UserStore, user: UserId)
        returns (reply: Reply, ended: bool)
      requires InPlay() && |deck.cards| >= 1 && player.CanSplit()
      modifies this, player, deck, store
      ensures InPlay() && !ended
      ensures forall u :: u != user ==> store.Get(u) == old(store.Get(u))
      ensures store.Get(user) == old(store.Get(user)).(bananas := store.Get(user).bananas)
      ensures dealer == old(dealer) && offeredInsurance == old(offeredInsurance)
      ensures var bal, bet, hand := old(store.Get(user).bananas), old(player.bet), old(player.PlayingHand());
        var top := old(deck.cards)[|old(deck.cards)| - 1];
        if bal < bet then
          reply == SplitUnaffordable && store.Get(user).bananas == bal && player.hands == old(player.hands)
        else
          reply == SplitDone && store.Get(user).bananas == bal - bet &&
          player.playingHand == old(player.playingHand) &&
          player.hands == old(player.hands)[old(player.playingHand) := [hand[0], top]] + [[hand[1]]]
      ensures DrawnFromTop(old(deck.cards), deck.cards, 1)
    {
      if store.Get(user).bananas < player.bet {
        reply, ended := SplitUnaffordable, false;
        return;
      }
      ghost var hand := player.PlayingHand();
      player.Split();
      store.RemoveBananas(user, player.bet);
      Hit();
      assert hand[..1] + [old(deck.cards)[|old(deck.cards)| - 1]] == [hand[0], old(deck.cards)[|old(deck.cards)| - 1]];
      reply, ended := SplitDone, false;
    }

    /**
     * "double" on the first turn: the stake is paid again, the hand takes one
     * card and stands.  An amount given after the word is parsed but then
     * rejected, because the range check reads the unchanged bet.
     */
    method DoubleMessage(words: seq<string>, store: UserStore, user: UserId, superboost: bool, winAlways: bool)
        returns (reply: Reply, ended: bool)
      requires InPlay() && |deck.cards| >= 19
      modifies this, player, deck, store
      ensures Valid()
      ensures !ended ==> InPlay()
      ensures forall u :: u != user ==> store.Get(u) == old(store.Get(u))
      ensures store.Get(user) == old(store.Get(user)).(bananas := store.Get(user).bananas)
      ensures offeredInsurance == old(offeredInsurance)
      ensures var bal, bet, hand := old(store.Get(user).bananas), old(player.bet), old(player.PlayingHand());
        var top := old(deck.cards)[|old(deck.cards)| - 1];
        if |words| >= 2 && Text.ParseU64(words[1]).None? then
          reply == DoubleNotANumber && !ended && store.Get(user).bananas == bal
        else if |words| >= 2 then
          reply == DoubleAmountRejected && !ended && store.Get(user).bananas == bal
        else if bal < bet then
          reply == DoubleUnaffordable && !ended && store.Get(user).bananas == bal
        else
          reply == Settled(Outcome(Config.OwnerAlwaysWins(user, winAlways), hand + [top], dealer)) &&
          Score(dealer) >= 17 &&
          (ended <==> old(player.playingHand) >= |old(player.hands)| - 1) &&
          store.Get(user).bananas == bal - bet + Payout(reply.result, 2 * bet, old(playerBlackjack), superboost)
      ensures !reply.Settled? ==> player.hands == old(player.hands) && dealer == old(dealer)
      ensures DrawnFromTop(old(deck.cards), deck.cards, 19)
    {
      var amt := player.bet;
      if |words| >= 2 {
        var a := Text.ParseU64(words[1]);
        if a.None? {
          reply, ended := DoubleNotANumber, false;
          return;
        }
        if amt < 5 || amt >= player.bet {
          reply, ended := DoubleAmountRejected, false;
          return;
        }
      }
      if store.Get(user).bananas < amt {
        reply, ended := DoubleUnaffordable, false;
        return;
      }
      store.RemoveBananas(user, amt);
      DoubleDown(amt);
      ghost var mid := deck.cards;
      var result;
      result, ended := DetermineWinner(store, user, superboost, winAlways);
      DrawnFromTopTrans(old(deck.cards), mid, deck.cards, 18, 1);
      reply := Settled(result);
    }

    /**
     * `handle_message` for one lowercased, whitespace-split message from the
     * session's player.  While insurance is on offer only "yes" and "no" are
     * understood; afterwards "hit", "stand", "split" and "double", each with
     * the guard the source puts on it.  A message takes at most 19 cards,
     * all off the top of the shoe, and the shoe must hold them.
     */
    method HandleMessage(words: seq<string>, store: UserStore, user: UserId, superboost: bool, winAlways: bool)
        returns (reply: Reply, ended: bool)
      requires InPlay() && |deck.cards| >= 19
      modifies this, player, deck, store
      ensures Valid()
      ensures !ended ==> InPlay()
      ensures DrawnFromTop(old(deck.cards), deck.cards, 19)
      ensures forall u :: u != user ==> store.Get(u) == old(store.Get(u))
      ensures store.Get(user) == old(store.Get(user)).(bananas := store.Get(user).bananas)
      ensures reply == Panicked <==> |words| == 0
      ensures |words| == 0 ==> !ended && store.Get(user) == old(store.Get(user)) && player.hands == old(player.hands)
      // the insurance phase: no card moves
      ensures old(offeredInsurance) ==> player.hands == old(player.hands) && dealer == old(dealer)
      ensures var bal, bet := old(store.Get(user).bananas), old(player.bet);
        old(offeredInsurance) && |words| > 0 ==>
          if words[0] == "yes" then
            if bal < bet / 2 then
              reply == InsuranceUnaffordable && !ended && store.Get(user).bananas == bal
            else if IsBlackjack(old(player.PlayingHand())) then
              reply == InsurancePush && ended && store.Get(user).bananas == bal + bet
            else if IsBlackjack(old(dealer)) then
              reply == InsuranceDealerBlackjack && ended && store.Get(user).bananas == bal + bet
            else
              reply == InsuranceLost && !ended && !offeredInsurance && store.Get(user).bananas == bal + bet / 2
          else if words[0] == "no" then
            if IsBlackjack(old(dealer)) && Config.OwnerAlwaysWins(user, winAlways) then
              reply == DealerBlackjackForgiven && ended &&
              store.Get(user).bananas == bal + Payout(DealerForfeits, bet, false, superboost)
            else if IsBlackjack(old(dealer)) then
              reply == DealerBlackjack && ended && store.Get(user).bananas == bal
            else
              reply == GameBegun && !ended && !offeredInsurance && store.Get(user).bananas == bal
          else
            reply == InsuranceNotUnderstood && !ended && store.Get(user).bananas == bal
      // play after the insurance phase
      ensures var bal, bet, hand := old(store.Get(user).bananas), old(player.bet), old(player.PlayingHand());
        var top := old(deck.cards)[|old(deck.cards)| - 1];
        var rigged := Config.OwnerAlwaysWins(user, winAlways);
        var lastHand := old(player.playingHand) >= |old(player.hands)| - 1;
        !old(offeredInsurance) && |words| > 0 ==>
          if words[0] == "hit" && !IsBlackjack(hand) then
            if IsBust(hand + [top]) then
              reply == Settled(Outcome(rigged, hand + [top], dealer)) && (ended <==> lastHand) &&
              store.Get(user).bananas == bal + Payout(reply.result, bet, old(playerBlackjack), superboost)
            else
              reply == HitTaken && !ended && store.Get(user).bananas == bal &&
              player.playingHand == old(player.playingHand) &&
              player.hands == old(player.hands)[old(player.playingHand) := hand + [top]]
          else if words[0] == "stand" then
            reply == Settled(Outcome(rigged, hand, dealer)) && Score(dealer) >= 17 && (ended <==> lastHand) &&
            store.Get(user).bananas == bal + Payout(reply.result, bet, old(playerBlackjack), superboost)
          else if words[0] == "split" && CanSplitHand(hand, |old(player.hands)|) then
            if bal < bet then
              reply == SplitUnaffordable && !ended && store.Get(user).bananas == bal
            else
              reply == SplitDone && !ended && store.Get(user).bananas == bal - bet &&
              player.playingHand == old(player.playingHand) &&
              player.hands == old(player.hands)[old(player.playingHand) := [hand[0], top]] + [[hand[1]]]
          else if words[0] == "double" && old(turn) == 0 && !IsBlackjack(hand) then
            if |words| >= 2 && Text.ParseU64(words[1]).None? then
              reply == DoubleNotANumber && !ended && store.Get(user).bananas == bal
            else if |words| >= 2 then
              reply == DoubleAmountRejected && !ended && store.Get(user).bananas == bal
            else if bal < bet then
              reply == DoubleUnaffordable && !ended && store.Get(user).bananas == bal
            else
              reply == Settled(Outcome(rigged, hand + [top], dealer)) && Score(dealer) >= 17 && (ended <==> lastHand) &&
              store.Get(user).bananas == bal - bet + Payout(reply.result, 2 * bet, old(playerBlackjack), superboost)
          else
            reply == NotUnderstood && !ended && store.Get(user) == old(store.Get(user)) &&
            player.hands == old(player.hands) && dealer == old(dealer)
    {
      if |words| == 0 {
        // the source unwraps the first word
        reply, ended := Panicked, false;
        return;
      }
      var w := words[0];
      if offeredInsurance {
        reply, ended := InsuranceMessage(w, store, user, superboost, winAlways);
      } else if w == "hit" && !IsBlackjack(player.PlayingHand()) {
        reply, ended := HitMessage(store, user, superboost, winAlways);
      } else if w == "stand" {
        reply, ended := StandMessage(store, user, superboost, winAlways);
      } else if w == "split" && player.CanSplit() {
        reply, ended := SplitMessage(store, user);
      } else if w == "double" && turn == 0 && !IsBlackjack(player.PlayingHand()) {
        reply, ended := DoubleMessage(words, store, user, superboost, winAlways);
      } else {
        reply, ended := NotUnderstood, false;
      }
    }
  }

  /** The result `determine_winner` reaches: a forfeit when rigged, otherwise the cards decide. */
  function Outcome(rigged: bool, hand: Hand, dealer: Hand): (r: HandResult)
    ensures rigged <==> r == DealerForfeits
    ensures !rigged ==> r == Settle(hand, dealer)
  {
    SettleSound(hand, dealer);
    if rigged then DealerForfeits else Settle(hand, dealer)
  }

  /** Each of the drawn cards was taken while the dealer's total was below 17. */
  predicate DrawnBelow17(start: Hand, drawn: seq<Card>)
  {
    drawn == [] ||
    (DrawnBelow17(start, drawn[..|drawn| - 1]) && Score(start + drawn[..|drawn| - 1]) < 17)
  }

  /**
   * One dealer draw taken while the total is below 17: the drawn cards keep
   * having been taken below 17, the all-aces-one total grows by at least one,
   * and the shoe loses exactly that card.
   */
  lemma DealerStep(start: Hand, before: seq<Card>, c: Card, shoe: seq<Card>, rest: seq<Card>)
    requires c.cardType != Joker && Score(start + before) < 17
    requires DrawnBelow17(start, before) && HardSum(start + before) >= HardSum(start) + |before|
    requires shoe == rest + [c] + Reversed(before)
    ensures |before| < 17
    ensures start + before + [c] == start + (before + [c])
    ensures DrawnBelow17(start, before + [c])
    ensures HardSum(start + (before + [c])) >= HardSum(start) + |before + [c]|
    ensures HardSum(start + (before + [c])) >= HardSum(start + before) + 1
    ensures shoe == rest + Reversed(before + [c])
  {
    DrawnStep(start, before, c);
    HardSumStep(start, before, c);
    ShoeStep(before, c, shoe, rest);
  }

  lemma DrawnStep(start: Hand, before: seq<Card>, c: Card)
    requires Score(start + before) < 17 && DrawnBelow17(start, before)
    requires HardSum(start + before) >= HardSum(start) + |before|
    ensures |before| < 17 && DrawnBelow17(start, before + [c])
  {
    ScoreIsBestTotal(start + before);
    assert (before + [c])[..|before + [c]| - 1] == before;
  }

  lemma HardSumStep(start: Hand, before: seq<Card>, c: Card)
    requires c.cardType != Joker
    ensures start + before + [c] == start + (before + [c])
    ensures HardSum(start + (before + [c])) >= HardSum(start + before) + 1
  {
    AppendCard(start + before, c);
    assert start + before + [c] == start + (before + [c]);
  }

  lemma ShoeStep(before: seq<Card>, c: Card, shoe: seq<Card>, rest: seq<Card>)
    requires shoe == rest + [c] + Reversed(before)
    ensures shoe == rest + Reversed(before + [c])
  {
    ReversedSnoc(before, c);
    assert rest + [c] + Reversed(before) == rest + ([c] + Reversed(before));
  }

  lemma {:induction false} ReversedSnoc(s: seq<Card>, c: Card)
    ensures Reversed(s + [c]) == [c] + Reversed(s)
  {
    if s == [] {
      assert s + [c] == [c];
    } else {
      assert (s + [c])[1..] == s[1..] + [c];
      ReversedSnoc(s[1..], c);
    }
  }
}
