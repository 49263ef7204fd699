/** The `/fiftyfifty` command: the whole balance on one coin flip. */
module FiftyFifty {
  import opened UserFiles
  import Config

  datatype FiftyReply =
    | NoBananas
    | Won(winnings: nat)
    | Lost(stake: nat)

  /**
   * `run`: the stake is the whole balance, and an empty balance is refused.
   * `flip` is the `gen_range(0..2)` draw: 1, or the owner's switch, wins the
   * stake again (twice over under superboost); otherwise the balance is
   * lost.  Nobody else's record changes.
   */
  method Run(user: UserId, store: UserStore, flip: nat, winAlways: bool, superboost: bool) returns (reply: FiftyReply)
    requires flip < 2
    modifies store
    ensures forall u :: u != user ==> store.Get(u) == old(store.Get(u))
    ensures old(store.Get(user)).bananas == 0 <==> reply == NoBananas
    ensures reply == NoBananas ==> store.Get(user) == old(store.Get(user))
    ensures reply.Won? <==> old(store.Get(user)).bananas > 0 && (flip == 1 || Config.OwnerAlwaysWins(user, winAlways))
    ensures reply.Won? ==>
      reply.winnings == old(store.Get(user)).bananas * (if superboost then Config.Superboost else 1) &&
      store.Get(user) == old(store.Get(user)).(bananas := old(store.Get(user)).bananas + reply.winnings)
    ensures reply.Lost? ==>
      reply.stake == old(store.Get(user)).bananas && store.Get(user) == old(store.Get(user)).(bananas := 0)
  {
    var amt := store.Get(user).bananas;
    if amt == 0 {
      return NoBananas;
    }
    var win := flip == 1;
    if win || Config.OwnerAlwaysWins(user, winAlways) {
      var winnings := amt;
      if superboost {
        winnings := winnings * Config.Superboost;
      }
      store.AddBananas(user, winnings);
      reply := Won(winnings);
    } else {
      store.RemoveBananas(user, amt);
      reply := Lost(amt);
    }
  }
}
