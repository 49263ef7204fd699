/** The `/pay` command: move bananas from the caller to another user. */
module PayCommand {
  import opened Wrappers
  import opened UserFiles

  datatype PayReply =
    | Confused
    | TooPoor
    | Paid(amount: nat)

  /** `*amt as u64`: the i64 option reinterpreted as unsigned, so -1 becomes 2^64 - 1. */
  function AsU64(v: int): (r: nat)
    ensures r < U64_LIMIT
    ensures 0 <= v < U64_LIMIT ==> r == v
    ensures -(U64_LIMIT as int) <= v < 0 ==> r == U64_LIMIT + v
  {
    v % U64_LIMIT
  }

  /**
   * `run`: both options must be present (a target first, an integer last).
   * A sender short of the amount is refused; otherwise the amount leaves the
   * sender and reaches the target, which may be the sender.
   */
  method Run(target: Option<UserId>, amount: Option<int>, user: UserId, store: UserStore) returns (reply: PayReply)
    modifies store
    ensures target.None? || amount.None? ==> reply == Confused
    ensures !reply.Paid? ==> forall u :: store.Get(u) == old(store.Get(u))
    ensures target.Some? && amount.Some? && old(store.Get(user)).bananas < AsU64(amount.value) ==> reply == TooPoor
    ensures target.Some? && amount.Some? && old(store.Get(user)).bananas >= AsU64(amount.value) ==>
      reply == Paid(AsU64(amount.value))
    ensures reply.Paid? && target.value != user ==>
      store.Get(user) == old(store.Get(user)).(bananas := old(store.Get(user)).bananas - reply.amount) &&
      store.Get(target.value) == old(store.Get(target.value)).(bananas := old(store.Get(target.value)).bananas + reply.amount)
    ensures reply.Paid? && target.value != user ==>
      store.Get(user).bananas + store.Get(target.value).bananas ==
      old(store.Get(user)).bananas + old(store.Get(target.value)).bananas
    ensures reply.Paid? && target.value == user ==> store.Get(user) == old(store.Get(user))
    ensures reply.Paid? ==> forall u :: u != user && u != target.value ==> store.Get(u) == old(store.Get(u))
  {
    if target.None? || amount.None? {
      return Confused;
    }
    var amt := AsU64(amount.value);
    if store.Get(user).bananas < amt {
      return TooPoor;
    }
    store.RemoveBananas(user, amt);
    store.AddBananas(target.value, amt);
    reply := Paid(amt);
  }
}
