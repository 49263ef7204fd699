/** The `/discard` command: throw one inventory item away by its 0-based index. */
module DiscardCommand {
  import opened Wrappers
  import opened Items
  import opened UserFiles

  datatype DiscardReply =
    | Confused
    | Negative
    | InvalidIndex
    | Discarded(item: InventoryItem)

  /**
   * `run`: the option must be an integer; a negative one, or one at or past
   * the end of the list, is refused with nothing changed.  Otherwise exactly
   * that item leaves the list, the others keep their order, and the reply
   * names the item that stood there.
   */
  method Run(index: Option<int>, user: UserId, store: UserStore) returns (reply: DiscardReply)
    modifies store
    ensures forall u :: u != user ==> store.Get(u) == old(store.Get(u))
    ensures index.None? ==> reply == Confused
    ensures index.Some? && index.value < 0 ==> reply == Negative
    ensures index.Some? && index.value >= |old(store.Get(user)).inventory.items| ==> reply == InvalidIndex
    ensures !reply.Discarded? ==> store.Get(user) == old(store.Get(user))
    ensures index.Some? && 0 <= index.value < |old(store.Get(user)).inventory.items| ==>
      var items := old(store.Get(user)).inventory.items;
      reply == Discarded(items[index.value]) &&
      store.Get(user).inventory.items == items[..index.value] + items[index.value + 1..] &&
      store.Get(user) == old(store.Get(user)).(inventory := old(store.Get(user)).inventory.(items := store.Get(user).inventory.items))
  {
    if index.None? {
      return Confused;
    }
    if index.value < 0 {
      return Negative;
    }
    var i := index.value;
    if i >= |store.Get(user).inventory.items| {
      return InvalidIndex;
    }
    var item := store.Get(user).inventory.items[i];
    store.RemoveItemIndex(user, i);
    reply := Discarded(item);
  }
}
