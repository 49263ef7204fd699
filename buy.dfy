/** The `/buy` command: the shop's price list, paid in super nanners. */
module BuyCommand {
  import opened Wrappers
  import opened Items
  import opened UserFiles

  /** One line of the price list: the balance the guard asks for, the amount deducted, and the item. */
  datatype Offer = Offer(required: nat, deducted: nat, item: InventoryItem)

  /**
   * The purchases `run` matches on.  Item 3 asks for 5 and deducts 3; the
   * second arm for 3 (Mighty Winds) can never match; there is no item 4;
   * item 6 asks for 1 and deducts 2.
   */
  function PriceList(n: int): (o: Option<Offer>)
    ensures o.Some? ==> n in {1, 2, 3, 5, 6} && o.value.deducted < U64_LIMIT
    ensures o.Some? && n != 6 ==> o.value.deducted <= o.value.required
  {
    if n == 1 then Some(Offer(15, 15, SuperDrill(1)))
    else if n == 2 then Some(Offer(10, 10, Minion(1)))
    else if n == 3 then Some(Offer(5, 3, SpellTome("Fireball", 25, 40)))
    else if n == 5 then Some(Offer(2, 2, HealingPotion(25)))
    else if n == 6 then Some(Offer(1, 2, HealingPotion(10)))
    else None
  }

  datatype BuyReply =
    | Confused
    | InventoryFull
    | AlreadyOwned
    | NotEnough
    | Bought(item: InventoryItem, cost: nat)
    | InvalidItem

  /**
   * `run`: the option must be an integer.  A full inventory refuses every
   * purchase; a second super drill is refused; an unknown number, or a
   * balance below the guard, is refused; each refusal changes nothing.  A
   * purchase appends the item and deducts its price with u64 wrap-around.
   */
  method Run(choice: Option<int>, user: UserId, store: UserStore) returns (reply: BuyReply)
    modifies store
    ensures forall u :: u != user ==> store.Get(u) == old(store.Get(u))
    ensures !reply.Bought? ==> store.Get(user) == old(store.Get(user))
    ensures choice.None? ==> reply == Confused
    ensures choice.Some? && IsFull(old(store.Get(user)).inventory, store.capacity) ==> reply == InventoryFull
    ensures choice.Some? && !IsFull(old(store.Get(user)).inventory, store.capacity) ==>
      var inv := old(store.Get(user)).inventory;
      (choice.value == 1 && HasSuperDrill(inv) ==> reply == AlreadyOwned) &&
      (PriceList(choice.value).None? ==> reply == InvalidItem) &&
      (PriceList(choice.value).Some? && !(choice.value == 1 && HasSuperDrill(inv)) ==>
        var o := PriceList(choice.value).value;
        (inv.superNanners < o.required ==> reply == NotEnough) &&
        (inv.superNanners >= o.required ==> reply == Bought(o.item, o.deducted)))
    ensures reply.Bought? ==>
      var before := old(store.Get(user));
      store.Get(user) == before.(inventory := before.inventory.(
        items := before.inventory.items + [reply.item],
        superNanners := WrappingSub(before.inventory.superNanners, reply.cost, U64_LIMIT)))
    ensures reply.Bought? && store.Get(user).inventory.superNanners > old(store.Get(user)).inventory.superNanners ==>
      choice == Some(6) && old(store.Get(user)).inventory.superNanners == 1
  {
    if choice.None? {
      return Confused;
    }
    var inv := store.Get(user).inventory;
    if IsFull(inv, store.capacity) {
      return InventoryFull;
    }
    var n := choice.value;
    if n == 1 {
      if HasSuperDrill(inv) {
        return AlreadyOwned;
      }
      if inv.superNanners < 15 {
        return NotEnough;
      }
      store.AddItem(user, SuperDrill(1));
      store.RemoveSuperNanners(user, 15);
      reply := Bought(SuperDrill(1), 15);
    } else if n == 2 {
      if inv.superNanners < 10 {
        return NotEnough;
      }
      store.AddItem(user, Minion(1));
      store.RemoveSuperNanners(user, 10);
      reply := Bought(Minion(1), 10);
    } else if n == 3 {
      if inv.superNanners < 5 {
        return NotEnough;
      }
      store.AddItem(user, SpellTome("Fireball", 25, 40));
      store.RemoveSuperNanners(user, 3);
      reply := Bought(SpellTome("Fireball", 25, 40), 3);
    } else if n == 5 {
      if inv.superNanners < 2 {
        return NotEnough;
      }
      store.AddItem(user, HealingPotion(25));
      store.RemoveSuperNanners(user, 2);
      reply := Bought(HealingPotion(25), 2);
    } else if n == 6 {
      if inv.superNanners < 1 {
        return NotEnough;
      }
      store.AddItem(user, HealingPotion(10));
      store.RemoveSuperNanners(user, 2);
      reply := Bought(HealingPotion(10), 2);
    } else {
      reply := InvalidItem;
    }
  }
}
