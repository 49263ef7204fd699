/**
 * The player's inventory as the commands and games use it: a list of items,
 * an optional equipped item and a counter of "super nanners" (the premium
 * currency).  The counter is an unsigned 64-bit integer.
 */
module Items {
  import opened Wrappers

  type U64 = n: nat | n < U64_LIMIT

  datatype InventoryItem =
    | HealingPotion(health: nat)
    | SpellTome(name: string, damageLo: nat, damageHi: nat)
    | Weapon(name: string, damageLo: nat, damageHi: nat)
    | Minion(level: nat)
    | SuperDrill(tier: nat)

  datatype Inventory = Inventory(items: seq<InventoryItem>, equipped: Option<InventoryItem>, superNanners: U64)

  const EmptyInventory := Inventory([], None, 0)

  predicate IsSuperDrill(item: InventoryItem)
  {
    item.SuperDrill?
  }

  /** `has_super_drill`: some item of the list is a super drill. */
  predicate HasSuperDrill(inv: Inventory)
  {
    exists i :: 0 <= i < |inv.items| && IsSuperDrill(inv.items[i])
  }

  /** The inventory is full once it holds `capacity` items. */
  predicate IsFull(inv: Inventory, capacity: nat)
  {
    |inv.items| >= capacity
  }

  /** `Vec::remove`: the sequence without its i-th element, order kept. */
  function RemoveAt<T>(s: seq<T>, i: nat): (r: seq<T>)
    requires i < |s|
    ensures |r| == |s| - 1
    ensures forall k :: 0 <= k < i ==> r[k] == s[k]
    ensures forall k :: i <= k < |r| ==> r[k] == s[k + 1]
    ensures multiset(r) + multiset{s[i]} == multiset(s)
  {
    assert s == s[..i] + [s[i]] + s[i + 1..];
    s[..i] + s[i + 1..]
  }
}
