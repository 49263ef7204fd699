/**
 * A user's persistent record (level, prestige, bananas, ascension and
 * inventory), the progression rules on it, and the store that holds every
 * user's record.  The on-disk JSON files become one in-memory map.
 */
module UserFiles {
  import opened Wrappers
  import opened Items

  type UserId = nat

  const BasePrice: nat := 150
  const LevelMultiplier: nat := 75
  const AscensionCost: nat := 1_000_000
  const MaxLevel: nat := 100
  const MaxPrestige: nat := 10

  datatype UserFile = UserFile(level: nat, prestige: nat, bananas: nat, ascension: nat, inventory: Inventory)

  /** The record a user gets the first time they are seen. */
  const NewUser := UserFile(1, 1, 0, 0, EmptyInventory)

  /** `levelup_cost`: the base price plus a per-level step that grows with prestige. */
  function LevelupCost(f: UserFile): nat
  {
    BasePrice + f.level * (LevelMultiplier * f.prestige)
  }

  predicate CanLevelup(f: UserFile)
  {
    f.bananas >= LevelupCost(f) && f.level < MaxLevel
  }

  predicate CanPrestige(f: UserFile)
  {
    f.level >= MaxLevel && f.prestige < MaxPrestige
  }

  predicate CanAscend(f: UserFile)
  {
    f.prestige >= MaxPrestige && f.bananas >= AscensionCost
  }

  /** `levelup`: pay the cost, gain a level. */
  function Leveled(f: UserFile): UserFile
    requires f.bananas >= LevelupCost(f)
  {
    f.(bananas := f.bananas - LevelupCost(f), level := f.level + 1)
  }

  /** `prestige`: back to level 1 with one more prestige. */
  function Prestiged(f: UserFile): UserFile
  {
    f.(level := 1, prestige := f.prestige + 1)
  }

  /** `ascend`: pay the ascension cost; level and prestige restart at 1. */
  function Ascended(f: UserFile): UserFile
    requires f.bananas >= AscensionCost
  {
    f.(bananas := f.bananas - AscensionCost, prestige := 1, level := 1, ascension := f.ascension + 1)
  }

  /** The ranges the guarded progression keeps a record in. */
  predicate WellFormed(f: UserFile)
  {
    1 <= f.level <= MaxLevel && 1 <= f.prestige <= MaxPrestige
  }

  /** Every guarded step keeps a record well-formed, starting from a new user's. */
  lemma ProgressionKeepsWellFormed(f: UserFile)
    requires WellFormed(f)
    ensures WellFormed(NewUser)
    ensures CanLevelup(f) ==> WellFormed(Leveled(f))
    ensures CanPrestige(f) ==> WellFormed(Prestiged(f))
    ensures CanAscend(f) ==> WellFormed(Ascended(f))
  {
  }

  /** A level-up costs strictly more at each higher level and prestige. */
  lemma LevelupCostMonotone(f: UserFile, g: UserFile)
    requires f.prestige >= 1 && g.level >= 1
    requires f.level <= g.level && f.prestige <= g.prestige
    requires f.level < g.level || f.prestige < g.prestige
    ensures LevelupCost(f) < LevelupCost(g)
  {
    var m := LevelMultiplier;
    MulStrict(f.level, g.level, m * f.prestige);
    MulStrict(f.prestige, g.prestige, m * g.level);
    assert f.level * (m * f.prestige) == f.prestige * (m * f.level);
    assert g.level * (m * g.prestige) == g.prestige * (m * g.level);
    assert g.level * (m * f.prestige) == f.prestige * (m * g.level);
  }

  /** a * c grows with a, strictly when c > 0. */
  lemma {:induction false} MulStrict(a: nat, b: nat, c: nat)
    requires a <= b
    ensures a * c <= b * c
    ensures a < b && c > 0 ==> a * c < b * c
  {
    if c > 0 {
      MulStrict(a, b, c - 1);
      assert a * c == a * (c - 1) + a;
      assert b * c == b * (c - 1) + b;
    }
  }

  /** Levelling up as long as `can_levelup` holds (the "all" option of `/levelup`). */
  function LevelAll(f: UserFile): UserFile
    decreases MaxLevel - f.level
  {
    if CanLevelup(f) then LevelAll(Leveled(f)) else f
  }

  /**
   * LevelAll stops exactly when no further level-up is affordable or allowed,
   * never passes the level cap, and moves every banana it spends into levels:
   * prestige, ascension and inventory are untouched.
   */
  lemma {:induction false} LevelAllProperties(f: UserFile)
    requires f.level <= MaxLevel
    ensures !CanLevelup(LevelAll(f))
    ensures f.level <= LevelAll(f).level <= MaxLevel
    ensures LevelAll(f).bananas <= f.bananas
    ensures LevelAll(f).prestige == f.prestige && LevelAll(f).ascension == f.ascension
    ensures LevelAll(f).inventory == f.inventory
    ensures LevelAll(f).level == f.level <==> !CanLevelup(f)
    decreases MaxLevel - f.level
  {
    if CanLevelup(f) {
      LevelAllProperties(Leveled(f));
    }
  }

  class UserStore {
    /** Every user that has a record; a missing user reads as NewUser. */
    var files: map<UserId, UserFile>
    /** The number of items after which an inventory counts as full. */
    const capacity: nat

    constructor (capacity: nat)
      ensures files == map[] && this.capacity == capacity
    {
      files := map[];
      this.capacity := capacity;
    }

    /** `UserValues::get`: the stored record, or a new one for an unseen user. */
    function Get(id: UserId): UserFile
      reads this
    {
      if id in files then files[id] else NewUser
    }

    method Put(id: UserId, f: UserFile)
      modifies this
      ensures files == old(files)[id := f]
      ensures Get(id) == f
      ensures forall u :: u != id ==> Get(u) == old(Get(u))
    {
      files := files[id := f];
    }

    method AddBananas(id: UserId, n: nat)
      modifies this
      ensures Get(id) == old(Get(id)).(bananas := old(Get(id)).bananas + n)
      ensures forall u :: u != id ==> Get(u) == old(Get(u))
    {
      var f := Get(id);
      Put(id, f.(bananas := f.bananas + n));
    }

    /** `remove_bananas`: every caller checks the balance first, as the u64 subtraction requires. */
    method RemoveBananas(id: UserId, n: nat)
      requires Get(id).bananas >= n
      modifies this
      ensures Get(id) == old(Get(id)).(bananas := old(Get(id)).bananas - n)
      ensures forall u :: u != id ==> Get(u) == old(Get(u))
    {
      var f := Get(id);
      Put(id, f.(bananas := f.bananas - n));
    }

    method Levelup(id: UserId)
      requires Get(id).bananas >= LevelupCost(Get(id))
      modifies this
      ensures Get(id) == Leveled(old(Get(id)))
      ensures forall u :: u != id ==> Get(u) == old(Get(u))
    {
      Put(id, Leveled(Get(id)));
    }

    /** `prestige`: returns the new prestige. */
    method Prestige(id: UserId) returns (p: nat)
      modifies this
      ensures Get(id) == Prestiged(old(Get(id))) && p == Get(id).prestige
      ensures forall u :: u != id ==> Get(u) == old(Get(u))
    {
      Put(id, Prestiged(Get(id)));
      p := Get(id).prestige;
    }

    method Ascend(id: UserId)
      requires Get(id).bananas >= AscensionCost
      modifies this
      ensures Get(id) == Ascended(old(Get(id)))
      ensures forall u :: u != id ==> Get(u) == old(Get(u))
    {
      Put(id, Ascended(Get(id)));
    }

    /** `add_item`: the item is appended to the list. */
    method AddItem(id: UserId, item: InventoryItem)
      modifies this
      ensures Get(id) == old(Get(id)).(inventory := old(Get(id)).inventory.(items := old(Get(id)).inventory.items + [item]))
      ensures forall u :: u != id ==> Get(u) == old(Get(u))
    {
      var f := Get(id);
      Put(id, f.(inventory := f.inventory.(items := f.inventory.items + [item])));
    }

    /** `remove_item_index`: the slot's item leaves the list, the others keep their order. */
    method RemoveItemIndex(id: UserId, slot: nat)
      requires slot < |Get(id).inventory.items|
      modifies this
      ensures Get(id) == old(Get(id)).(inventory := old(Get(id)).inventory.(items := RemoveAt(old(Get(id)).inventory.items, slot)))
      ensures forall u :: u != id ==> Get(u) == old(Get(u))
    {
      var f := Get(id);
      Put(id, f.(inventory := f.inventory.(items := RemoveAt(f.inventory.items, slot))));
    }

    /** `add_super_nanners`, wrapping at 2^64 as a release build does. */
    method AddSuperNanners(id: UserId, n: U64)
      modifies this
      ensures Get(id).inventory.superNanners == WrappingAdd(old(Get(id)).inventory.superNanners, n, U64_LIMIT)
      ensures Get(id) == old(Get(id)).(inventory := Get(id).inventory)
      ensures Get(id).inventory == old(Get(id)).inventory.(superNanners := Get(id).inventory.superNanners)
      ensures forall u :: u != id ==> Get(u) == old(Get(u))
    {
      var f := Get(id);
      Put(id, f.(inventory := f.inventory.(superNanners := WrappingAdd(f.inventory.superNanners, n, U64_LIMIT))));
    }

    /** `remove_super_nanners`, wrapping below zero as a release build does. */
    method RemoveSuperNanners(id: UserId, n: U64)
      modifies this
      ensures Get(id).inventory.superNanners == WrappingSub(old(Get(id)).inventory.superNanners, n, U64_LIMIT)
      ensures Get(id) == old(Get(id)).(inventory := Get(id).inventory)
      ensures Get(id).inventory == old(Get(id)).inventory.(superNanners := Get(id).inventory.superNanners)
      ensures forall u :: u != id ==> Get(u) == old(Get(u))
    {
      var f := Get(id);
      Put(id, f.(inventory := f.inventory.(superNanners := WrappingSub(f.inventory.superNanners, n, U64_LIMIT))));
    }
  }
}
