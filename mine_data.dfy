/** The mine's static data: enemies, their drop tables and the mine tiers. */
module MineData {
  import opened Wrappers
  import opened Items

  /** An inclusive integer range `lo..=hi`. */
  datatype Range = Range(lo: nat, hi: nat)

  predicate InRange(r: Range, x: nat)
  {
    r.lo <= x <= r.hi
  }

  datatype DropTable = DropTable(sludge: Range, superNanners: Option<Range>, items: seq<InventoryItem>)

  /** The item dropped by an empty table. */
  const DefaultDrop := HealingPotion(10)

  /** `random_item`: `index` is the uniform draw over the table's items. */
  function RandomItem(t: DropTable, index: nat): (item: InventoryItem)
    requires |t.items| == 0 || index < |t.items|
    ensures |t.items| == 0 ==> item == DefaultDrop
    ensures |t.items| > 0 ==> item in t.items
  {
    if |t.items| == 0 then DefaultDrop else t.items[index]
  }

  datatype Enemy = Enemy(
    name: string,
    health: Range,
    damage: Range,
    rewardScaling: bool,
    thumbnail: string,
    drops: DropTable)

  datatype MineTier = MineTier(
    requiredSuperDrillTier: nat,
    sludgeWorth: nat,
    creatures: seq<Enemy>,
    dropTable: DropTable)

  /** `random_enemy`: the draw ranges over the creatures; an empty list panics in the source. */
  function RandomEnemy(t: MineTier, index: nat): (e: Enemy)
    requires index < |t.creatures|
    ensures e in t.creatures
  {
    t.creatures[index]
  }

  datatype Mine = Mine(tiers: map<nat, MineTier>)

  /** `get_tier` unwraps the lookup, so only a loaded tier may be asked for. */
  function GetTier(m: Mine, tier: nat): (t: MineTier)
    requires tier in m.tiers
    ensures t in m.tiers.Values
  {
    m.tiers[tier]
  }
}
