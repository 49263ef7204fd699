/**
 * A battle against a creature met while mining: the player attacks, uses
 * inventory items, prays once, tries to run or surrenders, and the creature
 * strikes back after each action.  Health values are u32 counters.
 */
module MineBattles {
  import opened Wrappers
  import opened Items
  import opened UserFiles
  import opened MineData
  import Text

  /** What a win pays out: sludge (bananas), an item or super nanners. */
  datatype Reward =
    | Sludge(bananas: nat)
    | ItemFound(item: InventoryItem, kept: bool)
    | SuperNannersFound(amount: nat)

  /** The outcome of one message; the embed texts are left out. */
  datatype MineReply =
    | Panicked
    | NotUnderstood
    | Exchanged(damage: nat, enemyDamage: nat)
    | Victory(reward: Reward)
    | Defeat(cost: nat)
    | InvalidItem
    | Healed(amount: nat)
    | TomeExchanged(damage: nat, enemyDamage: nat)
    | MustEquip
    | CannotUse
    | AlreadyPrayed
    | Prayed(heal: nat)
    | Fled
    | FailedToFlee(enemyDamage: nat)

  /** Only a win, a defeat and a successful flight end the battle. */
  predicate Ends(r: MineReply)
  {
    r.Victory? || r.Defeat? || r.Fled?
  }

  /** The random numbers one message may consume, each mapped onto its own range. */
  datatype MineDraws = MineDraws(damage: nat, enemyDamage: nat, rewardKind: nat, rewardAmount: nat,
                                 itemIndex: nat, cost: nat, flee: nat)

  /** The health a pray restores to. */
  const PrayHealth: nat := 200

  /** The enemy's ranges are non-empty u32 ranges, as `gen_range` needs. */
  predicate EnemyFits(e: Enemy)
  {
    e.health.lo <= e.health.hi < U32_LIMIT &&
    e.damage.lo <= e.damage.hi < U32_LIMIT &&
    e.drops.sludge.lo <= e.drops.sludge.hi < U32_LIMIT
  }

  /** The starting enemy health: the roll rounded down to a multiple of 100. */
  function StartingHealth(rolled: nat): (h: nat)
    ensures h % 100 == 0
    ensures h <= rolled < h + 100
  {
    rolled - rolled % 100
  }

  /**
   * The bananas a sludge reward pays: the u32 product of the sludge value
   * and the roll, scaled by the hundreds of the enemy's initial health when
   * the enemy scales its reward.
   */
  function SludgeReward(sludgeValue: nat, initialHealth: nat, scaling: bool, roll: nat): (r: nat)
    ensures r < U32_LIMIT
    ensures scaling && (initialHealth / 100) * roll < U32_LIMIT && sludgeValue * ((initialHealth / 100) * roll) < U32_LIMIT ==>
      r == sludgeValue * ((initialHealth / 100) * roll)
    ensures !scaling && sludgeValue * roll < U32_LIMIT ==> r == sludgeValue * roll
  {
    if scaling then (sludgeValue * (((initialHealth / 100) * roll) % U32_LIMIT)) % U32_LIMIT
    else (sludgeValue * roll) % U32_LIMIT
  }

  /** The bananas a defeat costs: a roll between a fifth and a half of the balance. */
  function DeathCost(balance: nat, pick: nat): (c: nat)
    ensures balance / 5 <= c <= balance / 2
    ensures c <= balance
  {
    Roll(balance / 5, balance / 2, pick)
  }

  /** The damage of an attack: the equipped weapon's range, otherwise 0..=10; None when a weapon's range is empty. */
  function AttackRoll(equipped: Option<InventoryItem>, pick: nat): (r: Option<nat>)
    ensures equipped.Some? && equipped.value.Weapon? ==>
      (r.Some? <==> equipped.value.damageLo <= equipped.value.damageHi) &&
      (r.Some? ==> equipped.value.damageLo <= r.value <= equipped.value.damageHi)
    ensures !(equipped.Some? && equipped.value.Weapon?) ==> r.Some? && r.value <= 10
  {
    match equipped
    case Some(Weapon(_, lo, hi)) => if lo <= hi then Some(Roll(lo, hi, pick)) else None
    case _ => Some(Roll(0, 10, pick))
  }

  /** The index a drop-table draw lands on. */
  function DropIndex(t: DropTable, pick: nat): (i: nat)
    ensures |t.items| == 0 || i < |t.items|
  {
    if |t.items| == 0 then 0 else pick % |t.items|
  }

  /** Using `item` uses it up: a potion, or a tome with a non-empty range other than the "Developer Tome". */
  predicate UsedUp(item: InventoryItem)
  {
    item.HealingPotion? || (item.SpellTome? && item.damageLo <= item.damageHi && item.name != "Developer Tome")
  }

  /** A tome wins when its rolled damage exceeds the enemy's health. */
  predicate TomeWins(item: InventoryItem, d: MineDraws, enemyHealth: nat)
  {
    item.SpellTome? && item.damageLo <= item.damageHi && Roll(item.damageLo, item.damageHi, d.damage) > enemyHealth
  }

  /** What a win appends to the inventory: the drop, when the kind draw picks an item and there is room. */
  function Loot(e: Enemy, d: MineDraws, inv: Inventory, capacity: nat): (loot: seq<InventoryItem>)
    ensures |loot| <= 1
  {
    if d.rewardKind % 3 == 1 && !IsFull(inv, capacity) then [RandomItem(e.drops, DropIndex(e.drops, d.itemIndex))] else []
  }

  /**
   * The item list after slot `idx` is used: a win's loot is appended
   * first, then the slot is removed when the item is used up.
   */
  function AfterUse(items: seq<InventoryItem>, idx: nat, loot: seq<InventoryItem>): seq<InventoryItem>
    requires idx < |items|
  {
    if UsedUp(items[idx]) then RemoveAt(items + loot, idx) else items + loot
  }

  /** Using a slot takes out exactly one copy of a used-up item and nothing of any other item. */
  lemma AfterUseAccounting(items: seq<InventoryItem>, idx: nat, loot: seq<InventoryItem>)
    requires idx < |items|
    ensures UsedUp(items[idx]) ==>
      multiset(AfterUse(items, idx, loot)) + multiset{items[idx]} == multiset(items) + multiset(loot) &&
      |AfterUse(items, idx, loot)| == |items| + |loot| - 1
    ensures !UsedUp(items[idx]) ==> AfterUse(items, idx, loot) == items + loot
    ensures forall k :: 0 <= k < idx ==> AfterUse(items, idx, loot)[k] == items[k]
  {
    assert (items + loot)[idx] == items[idx];
  }


  /** A pray heals by the u32 difference to 200, which lands on exactly 200 from any u32 health. */
  lemma PrayLandsOn200(health: nat)
    requires health < U32_LIMIT
    ensures (health + WrappingSub(PrayHealth, health, U32_LIMIT)) % U32_LIMIT == PrayHealth
    ensures health <= PrayHealth ==> WrappingSub(PrayHealth, health, U32_LIMIT) == PrayHealth - health
  {
    if health > PrayHealth {
      assert health + WrappingSub(PrayHealth, health, U32_LIMIT) == U32_LIMIT + PrayHealth;
    }
  }

  class MineBattle {
    const enemy: Enemy
    const sludgeValue: nat
    const initialHealth: nat
    var enemyHealth: nat
    var playerHealth: nat
    var hasPrayed: bool
    var thumbnail: string

    predicate Valid()
      reads this
    {
      EnemyFits(enemy) && enemyHealth < U32_LIMIT && playerHealth < U32_LIMIT
    }

    /** `MineBattle::new`: `pick` drives the roll of the enemy's health. */
    constructor (enemy: Enemy, sludgeValue: nat, pick: nat)
      requires EnemyFits(enemy)
      ensures Valid()
      ensures this.enemy == enemy && this.sludgeValue == sludgeValue
      ensures enemyHealth == StartingHealth(Roll(enemy.health.lo, enemy.health.hi, pick))
      ensures initialHealth == enemyHealth
      ensures playerHealth == 100 && !hasPrayed && thumbnail == enemy.thumbnail
    {
      var rolled := Roll(enemy.health.lo, enemy.health.hi, pick);
      var h := rolled - rolled % 100;
      this.enemy := enemy;
      this.sludgeValue := sludgeValue;
      enemyHealth := h;
      initialHealth := h;
      playerHealth := 100;
      hasPrayed := false;
      thumbnail := enemy.thumbnail;
    }

    /** `attack`, once the damage is rolled: the enemy's health falls and stops at zero. */
    method Attack(damage: nat)
      requires Valid()
      modifies this
      ensures Valid()
      ensures enemyHealth == Damaged(old(enemyHealth), damage)
      ensures playerHealth == old(playerHealth) && hasPrayed == old(hasPrayed) && thumbnail == old(thumbnail)
    {
      if damage > enemyHealth {
        enemyHealth := 0;
        return;
      }
      enemyHealth := enemyHealth - damage;
    }

    /** `enemy_turn`: the enemy rolls its damage and the player's health falls, stopping at zero. */
    method EnemyTurn(pick: nat) returns (damage: nat)
      requires Valid()
      modifies this
      ensures Valid()
      ensures enemy.damage.lo <= damage <= enemy.damage.hi && damage == Roll(enemy.damage.lo, enemy.damage.hi, pick)
      ensures playerHealth == Damaged(old(playerHealth), damage)
      ensures enemyHealth == old(enemyHealth) && hasPrayed == old(hasPrayed) && thumbnail == old(thumbnail)
    {
      damage := Roll(enemy.damage.lo, enemy.damage.hi, pick);
      if damage > playerHealth {
        playerHealth := 0;
        return;
      }
      playerHealth := playerHealth - damage;
    }

    /** `heal_player`: no cap at 100, only the u32 wrap-around. */
    method HealPlayer(amount: nat)
      requires Valid()
      modifies this
      ensures Valid()
      ensures playerHealth == (old(playerHealth) + amount) % U32_LIMIT
      ensures old(playerHealth) + amount < U32_LIMIT ==> playerHealth == old(playerHealth) + amount
      ensures enemyHealth == old(enemyHealth) && hasPrayed == old(hasPrayed) && thumbnail == old(thumbnail)
    {
      playerHealth := (playerHealth + amount) % U32_LIMIT;
    }

    /** `handle_win`: the kind draw picks sludge, an item or super nanners for the user. */
    method HandleWin(user: UserId, store: UserStore, d: MineDraws) returns (reply: MineReply)
      requires Valid()
      modifies store
      ensures reply.Victory?
      ensures forall u :: u != user ==> store.Get(u) == old(store.Get(u))
      ensures reply.reward.Sludge? <==> d.rewardKind % 3 == 0
      ensures reply.reward.ItemFound? <==> d.rewardKind % 3 == 1
      ensures reply.reward.Sludge? ==>
        var roll := Roll(enemy.drops.sludge.lo, enemy.drops.sludge.hi, d.rewardAmount);
        reply.reward.bananas == SludgeReward(sludgeValue, initialHealth, enemy.rewardScaling, roll) &&
        store.Get(user) == old(store.Get(user)).(bananas := old(store.Get(user)).bananas + reply.reward.bananas)
      ensures reply.reward.ItemFound? ==>
        reply.reward.item == RandomItem(enemy.drops, DropIndex(enemy.drops, d.itemIndex)) &&
        (reply.reward.kept <==> !IsFull(old(store.Get(user)).inventory, store.capacity)) &&
        store.Get(user) == if reply.reward.kept then
          old(store.Get(user)).(inventory := old(store.Get(user)).inventory.(items := old(store.Get(user)).inventory.items + [reply.reward.item]))
        else old(store.Get(user))
      ensures reply.reward.SuperNannersFound? ==>
        1 <= reply.reward.amount <= 5 &&
        store.Get(user) == old(store.Get(user)).(inventory := old(store.Get(user)).inventory.(superNanners :=
          WrappingAdd(old(store.Get(user)).inventory.superNanners, reply.reward.amount, U64_LIMIT)))
    ensures store.Get(user).inventory.items ==
      old(store.Get(user)).inventory.items + Loot(enemy, d, old(store.Get(user)).inventory, store.capacity)
    {
      var kind := d.rewardKind % 3;
      if kind == 0 {
        var roll := Roll(enemy.drops.sludge.lo, enemy.drops.sludge.hi, d.rewardAmount);
        var reward := SludgeReward(sludgeValue, initialHealth, enemy.rewardScaling, roll);
        store.AddBananas(user, reward);
        reply := Victory(Sludge(reward));
      } else if kind == 1 {
        var item := RandomItem(enemy.drops, DropIndex(enemy.drops, d.itemIndex));
        if IsFull(store.Get(user).inventory, store.capacity) {
          reply := Victory(ItemFound(item, false));
          return;
        }
        store.AddItem(user, item);
        reply := Victory(ItemFound(item, true));
      } else {
        var nanners := Roll(1, 5, d.rewardAmount);
        store.AddSuperNanners(user, nanners);
        reply := Victory(SuperNannersFound(nanners));
      }
    }

    /** `handle_player_death`: the enemy steals the rolled cost, which never exceeds the balance. */
    method HandlePlayerDeath(user: UserId, store: UserStore, pick: nat) returns (reply: MineReply)
      modifies store
      ensures reply == Defeat(DeathCost(old(store.Get(user)).bananas, pick))
      ensures store.Get(user) == old(store.Get(user)).(bananas := old(store.Get(user)).bananas - reply.cost)
      ensures forall u :: u != user ==> store.Get(u) == old(store.Get(u))
    {
      var balance := store.Get(user).bananas;
      var cost := DeathCost(balance, pick);
      // the source removes the whole balance when it is below the cost, which the bounds rule out
      var removed := if balance < cost then balance else cost;
      store.RemoveBananas(user, removed);
      reply := Defeat(cost);
    }

    /**
     * `use_item`: potions heal, tomes strike and let the enemy answer, the
     * "Developer Tome" strikes without being used up.  A tome wins only when
     * its damage exceeds the enemy's health; a hit of exactly that health
     * leaves the enemy at zero and lets it strike back.
     */
    method UseItem(item: InventoryItem, user: UserId, store: UserStore, d: MineDraws)
        returns (used: bool, reply: MineReply, ended: bool)
      requires Valid()
      modifies this, store
      ensures Valid()
      ensures hasPrayed == old(hasPrayed)
      ensures forall u :: u != user ==> store.Get(u) == old(store.Get(u))
      ensures ended <==> reply.Victory?
      ensures reply.Victory? ==> item.SpellTome? && enemyHealth == 0 && playerHealth == old(playerHealth)
      ensures !reply.Victory? ==> store.Get(user) == old(store.Get(user))
      ensures |old(store.Get(user)).inventory.items| <= |store.Get(user).inventory.items|
      ensures used <==> UsedUp(item)
      ensures reply.Victory? <==> TomeWins(item, d, old(enemyHealth))
      ensures store.Get(user).inventory.items == old(store.Get(user)).inventory.items +
        (if TomeWins(item, d, old(enemyHealth)) then Loot(enemy, d, old(store.Get(user)).inventory, store.capacity) else [])
      ensures item.HealingPotion? ==>
        reply == Healed(item.health) && playerHealth == (old(playerHealth) + item.health) % U32_LIMIT &&
        enemyHealth == old(enemyHealth) && thumbnail == old(thumbnail)
      ensures item.SpellTome? && item.damageLo > item.damageHi ==>
        reply == Panicked && enemyHealth == old(enemyHealth) && playerHealth == old(playerHealth)
      ensures item.SpellTome? && item.damageLo <= item.damageHi ==>
        var damage := Roll(item.damageLo, item.damageHi, d.damage);
        thumbnail == (if item.name == "Developer Tome" then "developer_tome.jpeg" else old(thumbnail)) &&
        (damage > old(enemyHealth) ==> reply.Victory?) &&
        (damage <= old(enemyHealth) ==>
          enemyHealth == old(enemyHealth) - damage &&
          reply == TomeExchanged(damage, Roll(enemy.damage.lo, enemy.damage.hi, d.enemyDamage)) &&
          playerHealth == Damaged(old(playerHealth), reply.enemyDamage))
      ensures item.Weapon? ==> reply == MustEquip
      ensures !item.HealingPotion? && !item.SpellTome? && !item.Weapon? ==> reply == CannotUse
      ensures !item.HealingPotion? && !item.SpellTome? ==>
        enemyHealth == old(enemyHealth) && playerHealth == old(playerHealth) && thumbnail == old(thumbnail)
    {
      ended := false;
      match item {
        case HealingPotion(health) =>
          HealPlayer(health);
          used, reply := true, Healed(health);
        case SpellTome(name, lo, hi) =>
          if lo > hi {
            // `gen_range` panics on an empty range
            used, reply := false, Panicked;
            return;
          }
          var damage := Roll(lo, hi, d.damage);
          used := name != "Developer Tome";
          if !used {
            thumbnail := "developer_tome.jpeg";
          }
          if damage > enemyHealth {
            enemyHealth := 0;
            reply := HandleWin(user, store, d);
            ended := true;
            return;
          }
          enemyHealth := enemyHealth - damage;
          var hit := EnemyTurn(d.enemyDamage);
          reply := TomeExchanged(damage, hit);
        case Weapon(_, _, _) =>
          used, reply := false, MustEquip;
        case _ =>
          used, reply := false, CannotUse;
      }
    }

    /** "attack": the user's equipped item sets the damage; a kill wins, otherwise the enemy strikes back. */
    method AttackMessage(user: UserId, store: UserStore, d: MineDraws) returns (reply: MineReply, ended: bool)
      requires Valid()
      modifies this, store
      ensures Valid()
      ensures hasPrayed == old(hasPrayed) && thumbnail == old(thumbnail)
      ensures forall u :: u != user ==> store.Get(u) == old(store.Get(u))
      ensures ended <==> Ends(reply)
      ensures var roll := AttackRoll(old(store.Get(user)).inventory.equipped, d.damage);
        (roll.None? ==> (reply == Panicked && enemyHealth == old(enemyHealth) && playerHealth == old(playerHealth) &&
          store.Get(user) == old(store.Get(user)))) &&
        (roll.Some? ==>
          enemyHealth == Damaged(old(enemyHealth), roll.value) &&
          (enemyHealth == 0 ==> reply.Victory? && playerHealth == old(playerHealth)) &&
          (enemyHealth > 0 ==>
            var hit := Roll(enemy.damage.lo, enemy.damage.hi, d.enemyDamage);
            playerHealth == Damaged(old(playerHealth), hit) &&
            (playerHealth == 0 ==> (reply == Defeat(DeathCost(old(store.Get(user)).bananas, d.cost)) &&
              store.Get(user) == old(store.Get(user)).(bananas := old(store.Get(user)).bananas - reply.cost))) &&
            (playerHealth > 0 ==> reply == Exchanged(roll.value, hit) && store.Get(user) == old(store.Get(user)))))
    {
      var roll := AttackRoll(store.Get(user).inventory.equipped, d.damage);
      if roll.None? {
        reply, ended := Panicked, false;
        return;
      }
      Attack(roll.value);
      if enemyHealth == 0 {
        reply := HandleWin(user, store, d);
        ended := true;
        return;
      }
      var hit := EnemyTurn(d.enemyDamage);
      if playerHealth == 0 {
        reply := HandlePlayerDeath(user, store, d.cost);
        ended := true;
        return;
      }
      reply, ended := Exchanged(roll.value, hit), false;
    }

    /** The item in slot `idx` is used; a used item leaves the inventory, and a player at zero health is defeated. */
    method UseSlot(idx: nat, user: UserId, store: UserStore, d: MineDraws) returns (reply: MineReply, ended: bool)
      requires Valid() && idx < |store.Get(user).inventory.items|
      modifies this, store
      ensures Valid()
      ensures hasPrayed == old(hasPrayed)
      ensures forall u :: u != user ==> store.Get(u) == old(store.Get(u))
      ensures ended <==> Ends(reply)
      ensures !Ends(reply) ==> enemyHealth <= old(enemyHealth)
      ensures reply.Defeat? ==> playerHealth == 0
      ensures var items := old(store.Get(user)).inventory.items;
        reply.Healed? ==> items[idx].HealingPotion? && store.Get(user).inventory.items == RemoveAt(items, idx)
      ensures reply == MustEquip || reply == CannotUse ==> store.Get(user) == old(store.Get(user))
      ensures var item := old(store.Get(user)).inventory.items[idx];
        item.Weapon? && old(playerHealth) > 0 ==> reply == MustEquip
      ensures var item := old(store.Get(user)).inventory.items[idx];
        !item.HealingPotion? && !item.SpellTome? && !item.Weapon? && old(playerHealth) > 0 ==> reply == CannotUse
      ensures var items := old(store.Get(user)).inventory.items;
        store.Get(user).inventory.items == AfterUse(items, idx,
          if TomeWins(items[idx], d, old(enemyHealth)) then Loot(enemy, d, old(store.Get(user)).inventory, store.capacity) else [])
      ensures TomeWins(old(store.Get(user)).inventory.items[idx], d, old(enemyHealth)) ==> (reply.Victory? <==> old(playerHealth) > 0)
      ensures !reply.Victory? && !reply.Defeat? ==>
        store.Get(user) == old(store.Get(user)).(inventory := old(store.Get(user)).inventory.(items := store.Get(user).inventory.items))
      ensures reply.Defeat? && !TomeWins(old(store.Get(user)).inventory.items[idx], d, old(enemyHealth)) ==>
        reply == Defeat(DeathCost(old(store.Get(user)).bananas, d.cost)) &&
        store.Get(user) == old(store.Get(user)).(bananas := old(store.Get(user)).bananas - reply.cost,
                                                 inventory := old(store.Get(user)).inventory.(items := store.Get(user).inventory.items))
    {
      var items := store.Get(user).inventory.items;
      var used;
      used, reply, ended := UseItem(items[idx], user, store, d);
      if used {
        store.RemoveItemIndex(user, idx);
      }
      if playerHealth == 0 {
        reply := HandlePlayerDeath(user, store, d.cost);
        ended := true;
      }
    }

    /** "item <slot>": the slot is the parsed u8 minus one. */
    method ItemMessage(words: seq<string>, user: UserId, store: UserStore, d: MineDraws) returns (reply: MineReply, ended: bool)
      requires Valid()
      modifies this, store
      ensures Valid()
      ensures hasPrayed == old(hasPrayed)
      ensures forall u :: u != user ==> store.Get(u) == old(store.Get(u))
      ensures ended <==> Ends(reply)
      ensures !Ends(reply) ==> enemyHealth <= old(enemyHealth)
      ensures reply.Defeat? ==> playerHealth == 0
      ensures |words| < 2 ==>
        reply == Panicked && store.Get(user) == old(store.Get(user)) &&
        enemyHealth == old(enemyHealth) && playerHealth == old(playerHealth)
      ensures var items := old(store.Get(user)).inventory.items;
        |words| >= 2 && (Text.ItemSlot(words[1]).None? || Text.ItemSlot(words[1]).value >= |items|) ==>
          reply == InvalidItem && enemyHealth == old(enemyHealth) && playerHealth == old(playerHealth) &&
          store.Get(user) == old(store.Get(user))
      ensures var items := old(store.Get(user)).inventory.items;
        |words| >= 2 && Text.ItemSlot(words[1]).Some? && Text.ItemSlot(words[1]).value < |items| ==>
          var idx := Text.ItemSlot(words[1]).value;
          (reply.Healed? ==> items[idx].HealingPotion? && store.Get(user).inventory.items == RemoveAt(items, idx)) &&
          (reply == MustEquip || reply == CannotUse ==> store.Get(user) == old(store.Get(user))) &&
          (items[idx].Weapon? && old(playerHealth) > 0 ==> reply == MustEquip) &&
          (!items[idx].HealingPotion? && !items[idx].SpellTome? && !items[idx].Weapon? && old(playerHealth) > 0 ==> reply == CannotUse) &&
          var wins := TomeWins(items[idx], d, old(enemyHealth));
          store.Get(user).inventory.items ==
            AfterUse(items, idx, if wins then Loot(enemy, d, old(store.Get(user)).inventory, store.capacity) else []) &&
          (wins ==> (reply.Victory? <==> old(playerHealth) > 0)) &&
          (!reply.Victory? && !reply.Defeat? ==>
            store.Get(user) == old(store.Get(user)).(inventory := old(store.Get(user)).inventory.(items := store.Get(user).inventory.items))) &&
          (reply.Defeat? && !wins ==>
            reply == Defeat(DeathCost(old(store.Get(user)).bananas, d.cost)) &&
            store.Get(user) == old(store.Get(user)).(bananas := old(store.Get(user)).bananas - reply.cost,
                                                     inventory := old(store.Get(user)).inventory.(items := store.Get(user).inventory.items)))
    {
      if |words| < 2 {
        // the second word is unwrapped
        reply, ended := Panicked, false;
        return;
      }
      var slot := Text.ItemSlot(words[1]);
      if slot.None? || slot.value >= |store.Get(user).inventory.items| {
        reply, ended := InvalidItem, false;
        return;
      }
      reply, ended := UseSlot(slot.value, user, store, d);
    }

    /** "pray": once per battle, restores the player to exactly 200 health. */
    method PrayMessage() returns (reply: MineReply)
      requires Valid()
      modifies this
      ensures Valid()
      ensures enemyHealth == old(enemyHealth) && thumbnail == old(thumbnail)
      ensures old(hasPrayed) ==> reply == AlreadyPrayed && playerHealth == old(playerHealth) && hasPrayed
      ensures !old(hasPrayed) ==>
        reply == Prayed(WrappingSub(PrayHealth, old(playerHealth), U32_LIMIT)) &&
        playerHealth == PrayHealth && hasPrayed
    {
      if hasPrayed {
        reply := AlreadyPrayed;
        return;
      }
      var heal := WrappingSub(PrayHealth, playerHealth, U32_LIMIT);
      PrayLandsOn200(playerHealth);
      HealPlayer(heal);
      hasPrayed := true;
      reply := Prayed(heal);
    }

    /** "run": the flight succeeds when the draw over 0..health lands on 0; otherwise the enemy strikes. */
    method RunMessage(user: UserId, store: UserStore, d: MineDraws) returns (reply: MineReply, ended: bool)
      requires Valid()
      modifies this, store
      ensures Valid()
      ensures enemyHealth == old(enemyHealth) && hasPrayed == old(hasPrayed) && thumbnail == old(thumbnail)
      ensures forall u :: u != user ==> store.Get(u) == old(store.Get(u))
      ensures ended <==> Ends(reply)
      ensures old(playerHealth) == 0 ==> reply == Panicked && playerHealth == 0
      ensures old(playerHealth) > 0 && d.flee % old(playerHealth) == 0 ==>
        reply == Fled && playerHealth == old(playerHealth) && store.Get(user) == old(store.Get(user))
      ensures old(playerHealth) > 0 && d.flee % old(playerHealth) != 0 ==>
        var hit := Roll(enemy.damage.lo, enemy.damage.hi, d.enemyDamage);
        playerHealth == Damaged(old(playerHealth), hit) &&
        (playerHealth == 0 ==> (reply == Defeat(DeathCost(old(store.Get(user)).bananas, d.cost)) &&
          store.Get(user) == old(store.Get(user)).(bananas := old(store.Get(user)).bananas - reply.cost))) &&
        (playerHealth > 0 ==> reply == FailedToFlee(hit) && store.Get(user) == old(store.Get(user)))
    {
      if playerHealth == 0 {
        // `gen_range(0..0)` panics
        reply, ended := Panicked, false;
        return;
      }
      if d.flee % playerHealth == 0 {
        reply, ended := Fled, true;
        return;
      }
      var hit := EnemyTurn(d.enemyDamage);
      if playerHealth == 0 {
        reply := HandlePlayerDeath(user, store, d.cost);
        ended := true;
        return;
      }
      reply, ended := FailedToFlee(hit), false;
    }

    /**
     * `handle_message`: `words` is the lower-cased message split on white
     * space and `d` the random numbers it may consume.  The battle ends on
     * a win, a defeat or a successful flight, and only the sender's record
     * changes.
     */
    method HandleMessage(words: seq<string>, user: UserId, store: UserStore, d: MineDraws) returns (reply: MineReply, ended: bool)
      requires Valid()
      modifies this, store
      ensures Valid()
      ensures ended <==> Ends(reply)
      ensures forall u :: u != user ==> store.Get(u) == old(store.Get(u))
      ensures |words| == 0 ==> reply == Panicked && playerHealth == old(playerHealth) && enemyHealth == old(enemyHealth)
      ensures !Ends(reply) ==> enemyHealth <= old(enemyHealth)
      ensures (|words| == 0 || words[0] != "pray") ==> hasPrayed == old(hasPrayed)
      ensures |words| > 0 && words[0] == "pray" ==>
        store.Get(user) == old(store.Get(user)) && enemyHealth == old(enemyHealth) && hasPrayed &&
        (old(hasPrayed) ==> reply == AlreadyPrayed && playerHealth == old(playerHealth)) &&
        (!old(hasPrayed) ==> reply.Prayed? && playerHealth == PrayHealth)
      ensures |words| > 0 && words[0] == "surrender" ==>
        reply == Defeat(DeathCost(old(store.Get(user)).bananas, d.cost)) &&
        store.Get(user) == old(store.Get(user)).(bananas := old(store.Get(user)).bananas - reply.cost) &&
        playerHealth == old(playerHealth) && enemyHealth == old(enemyHealth)
      ensures |words| > 0 && words[0] !in {"attack", "item", "pray", "run", "surrender"} ==>
        reply == NotUnderstood && store.Get(user) == old(store.Get(user)) &&
        playerHealth == old(playerHealth) && enemyHealth == old(enemyHealth)
      ensures |words| > 0 && words[0] == "attack" ==>
        thumbnail == old(thumbnail) &&
        var roll := AttackRoll(old(store.Get(user)).inventory.equipped, d.damage);
        (roll.None? ==> (reply == Panicked && enemyHealth == old(enemyHealth) && playerHealth == old(playerHealth) &&
          store.Get(user) == old(store.Get(user)))) &&
        (roll.Some? ==>
          enemyHealth == Damaged(old(enemyHealth), roll.value) &&
          (enemyHealth == 0 ==> reply.Victory? && playerHealth == old(playerHealth)) &&
          (enemyHealth > 0 ==>
            var hit := Roll(enemy.damage.lo, enemy.damage.hi, d.enemyDamage);
            playerHealth == Damaged(old(playerHealth), hit) &&
            (playerHealth == 0 ==> (reply == Defeat(DeathCost(old(store.Get(user)).bananas, d.cost)) &&
              store.Get(user) == old(store.Get(user)).(bananas := old(store.Get(user)).bananas - reply.cost))) &&
            (playerHealth > 0 ==> reply == Exchanged(roll.value, hit) && store.Get(user) == old(store.Get(user)))))
    ensures |words| == 1 && words[0] == "item" ==>
        reply == Panicked && store.Get(user) == old(store.Get(user)) &&
        enemyHealth == old(enemyHealth) && playerHealth == old(playerHealth)
    ensures |words| >= 2 && words[0] == "item" ==>
        var items := old(store.Get(user)).inventory.items;
        var slot := Text.ItemSlot(words[1]);
        (slot.None? || slot.value >= |items| ==>
          reply == InvalidItem && enemyHealth == old(enemyHealth) && playerHealth == old(playerHealth) &&
          store.Get(user) == old(store.Get(user))) &&
        (slot.Some? && slot.value < |items| ==>
          var wins := TomeWins(items[slot.value], d, old(enemyHealth));
          store.Get(user).inventory.items ==
            AfterUse(items, slot.value, if wins then Loot(enemy, d, old(store.Get(user)).inventory, store.capacity) else []) &&
          (wins ==> (reply.Victory? <==> old(playerHealth) > 0)) &&
          (!reply.Victory? && !reply.Defeat? ==>
            store.Get(user) == old(store.Get(user)).(inventory := old(store.Get(user)).inventory.(items := store.Get(user).inventory.items))) &&
          (reply.Defeat? ==> playerHealth == 0) &&
          (reply.Defeat? && !wins ==>
            reply == Defeat(DeathCost(old(store.Get(user)).bananas, d.cost)) &&
            store.Get(user) == old(store.Get(user)).(bananas := old(store.Get(user)).bananas - reply.cost,
                                                     inventory := old(store.Get(user)).inventory.(items := store.Get(user).inventory.items))) &&
          (items[slot.value].Weapon? && old(playerHealth) > 0 ==> reply == MustEquip) &&
          ((!items[slot.value].HealingPotion? && !items[slot.value].SpellTome? && !items[slot.value].Weapon? &&
            old(playerHealth) > 0) ==> reply == CannotUse))
    ensures |words| > 0 && words[0] == "run" ==>
        enemyHealth == old(enemyHealth) && thumbnail == old(thumbnail) &&
        (old(playerHealth) == 0 ==> reply == Panicked && playerHealth == 0) &&
        (old(playerHealth) > 0 && d.flee % old(playerHealth) == 0 ==>
          reply == Fled && playerHealth == old(playerHealth) && store.Get(user) == old(store.Get(user))) &&
        (old(playerHealth) > 0 && d.flee % old(playerHealth) != 0 ==>
          var hit := Roll(enemy.damage.lo, enemy.damage.hi, d.enemyDamage);
          playerHealth == Damaged(old(playerHealth), hit) &&
          (playerHealth == 0 ==> (reply == Defeat(DeathCost(old(store.Get(user)).bananas, d.cost)) &&
            store.Get(user) == old(store.Get(user)).(bananas := old(store.Get(user)).bananas - reply.cost))) &&
          (playerHealth > 0 ==> reply == FailedToFlee(hit) && store.Get(user) == old(store.Get(user))))
    {
      if |words| == 0 {
        // the first word is unwrapped
        reply, ended := Panicked, false;
        return;
      }
      var first := words[0];
      if first == "attack" {
        reply, ended := AttackMessage(user, store, d);
      } else if first == "item" {
        reply, ended := ItemMessage(words, user, store, d);
      } else if first == "pray" {
        reply := PrayMessage();
        ended := false;
      } else if first == "run" {
        reply, ended := RunMessage(user, store, d);
      } else if first == "surrender" {
        reply := HandlePlayerDeath(user, store, d.cost);
        ended := true;
      } else {
        reply, ended := NotUnderstood, false;
      }
    }
  }
}
