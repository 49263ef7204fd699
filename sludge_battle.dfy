/**
 * The sludge monster boss fight: the player attacks or tries to run, the
 * monster strikes back, and a win or a defeat moves bananas.  Health values
 * are u32 counters.
 */
module SludgeBattles {
  import opened Wrappers
  import opened UserFiles

  /** The outcome of one message; the embed texts are left out. */
  datatype SludgeReply =
    | Panicked
    | NotUnderstood
    | Exchanged(damage: nat, bossDamage: nat)
    | Victory(reward: nat)
    | Defeat(cost: nat)
    | Fled
    | FailedToFlee(bossDamage: nat)

  /** Only a win, a defeat and a successful flight end the fight. */
  predicate Ends(r: SludgeReply)
  {
    r.Victory? || r.Defeat? || r.Fled?
  }

  /** The random numbers one message may consume. */
  datatype SludgeDraws = SludgeDraws(damage: nat, bossDamage: nat, reward: nat, cost: nat, flee: nat)

  /** The thumbnail for a boss of the given health. */
  function ThumbnailFor(bossHealth: nat): string
  {
    if bossHealth > 400 then "large_sludge.jpeg"
    else if bossHealth > 200 then "medium_sludge.jpeg"
    else "small_sludge.jpeg"
  }

  /** The top of the reward range, in thousands of bananas, for a boss of that initial health. */
  function RewardHigh(initialHealth: nat): (high: nat)
    ensures high in {100, 75, 50, 25, 10}
    ensures high >= 10
  {
    if initialHealth == 500 then 100
    else if initialHealth == 400 then 75
    else if initialHealth == 300 then 50
    else if initialHealth == 200 then 25
    else 10
  }

  /** The win reward: a thousand times a roll between a fifth of the top and the top. */
  function WinReward(initialHealth: nat, pick: nat): (r: nat)
    ensures r % 1000 == 0
    ensures (RewardHigh(initialHealth) / 5) * 1000 <= r <= RewardHigh(initialHealth) * 1000
  {
    var high := RewardHigh(initialHealth);
    Roll(high / 5, high, pick) * 1000
  }

  /** The defeat cost: a multiple of 100 between 100 and 2000. */
  function DefeatCost(pick: nat): (c: nat)
    ensures c % 100 == 0 && 100 <= c <= 2000
  {
    Roll(1, 20, pick) * 100
  }

  /** Every reward of a 500-health boss lies between 20 000 and 100 000 bananas. */
  lemma BiggestBossReward(pick: nat)
    ensures 20_000 <= WinReward(500, pick) <= 100_000
  {
  }

  class SludgeMonsterBattle {
    var bossHealth: nat
    var playerHealth: nat
    var thumbnail: string
    const initialHealth: nat

    predicate Valid()
      reads this
    {
      bossHealth < U32_LIMIT && playerHealth < U32_LIMIT
    }

    /** `SludgeMonsterBattle::new`: `pick` drives the roll of 1..=5 hundreds of boss health. */
    constructor (pick: nat)
      ensures Valid()
      ensures bossHealth == Roll(1, 5, pick) * 100 && bossHealth in {100, 200, 300, 400, 500}
      ensures initialHealth == bossHealth && playerHealth == 100
      ensures thumbnail == ThumbnailFor(bossHealth)
    {
      var h := Roll(1, 5, pick) * 100;
      bossHealth := h;
      playerHealth := 100;
      thumbnail := ThumbnailFor(h);
      initialHealth := h;
    }

    /** `attack`: a roll of 0..=25 off the boss's health, stopping at zero. */
    method Attack(pick: nat) returns (damage: nat)
      requires Valid()
      modifies this
      ensures Valid()
      ensures damage == Roll(0, 25, pick) && damage <= 25
      ensures bossHealth == Damaged(old(bossHealth), damage)
      ensures playerHealth == old(playerHealth) && thumbnail == old(thumbnail)
    {
      damage := Roll(0, 25, pick);
      if damage > bossHealth {
        bossHealth := 0;
        return;
      }
      bossHealth := bossHealth - damage;
    }

    /** `boss_turn`: a roll of 0..=10 off the player's health, stopping at zero. */
    method BossTurn(pick: nat) returns (damage: nat)
      requires Valid()
      modifies this
      ensures Valid()
      ensures damage == Roll(0, 10, pick) && damage <= 10
      ensures playerHealth == Damaged(old(playerHealth), damage)
      ensures bossHealth == old(bossHealth) && thumbnail == old(thumbnail)
    {
      damage := Roll(0, 10, pick);
      if damage > playerHealth {
        playerHealth := 0;
        return;
      }
      playerHealth := playerHealth - damage;
    }

    /** `heal_player`: the u32 sum, capped at 100. */
    method HealPlayer(amount: nat)
      requires Valid()
      modifies this
      ensures Valid()
      ensures playerHealth <= 100
      ensures playerHealth == if (old(playerHealth) + amount) % U32_LIMIT > 100 then 100 else (old(playerHealth) + amount) % U32_LIMIT
      ensures old(playerHealth) + amount < U32_LIMIT && old(playerHealth) <= 100 ==> old(playerHealth) <= playerHealth
      ensures bossHealth == old(bossHealth) && thumbnail == old(thumbnail)
    {
      playerHealth := (playerHealth + amount) % U32_LIMIT;
      if playerHealth > 100 {
        playerHealth := 100;
      }
    }

    /** `handle_player_death`: the cost is reported in full, but at most the balance is taken. */
    method HandlePlayerDeath(user: UserId, store: UserStore, pick: nat) returns (reply: SludgeReply)
      modifies store
      ensures reply == Defeat(DefeatCost(pick))
      ensures var b := old(store.Get(user)).bananas;
        store.Get(user) == old(store.Get(user)).(bananas := if b < reply.cost then 0 else b - reply.cost)
      ensures forall u :: u != user ==> store.Get(u) == old(store.Get(u))
    {
      var cost := DefeatCost(pick);
      var balance := store.Get(user).bananas;
      if balance < cost {
        store.RemoveBananas(user, balance);
      } else {
        store.RemoveBananas(user, cost);
      }
      reply := Defeat(cost);
    }

    /** "attack": a kill pays the reward for the boss's size, otherwise the boss strikes back. */
    method AttackMessage(user: UserId, store: UserStore, d: SludgeDraws) returns (reply: SludgeReply, ended: bool)
      requires Valid()
      modifies this, store
      ensures Valid()
      ensures ended <==> Ends(reply)
      ensures thumbnail == old(thumbnail)
      ensures forall u :: u != user ==> store.Get(u) == old(store.Get(u))
      ensures var damage := Roll(0, 25, d.damage);
        bossHealth == Damaged(old(bossHealth), damage) &&
        (bossHealth == 0 ==>
          reply == Victory(WinReward(initialHealth, d.reward)) && playerHealth == old(playerHealth) &&
          store.Get(user) == old(store.Get(user)).(bananas := old(store.Get(user)).bananas + reply.reward)) &&
        (bossHealth > 0 ==>
          var hit := Roll(0, 10, d.bossDamage);
          playerHealth == Damaged(old(playerHealth), hit) &&
          (playerHealth == 0 ==> reply == Defeat(DefeatCost(d.cost))) &&
          (playerHealth > 0 ==> reply == Exchanged(damage, hit) && store.Get(user) == old(store.Get(user))))
      ensures reply.Defeat? ==> var b := old(store.Get(user)).bananas;
        store.Get(user) == old(store.Get(user)).(bananas := if b < reply.cost then 0 else b - reply.cost)
    {
      var damage := Attack(d.damage);
      if bossHealth == 0 {
        var reward := WinReward(initialHealth, d.reward);
        store.AddBananas(user, reward);
        reply, ended := Victory(reward), true;
        return;
      }
      var hit := BossTurn(d.bossDamage);
      if playerHealth == 0 {
        reply := HandlePlayerDeath(user, store, d.cost);
        ended := true;
        return;
      }
      reply, ended := Exchanged(damage, hit), false;
    }

    /** "run": the flight succeeds when the draw over 0..health lands on 0; otherwise the boss strikes. */
    method RunMessage(user: UserId, store: UserStore, d: SludgeDraws) returns (reply: SludgeReply, ended: bool)
      requires Valid()
      modifies this, store
      ensures Valid()
      ensures ended <==> Ends(reply)
      ensures bossHealth == old(bossHealth) && thumbnail == old(thumbnail)
      ensures forall u :: u != user ==> store.Get(u) == old(store.Get(u))
      ensures old(playerHealth) == 0 ==> reply == Panicked && playerHealth == 0 && store.Get(user) == old(store.Get(user))
      ensures old(playerHealth) > 0 && d.flee % old(playerHealth) == 0 ==>
        reply == Fled && playerHealth == old(playerHealth) && store.Get(user) == old(store.Get(user))
      ensures old(playerHealth) > 0 && d.flee % old(playerHealth) != 0 ==>
        var hit := Roll(0, 10, d.bossDamage);
        playerHealth == Damaged(old(playerHealth), hit) &&
        (playerHealth == 0 ==> reply == Defeat(DefeatCost(d.cost))) &&
        (playerHealth > 0 ==> reply == FailedToFlee(hit) && store.Get(user) == old(store.Get(user)))
      ensures reply.Defeat? ==> var b := old(store.Get(user)).bananas;
        store.Get(user) == old(store.Get(user)).(bananas := if b < reply.cost then 0 else b - reply.cost)
    {
      if playerHealth == 0 {
        // `gen_range(0..0)` panics
        reply, ended := Panicked, false;
        return;
      }
      if d.flee % playerHealth == 0 {
        reply, ended := Fled, true;
        return;
      }
      var hit := BossTurn(d.bossDamage);
      if playerHealth == 0 {
        reply := HandlePlayerDeath(user, store, d.cost);
        ended := true;
        return;
      }
      reply, ended := FailedToFlee(hit), false;
    }

    /**
     * `handle_message`: the lower-cased, trimmed message must be exactly one
     * of the commands, which is the case when its words are that one word.
     * Only the sender's record changes, and only a win, a defeat or a flight
     * ends the fight.
     */
    method HandleMessage(words: seq<string>, user: UserId, store: UserStore, d: SludgeDraws) returns (reply: SludgeReply, ended: bool)
      requires Valid()
      modifies this, store
      ensures Valid()
      ensures ended <==> Ends(reply)
      ensures forall u :: u != user ==> store.Get(u) == old(store.Get(u))
      ensures bossHealth <= old(bossHealth) && thumbnail == old(thumbnail)
      ensures reply.Victory? ==>
        bossHealth == 0 && words == ["attack"] && store.Get(user).bananas == old(store.Get(user)).bananas + reply.reward
      ensures reply.Defeat? ==> var b := old(store.Get(user)).bananas;
        store.Get(user) == old(store.Get(user)).(bananas := if b < reply.cost then 0 else b - reply.cost)
      ensures words == ["surrender"] ==>
        reply == Defeat(DefeatCost(d.cost)) && bossHealth == old(bossHealth) && playerHealth == old(playerHealth)
      ensures words == ["run"] && reply == Fled ==> store.Get(user) == old(store.Get(user)) && playerHealth == old(playerHealth)
      ensures words !in {["attack"], ["run"], ["surrender"]} ==>
        reply == NotUnderstood && bossHealth == old(bossHealth) && playerHealth == old(playerHealth) &&
        store.Get(user) == old(store.Get(user))
    {
      if words == ["attack"] {
        reply, ended := AttackMessage(user, store, d);
      } else if words == ["run"] {
        reply, ended := RunMessage(user, store, d);
      } else if words == ["surrender"] {
        reply := HandlePlayerDeath(user, store, d.cost);
        ended := true;
      } else {
        reply, ended := NotUnderstood, false;
      }
    }
  }
}
