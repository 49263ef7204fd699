/**
 * The PvP arena: players who each paid the stake take turns attacking one
 * another, with their equipped weapon, a spell tome or bare hands, heal with
 * potions or surrender, until one is left and takes the pot.
 */
module PvP {
  import opened Wrappers
  import opened Items
  import opened UserFiles
  import Text

  /** The modifiers an arena is created with. */
  datatype PvPModFlag =
    | NoItem
    | MaxPlayers(players: nat)
    | CustomStartHealth(health: nat)
    | CustomMaxHealth(health: nat)
    | DamageRange(lo: nat, hi: nat)

  /** The values the flags control. */
  datatype ArenaSettings = ArenaSettings(
    enableItems: bool, maxPlayers: nat, maxHealth: nat, baseHealth: nat, damageLo: nat, damageHi: nat)

  /** Items on, two players, 100 health at the start and at most, bare-hand damage 0 to 10. */
  const Defaults := ArenaSettings(true, 2, 100, 100, 0, 10)

  /** Each flag carries a value of the integer type the source gives it. */
  predicate FlagFits(f: PvPModFlag)
  {
    match f
    case NoItem => true
    case MaxPlayers(n) => n < U64_LIMIT
    case CustomStartHealth(h) => h < U32_LIMIT
    case CustomMaxHealth(h) => h < U32_LIMIT
    case DamageRange(lo, hi) => lo < U32_LIMIT && hi < U32_LIMIT
  }

  predicate SettingsFit(s: ArenaSettings)
  {
    s.maxPlayers < U64_LIMIT && s.maxHealth < U32_LIMIT && s.baseHealth < U32_LIMIT &&
    s.damageLo < U32_LIMIT && s.damageHi < U32_LIMIT
  }

  /** What one flag overrides. */
  function ApplyFlag(s: ArenaSettings, f: PvPModFlag): ArenaSettings
  {
    match f
    case NoItem => s.(enableItems := false)
    case MaxPlayers(n) => s.(maxPlayers := n)
    case CustomStartHealth(h) => s.(baseHealth := h)
    case CustomMaxHealth(h) => s.(maxHealth := h)
    case DamageRange(lo, hi) => s.(damageLo := lo, damageHi := hi)
  }

  /** The flags applied in order to the defaults; flags that fit give settings that fit. */
  function ApplyFlags(flags: seq<PvPModFlag>): (s: ArenaSettings)
    ensures (forall i :: 0 <= i < |flags| ==> FlagFits(flags[i])) ==> SettingsFit(s)
  {
    if flags == [] then Defaults
    else
      assert forall i :: 0 <= i < |flags| - 1 ==> flags[..|flags| - 1][i] == flags[i];
      ApplyFlag(ApplyFlags(flags[..|flags| - 1]), flags[|flags| - 1])
  }

  predicate SameKind(f: PvPModFlag, g: PvPModFlag)
  {
    (f.NoItem? && g.NoItem?) || (f.MaxPlayers? && g.MaxPlayers?) ||
    (f.CustomStartHealth? && g.CustomStartHealth?) || (f.CustomMaxHealth? && g.CustomMaxHealth?) ||
    (f.DamageRange? && g.DamageRange?)
  }

  /** s holds the value flag f asks for. */
  predicate Sets(s: ArenaSettings, f: PvPModFlag)
  {
    match f
    case NoItem => !s.enableItems
    case MaxPlayers(n) => s.maxPlayers == n
    case CustomStartHealth(h) => s.baseHealth == h
    case CustomMaxHealth(h) => s.maxHealth == h
    case DamageRange(lo, hi) => s.damageLo == lo && s.damageHi == hi
  }

  /** s and t agree on the values a flag of f's kind controls. */
  predicate AgreeOn(s: ArenaSettings, t: ArenaSettings, f: PvPModFlag)
  {
    match f
    case NoItem => s.enableItems == t.enableItems
    case MaxPlayers(_) => s.maxPlayers == t.maxPlayers
    case CustomStartHealth(_) => s.baseHealth == t.baseHealth
    case CustomMaxHealth(_) => s.maxHealth == t.maxHealth
    case DamageRange(_, _) => s.damageLo == t.damageLo && s.damageHi == t.damageHi
  }

  /** A flag touches only the values of its own kind. */
  lemma FlagKeepsOthers(s: ArenaSettings, f: PvPModFlag, g: PvPModFlag)
    requires !SameKind(f, g)
    ensures AgreeOn(ApplyFlag(s, f), s, g)
    ensures Sets(s, g) ==> Sets(ApplyFlag(s, f), g)
  {
  }

  /** The last flag of each kind decides that value. */
  lemma {:induction false} LastFlagWins(flags: seq<PvPModFlag>, i: nat)
    requires i < |flags|
    requires forall j :: i < j < |flags| ==> !SameKind(flags[i], flags[j])
    ensures Sets(ApplyFlags(flags), flags[i])
  {
    var init := flags[..|flags| - 1];
    if i < |flags| - 1 {
      assert forall j :: i < j < |init| ==> init[j] == flags[j];
      LastFlagWins(init, i);
      FlagKeepsOthers(ApplyFlags(init), flags[|flags| - 1], flags[i]);
    }
  }

  /** A value no flag mentions keeps its default. */
  lemma {:induction false} UnflaggedDefault(flags: seq<PvPModFlag>, g: PvPModFlag)
    requires forall j :: 0 <= j < |flags| ==> !SameKind(flags[j], g)
    ensures AgreeOn(ApplyFlags(flags), Defaults, g)
  {
    if flags != [] {
      var init := flags[..|flags| - 1];
      assert forall j :: 0 <= j < |init| ==> init[j] == flags[j];
      UnflaggedDefault(init, g);
      FlagKeepsOthers(ApplyFlags(init), flags[|flags| - 1], g);
    }
  }

  /** Items are enabled exactly when no NoItem flag is given. */
  lemma {:induction false} ItemsUnlessNoItem(flags: seq<PvPModFlag>)
    ensures ApplyFlags(flags).enableItems <==> forall j :: 0 <= j < |flags| ==> flags[j] != NoItem
  {
    if flags != [] {
      var init := flags[..|flags| - 1];
      assert forall j :: 0 <= j < |init| ==> init[j] == flags[j];
      ItemsUnlessNoItem(init);
      assert flags == init + [flags[|flags| - 1]];
    }
  }

  datatype Player = Player(user: UserId, health: nat)

  /** `next_turn` on the u16 counter, with the player count truncated to u16 as the source casts it. */
  function NextTurnOf(turn: nat, len: nat): (t: nat)
    requires turn < U16_LIMIT
    ensures t < U16_LIMIT
    ensures len >= 1 ==> t < len
    ensures turn < len < U16_LIMIT ==> t == if turn + 1 < len then turn + 1 else 0
  {
    var t := (turn + 1) % U16_LIMIT;
    if t >= len % U16_LIMIT then 0 else t
  }

  /** The rollback the message handler repeats: back one player, from the first to the last. */
  function RollbackOf(turn: nat, len: nat): (t: nat)
    requires len >= 1
    ensures turn < U16_LIMIT ==> t < U16_LIMIT
    ensures turn < len ==> t < len
  {
    if turn > 0 then turn - 1 else (len - 1) % U16_LIMIT
  }

  /** The rollback and the advance undo each other while the player count fits the u16 counter. */
  lemma RollbackUndoesNextTurn(turn: nat, len: nat)
    requires turn < len < U16_LIMIT
    ensures RollbackOf(NextTurnOf(turn, len), len) == turn
    ensures NextTurnOf(RollbackOf(turn, len), len) == turn
  {
  }

  /** The turn after a message that hands the turn back, from whoever sent it. */
  function RolledBackIf(current: bool, turn: nat, len: nat): nat
    requires len >= 1
  {
    if current then RollbackOf(turn, len) else turn
  }

  /** A potion: the u32 sum, capped at the arena's maximum health. */
  function HealedTo(health: nat, amount: nat, maxHealth: nat): (h: nat)
    ensures h <= maxHealth
    ensures health + amount < U32_LIMIT && health <= maxHealth ==> health <= h
    ensures health + amount < U32_LIMIT && health + amount <= maxHealth ==> h == health + amount
  {
    var sum := (health + amount) % U32_LIMIT;
    if sum > maxHealth then maxHealth else sum
  }

  predicate HasUser(ps: seq<Player>, u: UserId)
  {
    exists i :: 0 <= i < |ps| && ps[i].user == u
  }

  predicate HasOther(ps: seq<Player>, u: UserId)
  {
    exists i :: 0 <= i < |ps| && ps[i].user != u
  }

  lemma HasUserTail(ps: seq<Player>, u: UserId)
    requires HasUser(ps, u) && ps[0].user != u
    ensures HasUser(ps[1..], u)
  {
    var i :| 0 <= i < |ps| && ps[i].user == u;
    assert ps[1..][i - 1].user == u;
  }

  lemma HasOtherTail(ps: seq<Player>, u: UserId)
    requires HasOther(ps, u) && ps[0].user == u
    ensures HasOther(ps[1..], u)
  {
    var i :| 0 <= i < |ps| && ps[i].user != u;
    assert ps[1..][i - 1].user != u;
  }

  /** `position(|p| p.user == u)`: the first seat of u. */
  function Position(ps: seq<Player>, u: UserId): (k: nat)
    requires HasUser(ps, u)
    ensures k < |ps| && ps[k].user == u
    ensures forall j :: 0 <= j < k ==> ps[j].user != u
  {
    if ps[0].user == u then 0
    else
      HasUserTail(ps, u);
      1 + Position(ps[1..], u)
  }

  /** `position(|p| p.user != u)`: the first seat of anyone else. */
  function FirstOther(ps: seq<Player>, u: UserId): (k: nat)
    requires HasOther(ps, u)
    ensures k < |ps| && ps[k].user != u
    ensures forall j :: 0 <= j < k ==> ps[j].user == u
  {
    if ps[0].user != u then 0
    else
      HasOtherTail(ps, u);
      1 + FirstOther(ps[1..], u)
  }

  /** How many seats u holds. */
  function Occurrences(ps: seq<Player>, u: UserId): nat
  {
    if ps == [] then 0
    else Occurrences(ps[..|ps| - 1], u) + (if ps[|ps| - 1].user == u then 1 else 0)
  }

  lemma OccurrencesStep(ps: seq<Player>, i: nat, u: UserId)
    requires i < |ps|
    ensures Occurrences(ps[..i + 1], u) == Occurrences(ps[..i], u) + (if ps[i].user == u then 1 else 0)
  {
    assert ps[..i + 1][..i] == ps[..i];
  }

  function Times(a: nat, k: nat): nat
  {
    a * k
  }

  lemma MulSucc(a: nat, k: nat)
    ensures Times(a, k + 1) == Times(a, k) + a
  {
  }

  /** Whom an attack goes to. */
  datatype TargetChoice = Target(index: nat) | NoMention | NotInArena | NoOpponent

  /**
   * With more than two players the first mention names the target, who must
   * be seated; with two or fewer it is the first other player.
   */
  function ChooseTarget(ps: seq<Player>, user: UserId, mentions: seq<UserId>): (c: TargetChoice)
    ensures c == NoMention <==> |ps| > 2 && |mentions| == 0
    ensures c == NotInArena <==> |ps| > 2 && |mentions| > 0 && !HasUser(ps, mentions[0])
    ensures c == NoOpponent <==> |ps| <= 2 && !HasOther(ps, user)
    ensures c.Target? ==> c.index < |ps| && HasUser(ps, ps[c.index].user) && c.index == Position(ps, ps[c.index].user)
    ensures c.Target? && |ps| > 2 ==> ps[c.index].user == mentions[0]
    ensures c.Target? && |ps| <= 2 ==> ps[c.index].user != user
  {
    if |ps| > 2 then
      if |mentions| == 0 then NoMention
      else if !HasUser(ps, mentions[0]) then NotInArena
      else Target(Position(ps, mentions[0]))
    else if !HasOther(ps, user) then NoOpponent
    else
      var other := ps[FirstOther(ps, user)].user;
      Target(Position(ps, other))
  }

  /** The equipped weapon, when items are enabled and a weapon is equipped. */
  function EquippedWeapon(inv: Inventory, enableItems: bool): (w: Option<InventoryItem>)
    ensures w.Some? ==> w.value.Weapon? && enableItems && inv.equipped == w
  {
    if enableItems && inv.equipped.Some? && inv.equipped.value.Weapon? then inv.equipped else None
  }

  /** What a message to the arena answers; NoReply is the source's `None`. */
  datatype PvPReply =
    | Panicked | NoReply
    | NotEnoughPlayers | ArenaStarted | ArenaClosed | PlayerList
    | NotYourTurn | NoTarget | TargetNotInArena
    | Attacked(target: UserId, damage: nat)
    | Defeated(target: UserId)
    | Won(winner: UserId, pot: nat)
    | ItemsDisabled | InvalidSlot | Healed(health: nat) | ItemUnusable
    | Surrendered

  /** Replies after which the sender keeps the turn. */
  predicate KeepsTurn(r: PvPReply)
  {
    r == PlayerList || r == NoReply || r == NoTarget || r == TargetNotInArena ||
    r == ItemsDisabled || r == InvalidSlot || r.Healed? || r == ItemUnusable
  }

  class PvPArena {
    const stake: nat
    const host: UserId
    var players: seq<Player>
    var turn: nat
    var started: bool
    const settings: ArenaSettings
    var totalPlayers: nat

    /** The counters keep the widths of their Rust types. */
    predicate Valid()
      reads this
    {
      turn < U16_LIMIT && stake < U64_LIMIT && totalPlayers < U64_LIMIT && SettingsFit(settings) &&
      forall i :: 0 <= i < |players| ==> players[i].health < U32_LIMIT
    }

    /** `PvPArena::new`: the flags applied in order; the host is seated with 100 health whatever the flags say. */
    constructor (host: UserId, stake: nat, flags: seq<PvPModFlag>)
      requires stake < U64_LIMIT && forall i :: 0 <= i < |flags| ==> FlagFits(flags[i])
      ensures Valid()
      ensures this.host == host && this.stake == stake && settings == ApplyFlags(flags)
      ensures players == [Player(host, 100)] && turn == 0 && !started && totalPlayers == 1
    {
      var s := Defaults;
      var i := 0;
      while i < |flags|
        invariant 0 <= i <= |flags|
        invariant s == ApplyFlags(flags[..i])
      {
        match flags[i] {
          case NoItem => s := s.(enableItems := false);
          case MaxPlayers(n) => s := s.(maxPlayers := n);
          case CustomStartHealth(h) => s := s.(baseHealth := h);
          case CustomMaxHealth(h) => s := s.(maxHealth := h);
          case DamageRange(lo, hi) => s := s.(damageLo := lo, damageHi := hi);
        }
        assert flags[..i + 1][..i] == flags[..i];
        i := i + 1;
      }
      assert flags[..|flags|] == flags;
      this.stake := stake;
      this.host := host;
      players := [Player(host, 100)];
      turn := 0;
      started := false;
      settings := s;
      totalPlayers := 1;
    }

    /** `add_player`: a new seat with the base health; a join the arena allowed stays within the maximum. */
    method AddPlayer(user: UserId)
      requires Valid()
      modifies this
      ensures Valid()
      ensures players == old(players) + [Player(user, settings.baseHealth)]
      ensures totalPlayers == WrappingAdd(old(totalPlayers), 1, U64_LIMIT)
      ensures turn == old(turn) && started == old(started)
      ensures old(CanJoin()) ==> |players| <= settings.maxPlayers
    {
      players := players + [Player(user, settings.baseHealth)];
      totalPlayers := WrappingAdd(totalPlayers, 1, U64_LIMIT);
    }

    /** `remove_player`: the user's first seat goes, the others keep their order; the source unwraps the search. */
    method RemovePlayer(user: UserId)
      requires Valid() && HasUser(players, user)
      modifies this
      ensures Valid()
      ensures players == RemoveAt(old(players), Position(old(players), user))
      ensures turn == old(turn) && started == old(started) && totalPlayers == old(totalPlayers)
    {
      var index := Position(players, user);
      players := RemoveAt(players, index);
    }

    predicate IsHost(user: UserId)
      reads this
    {
      host == user
    }

    predicate IsRunning()
      reads this
    {
      started
    }

    /** `can_join`: a free seat and a game not yet started. */
    predicate CanJoin()
      reads this
    {
      |players| < settings.maxPlayers && !IsRunning()
    }

    method NextTurn()
      requires Valid()
      modifies this
      ensures Valid()
      ensures turn == NextTurnOf(old(turn), |players|)
      ensures players == old(players) && started == old(started) && totalPlayers == old(totalPlayers)
    {
      var t := (turn + 1) % U16_LIMIT;
      turn := if t >= |players| % U16_LIMIT then 0 else t;
    }

    /** The rollback repeated through `handle_message`: the turn goes back one player. */
    method PreviousTurn()
      requires Valid() && |players| >= 1
      modifies this
      ensures Valid()
      ensures players == old(players) && started == old(started) && totalPlayers == old(totalPlayers)
      ensures turn == RollbackOf(old(turn), |players|)
    {
      if turn > 0 {
        turn := turn - 1;
      } else {
        turn := (|players| - 1) % U16_LIMIT;
      }
    }

    /** The pot: the stake times every player that ever joined, as a wrapping u64 product. */
    function Pot(): nat
      reads this
    {
      (stake * totalPlayers) % U64_LIMIT
    }

    /** `handle_win`: the winner is credited the pot and the arena ends. */
    method HandleWin(winner: UserId, store: UserStore) returns (reply: PvPReply, ended: bool, remove: Option<UserId>)
      modifies store
      ensures reply == Won(winner, Pot()) && ended && remove == None
      ensures store.Get(winner) == old(store.Get(winner)).(bananas := old(store.Get(winner)).bananas + Pot())
      ensures forall u :: u != winner ==> store.Get(u) == old(store.Get(u))
    {
      var pot := (stake * totalPlayers) % U64_LIMIT;
      store.AddBananas(winner, pot);
      reply, ended, remove := Won(winner, pot), true, None;
    }

    /** Credits `amount` to every seat, or to every seat not held by `except` when that is given. */
    method CreditSeats(store: UserStore, amount: nat, except: Option<UserId>)
      modifies store
      ensures forall u: UserId :: store.Get(u) == old(store.Get(u)).(bananas :=
        old(store.Get(u)).bananas + (if except == Some(u) then 0 else Times(amount, Occurrences(players, u))))
    {
      var i := 0;
      while i < |players|
        invariant 0 <= i <= |players|
        invariant forall u: UserId :: store.Get(u) == old(store.Get(u)).(bananas :=
          old(store.Get(u)).bananas + (if except == Some(u) then 0 else Times(amount, Occurrences(players[..i], u))))
      {
        var p := players[i];
        if except != Some(p.user) {
          store.AddBananas(p.user, amount);
        }
        forall u: UserId ensures Times(amount, Occurrences(players[..i + 1], u)) ==
          Times(amount, Occurrences(players[..i], u)) + (if p.user == u then amount else 0) {
          OccurrencesStep(players, i, u);
          MulSucc(amount, Occurrences(players[..i], u));
        }
        i := i + 1;
      }
      assert players[..|players|] == players;
    }

    /**
     * `handle_prestart_message`: the host starts the arena once two players
     * are seated, or ends it and refunds every seat its stake; "kick" only
     * lowers the player total.
     */
    method HandlePrestartMessage(words: seq<string>, author: UserId, store: UserStore) returns (reply: PvPReply, ended: bool)
      requires Valid()
      modifies this, store
      ensures Valid()
      ensures players == old(players) && turn == old(turn)
      ensures ended <==> reply == ArenaClosed
      ensures reply == ArenaClosed ==>
        forall u: UserId :: store.Get(u) ==
          old(store.Get(u)).(bananas := old(store.Get(u)).bananas + Times(stake, Occurrences(players, u)))
      ensures reply != ArenaClosed ==> store.files == old(store.files)
      ensures started <==> old(started) || (reply == ArenaStarted || (reply == Panicked && |words| > 0 && words[0] == "start"))
      ensures totalPlayers == if |words| > 0 && words[0] == "kick" && IsHost(author)
        then WrappingSub(old(totalPlayers), 1, U64_LIMIT) else old(totalPlayers)
      ensures |words| == 0 ==> reply == Panicked
      ensures |words| > 0 ==>
        if words[0] == "start" then
          if !IsHost(author) then reply == NoReply
          else if |players| < 2 then reply == NotEnoughPlayers
          else if turn >= |players| then reply == Panicked
          else reply == ArenaStarted
        else if words[0] == "end" then reply == if IsHost(author) then ArenaClosed else NoReply
        else if words[0] == "list" then reply == PlayerList
        else if words[0] == "leave" then reply == Panicked
        else reply == NoReply
    {
      ended := false;
      if |words| == 0 {
        reply := Panicked;
        return;
      }
      var first := words[0];
      if first == "start" {
        if !IsHost(author) {
          reply := NoReply;
          return;
        }
        if |players| < 2 {
          reply := NotEnoughPlayers;
          return;
        }
        started := true;
        // the announcement indexes the player whose turn it is
        reply := if turn >= |players| then Panicked else ArenaStarted;
      } else if first == "end" {
        if !IsHost(author) {
          reply := NoReply;
          return;
        }
        CreditSeats(store, stake, None);
        reply, ended := ArenaClosed, true;
      } else if first == "list" {
        reply := PlayerList;
      } else if first == "leave" {
        // unfinished in the source
        reply := Panicked;
      } else if first == "kick" {
        if IsHost(author) {
          totalPlayers := WrappingSub(totalPlayers, 1, U64_LIMIT);
        }
        reply := NoReply;
      } else {
        reply := NoReply;
      }
    }

    /** Hits seat k for `damage`; nothing else changes. */
    method Strike(k: nat, damage: nat)
      requires Valid() && k < |players|
      modifies this
      ensures Valid()
      ensures players == old(players)[k := old(players)[k].(health := Damaged(old(players)[k].health, damage))]
      ensures turn == old(turn) && started == old(started) && totalPlayers == old(totalPlayers)
    {
      var p := players[k];
      var h := if damage > p.health then 0 else p.health - damage;
      players := players[k := p.(health := h)];
    }

    /**
     * "attack", after the turn has moved on: the sender must be the current
     * player; the damage comes from the equipped weapon when items are
     * enabled, from the arena's range otherwise.  A kill with two players
     * left wins the arena; a bare-hand kill with more asks for the target's
     * removal, a weapon kill does not.
     */
    method AttackMessage(user: UserId, mentions: seq<UserId>, isTurn: bool, last2: bool, store: UserStore, pick: nat)
        returns (reply: PvPReply, ended: bool, remove: Option<UserId>)
      requires Valid() && turn < |players|
      modifies this, store
      ensures Valid()
      ensures started == old(started) && totalPlayers == old(totalPlayers)
      ensures forall u :: u != user ==> store.Get(u) == old(store.Get(u))
      ensures store.Get(user) == old(store.Get(user)).(bananas := store.Get(user).bananas)
      // what the arena handler relies on
      ensures |players| == |old(players)|
      ensures forall i :: 0 <= i < |players| ==> players[i].user == old(players)[i].user
      ensures !isTurn ==> turn == old(turn)
      ensures KeepsTurn(reply) ==> turn == RolledBackIf(isTurn, old(turn), |old(players)|)
      ensures reply.Attacked? || reply.Defeated? ==> turn == old(turn)
      ensures reply != Surrendered
      ensures reply.Attacked? ==>
        HasUser(old(players), reply.target) &&
        var k := Position(old(players), reply.target);
        players == old(players)[k := old(players)[k].(health := Damaged(old(players)[k].health, reply.damage))]
      ensures reply.Defeated? ==>
        HasUser(old(players), reply.target) &&
        var k := Position(old(players), reply.target);
        players == old(players)[k := old(players)[k].(health := 0)]
      ensures reply.Healed? ==>
        var pos := if HasUser(old(players), user) then Position(old(players), user) else 0;
        reply.health <= settings.maxHealth && players == old(players)[pos := old(players)[pos].(health := reply.health)]
      ensures ended <==> reply.Won?
      ensures reply.Won? ==> reply.pot == Pot()
      ensures remove.Some? ==> reply.Defeated? && remove == Some(reply.target)
      ensures store.Get(user).bananas == old(store.Get(user)).bananas + (if reply.Won? then Pot() else 0)
      ensures !isTurn ==>
        reply == NotYourTurn && !ended && remove == None &&
        players == old(players) && turn == old(turn) && store.Get(user) == old(store.Get(user))
      ensures isTurn ==>
        var c := ChooseTarget(old(players), user, mentions);
        if c == NoMention || c == NotInArena then
          reply == (if c == NoMention then NoTarget else TargetNotInArena) && !ended && remove == None &&
          players == old(players) && turn == RollbackOf(old(turn), |players|) && store.Get(user) == old(store.Get(user))
        else if c == NoOpponent then
          reply == Panicked && !ended
        else
          var k := c.index;
          var weapon := EquippedWeapon(old(store.Get(user)).inventory, settings.enableItems);
          var lo := if weapon.Some? then weapon.value.damageLo else settings.damageLo;
          var hi := if weapon.Some? then weapon.value.damageHi else settings.damageHi;
          if lo > hi then
            reply == Panicked && !ended
          else
            var d := Roll(lo, hi, pick);
            var h := Damaged(old(players)[k].health, d);
            players == old(players)[k := old(players)[k].(health := h)] && turn == old(turn) &&
            if h == 0 && last2 then
              reply == Won(user, Pot()) && ended && remove == None &&
              store.Get(user).bananas == old(store.Get(user)).bananas + Pot()
            else
              !ended && store.Get(user) == old(store.Get(user)) &&
              if h == 0 then
                reply == Defeated(old(players)[k].user) &&
                remove == (if weapon.Some? then None else Some(old(players)[k].user))
              else
                reply == Attacked(old(players)[k].user, d) && remove == None
    {
      remove := None;
      ended := false;
      if !isTurn {
        reply := NotYourTurn;
        return;
      }
      var c := ChooseTarget(players, user, mentions);
      if c == NoMention || c == NotInArena {
        PreviousTurn();
        reply := if c == NoMention then NoTarget else TargetNotInArena;
        return;
      }
      if c == NoOpponent {
        // the source unwraps the search for another player
        reply := Panicked;
        return;
      }
      var k := c.index;
      var target := players[k].user;
      var weapon := EquippedWeapon(store.Get(user).inventory, settings.enableItems);
      var lo := if weapon.Some? then weapon.value.damageLo else settings.damageLo;
      var hi := if weapon.Some? then weapon.value.damageHi else settings.damageHi;
      if lo > hi {
        // `gen_range` on an empty range
        reply := Panicked;
        return;
      }
      var d := Roll(lo, hi, pick);
      Strike(k, d);
      if players[k].health == 0 {
        if last2 {
          reply, ended, remove := HandleWin(user, store);
          return;
        }
        reply := Defeated(target);
        remove := if weapon.Some? then None else Some(target);
        return;
      }
      reply := Attacked(target, d);
    }

    /**
     * A healing potion from slot `idx`: usable at any time and not counted as
     * a turn.  It heals the sender's seat, or the first seat when the sender
     * has none, and leaves the inventory.
     */
    method UsePotion(idx: nat, amount: nat, user: UserId, isTurn: bool, store: UserStore)
        returns (reply: PvPReply, ended: bool, remove: Option<UserId>)
      requires Valid() && turn < |players|
      requires idx < |store.Get(user).inventory.items|
      modifies this, store
      ensures Valid()
      ensures started == old(started) && totalPlayers == old(totalPlayers)
      ensures forall u :: u != user ==> store.Get(u) == old(store.Get(u))
      ensures store.Get(user) == old(store.Get(user)).(inventory :=
        old(store.Get(user)).inventory.(items := RemoveAt(old(store.Get(user)).inventory.items, idx)))
      ensures turn == RolledBackIf(isTurn, old(turn), |old(players)|)
      ensures var pos := if HasUser(old(players), user) then Position(old(players), user) else 0;
        var h := HealedTo(old(players)[pos].health, amount, settings.maxHealth);
        reply == Healed(h) && !ended && remove == None &&
        players == old(players)[pos := old(players)[pos].(health := h)]
    {
      if isTurn {
        PreviousTurn();
      }
      var pos := if HasUser(players, user) then Position(players, user) else 0;
      var p := players[pos];
      var h := HealedTo(p.health, amount, settings.maxHealth);
      players := players[pos := p.(health := h)];
      store.RemoveItemIndex(user, idx);
      reply, ended, remove := Healed(h), false, None;
    }

    /**
     * A spell tome from slot `idx`, after the turn has moved on: aimed like
     * "attack" and only on the sender's turn; it leaves the inventory once it
     * has struck.  No kill by a tome asks for a removal.
     */
    method UseTome(idx: nat, tome: InventoryItem, user: UserId, mentions: seq<UserId>, isTurn: bool, last2: bool,
                   store: UserStore, pick: nat)
        returns (reply: PvPReply, ended: bool, remove: Option<UserId>)
      requires Valid() && turn < |players| && tome.SpellTome?
      requires idx < |store.Get(user).inventory.items|
      modifies this, store
      ensures Valid()
      ensures started == old(started) && totalPlayers == old(totalPlayers) && remove == None
      ensures forall u :: u != user ==> store.Get(u) == old(store.Get(u))
      ensures !isTurn ==>
        reply == NotYourTurn && !ended && players == old(players) && turn == old(turn) &&
        store.Get(user) == old(store.Get(user))
      ensures var c := ChooseTarget(old(players), user, mentions);
        isTurn && (c == NoMention || c == NotInArena) ==>
          reply == (if c == NoMention then NoTarget else TargetNotInArena) && !ended &&
          players == old(players) && turn == RollbackOf(old(turn), |old(players)|) &&
          store.Get(user) == old(store.Get(user))
      ensures var c := ChooseTarget(old(players), user, mentions);
        isTurn && (c == NoOpponent || (c.Target? && tome.damageLo > tome.damageHi)) ==>
          reply == Panicked && !ended && turn == old(turn) && players == old(players) &&
          store.Get(user) == old(store.Get(user))
      ensures var c := ChooseTarget(old(players), user, mentions);
        var used := old(store.Get(user)).(inventory :=
          old(store.Get(user)).inventory.(items := RemoveAt(old(store.Get(user)).inventory.items, idx)));
        isTurn && c.Target? && tome.damageLo <= tome.damageHi ==>
          var k := c.index;
          var d := Roll(tome.damageLo, tome.damageHi, pick);
          var h := Damaged(old(players)[k].health, d);
          players == old(players)[k := old(players)[k].(health := h)] && turn == old(turn) &&
          (h == 0 && last2 ==> reply == Won(user, Pot()) && ended && store.Get(user) == used.(bananas := used.bananas + Pot())) &&
          (h == 0 && !last2 ==> reply == Defeated(old(players)[k].user) && !ended && store.Get(user) == used) &&
          (h > 0 ==> reply == Attacked(old(players)[k].user, d) && !ended && store.Get(user) == used)
    {
      remove := None;
      ended := false;
      if !isTurn {
        reply := NotYourTurn;
        return;
      }
      var c := ChooseTarget(players, user, mentions);
      if c == NoMention || c == NotInArena {
        PreviousTurn();
        reply := if c == NoMention then NoTarget else TargetNotInArena;
        return;
      }
      if c == NoOpponent || tome.damageLo > tome.damageHi {
        // the search for another player is unwrapped; `gen_range` rejects an empty range
        reply := Panicked;
        return;
      }
      var k := c.index;
      var target := players[k].user;
      var d := Roll(tome.damageLo, tome.damageHi, pick);
      Strike(k, d);
      store.RemoveItemIndex(user, idx);
      if players[k].health == 0 {
        if last2 {
          reply, ended, remove := HandleWin(user, store);
          return;
        }
        reply := Defeated(target);
        return;
      }
      reply := Attacked(target, d);
    }

    /** The item in slot `idx`: potions and tomes are used, anything else hands the turn back. */
    method UseItem(idx: nat, user: UserId, mentions: seq<UserId>, isTurn: bool, last2: bool,
                   store: UserStore, pick: nat)
        returns (reply: PvPReply, ended: bool, remove: Option<UserId>)
      requires Valid() && turn < |players|
      requires idx < |store.Get(user).inventory.items|
      modifies this, store
      ensures Valid()
      ensures started == old(started) && totalPlayers == old(totalPlayers)
      ensures forall u :: u != user ==> store.Get(u) == old(store.Get(u))
      ensures store.Get(user).level == old(store.Get(user)).level &&
              store.Get(user).prestige == old(store.Get(user)).prestige &&
              store.Get(user).ascension == old(store.Get(user)).ascension &&
              store.Get(user).inventory.equipped == old(store.Get(user)).inventory.equipped &&
              store.Get(user).inventory.superNanners == old(store.Get(user)).inventory.superNanners
      // what the arena handler relies on
      ensures |players| == |old(players)|
      ensures forall i :: 0 <= i < |players| ==> players[i].user == old(players)[i].user
      ensures !isTurn ==> turn == old(turn)
      ensures KeepsTurn(reply) ==> turn == RolledBackIf(isTurn, old(turn), |old(players)|)
      ensures reply.Attacked? || reply.Defeated? ==> turn == old(turn)
      ensures reply != Surrendered
      ensures reply.Attacked? ==>
        HasUser(old(players), reply.target) &&
        var k := Position(old(players), reply.target);
        players == old(players)[k := old(players)[k].(health := Damaged(old(players)[k].health, reply.damage))]
      ensures reply.Defeated? ==>
        HasUser(old(players), reply.target) &&
        var k := Position(old(players), reply.target);
        players == old(players)[k := old(players)[k].(health := 0)]
      ensures reply.Healed? ==>
        var pos := if HasUser(old(players), user) then Position(old(players), user) else 0;
        reply.health <= settings.maxHealth && players == old(players)[pos := old(players)[pos].(health := reply.health)]
      ensures ended <==> reply.Won?
      ensures reply.Won? ==> reply.pot == Pot()
      ensures remove.Some? ==> reply.Defeated? && remove == Some(reply.target)
      ensures store.Get(user).bananas == old(store.Get(user)).bananas + (if reply.Won? then Pot() else 0)
      ensures var item := old(store.Get(user)).inventory.items[idx];
        (item.HealingPotion? ==> reply.Healed?) &&
        (item.SpellTome? ==> !reply.Healed?) &&
        (!item.HealingPotion? && !item.SpellTome? ==>
          reply == ItemUnusable && players == old(players) && store.Get(user) == old(store.Get(user))) &&
        (reply.Healed? || reply.Attacked? || reply.Defeated? || reply.Won? ==>
          store.Get(user).inventory.items == RemoveAt(old(store.Get(user)).inventory.items, idx))
    {
      var item := store.Get(user).inventory.items[idx];
      if item.HealingPotion? {
        reply, ended, remove := UsePotion(idx, item.health, user, isTurn, store);
      } else if item.SpellTome? {
        reply, ended, remove := UseTome(idx, item, user, mentions, isTurn, last2, store, pick);
      } else {
        remove := None;
        ended := false;
        if isTurn {
          PreviousTurn();
        }
        reply := ItemUnusable;
      }
    }

    /**
     * "item <slot>", after the turn has moved on: the slot is the parsed u8
     * minus one; potions and tomes are used, anything else, a bad slot or
     * disabled items hand the turn back.
     */
    method ItemMessage(words: seq<string>, user: UserId, mentions: seq<UserId>, isTurn: bool, last2: bool,
                       store: UserStore, pick: nat)
        returns (reply: PvPReply, ended: bool, remove: Option<UserId>)
      requires Valid() && turn < |players|
      modifies this, store
      ensures Valid()
      ensures started == old(started) && totalPlayers == old(totalPlayers)
      ensures forall u :: u != user ==> store.Get(u) == old(store.Get(u))
      ensures store.Get(user).level == old(store.Get(user)).level &&
              store.Get(user).prestige == old(store.Get(user)).prestige &&
              store.Get(user).ascension == old(store.Get(user)).ascension &&
              store.Get(user).inventory.equipped == old(store.Get(user)).inventory.equipped &&
              store.Get(user).inventory.superNanners == old(store.Get(user)).inventory.superNanners
      // what the arena handler relies on
      ensures |players| == |old(players)|
      ensures forall i :: 0 <= i < |players| ==> players[i].user == old(players)[i].user
      ensures !isTurn ==> turn == old(turn)
      ensures KeepsTurn(reply) ==> turn == RolledBackIf(isTurn, old(turn), |old(players)|)
      ensures reply.Attacked? || reply.Defeated? ==> turn == old(turn)
      ensures reply != Surrendered
      ensures reply.Attacked? ==>
        HasUser(old(players), reply.target) &&
        var k := Position(old(players), reply.target);
        players == old(players)[k := old(players)[k].(health := Damaged(old(players)[k].health, reply.damage))]
      ensures reply.Defeated? ==>
        HasUser(old(players), reply.target) &&
        var k := Position(old(players), reply.target);
        players == old(players)[k := old(players)[k].(health := 0)]
      ensures reply.Healed? ==>
        var pos := if HasUser(old(players), user) then Position(old(players), user) else 0;
        reply.health <= settings.maxHealth && players == old(players)[pos := old(players)[pos].(health := reply.health)]
      ensures ended <==> reply.Won?
      ensures reply.Won? ==> reply.pot == Pot()
      ensures remove.Some? ==> reply.Defeated? && remove == Some(reply.target)
      ensures store.Get(user).bananas == old(store.Get(user)).bananas + (if reply.Won? then Pot() else 0)
      ensures !settings.enableItems ==>
        reply == ItemsDisabled && players == old(players) && store.Get(user) == old(store.Get(user))
      ensures settings.enableItems && |words| < 2 ==> reply == Panicked
      ensures var items := old(store.Get(user)).inventory.items;
        settings.enableItems && |words| >= 2 && (Text.ItemSlot(words[1]).None? || Text.ItemSlot(words[1]).value >= |items|) ==>
          reply == InvalidSlot && players == old(players) && store.Get(user) == old(store.Get(user))
      ensures var items := old(store.Get(user)).inventory.items;
        settings.enableItems && |words| >= 2 && Text.ItemSlot(words[1]).Some? && Text.ItemSlot(words[1]).value < |items| ==>
          var idx := Text.ItemSlot(words[1]).value;
          (items[idx].HealingPotion? ==> reply.Healed?) &&
          (items[idx].SpellTome? ==> !reply.Healed?) &&
          (!items[idx].HealingPotion? && !items[idx].SpellTome? ==>
            reply == ItemUnusable && players == old(players) && store.Get(user) == old(store.Get(user))) &&
          (reply.Healed? || reply.Attacked? || reply.Defeated? || reply.Won? ==>
            store.Get(user).inventory.items == RemoveAt(items, idx))
    {
      remove := None;
      ended := false;
      if !settings.enableItems {
        if isTurn {
          PreviousTurn();
        }
        reply := ItemsDisabled;
        return;
      }
      if |words| < 2 {
        // the source unwraps the second word
        reply := Panicked;
        return;
      }
      var slot := Text.ItemSlot(words[1]);
      var items := store.Get(user).inventory.items;
      if slot.None? || slot.value >= |items| {
        if isTurn {
          PreviousTurn();
        }
        reply := InvalidSlot;
        return;
      }
      reply, ended, remove := UseItem(slot.value, user, mentions, isTurn, last2, store, pick);
    }

    /**
     * "surrender": every other seat is credited an equal share of one stake;
     * with two players or fewer the first other player wins the arena,
     * otherwise the sender asks to be removed.  The turn is not handed back.
     */
    method SurrenderMessage(user: UserId, store: UserStore) returns (reply: PvPReply, ended: bool, remove: Option<UserId>)
      requires Valid() && |players| >= 1
      modifies store
      ensures var share := stake / |players|;
        forall u: UserId :: store.Get(u) == old(store.Get(u)).(bananas :=
          old(store.Get(u)).bananas + (if u == user then 0 else Times(share, Occurrences(players, u))) +
          (if reply.Won? && u == reply.winner then Pot() else 0))
      ensures reply == Panicked <==> |players| < 3 && !HasOther(players, user)
      ensures |players| < 3 && HasOther(players, user) ==>
        reply == Won(players[FirstOther(players, user)].user, Pot()) && ended && remove == None
      ensures |players| >= 3 ==> reply == Surrendered && !ended && remove == Some(user)
      ensures reply == Panicked ==> !ended && remove == None
    {
      var share := stake / |players|;
      CreditSeats(store, share, Some(user));
      if |players| < 3 {
        if !HasOther(players, user) {
          reply, ended, remove := Panicked, false, None;
          return;
        }
        var index := FirstOther(players, user);
        reply, ended, remove := HandleWin(players[index].user, store);
        return;
      }
      reply, ended, remove := Surrendered, false, Some(user);
    }

    /**
     * The message of a running arena once the turn has (when `isTurn`) moved
     * on: the first word picks the action.
     */
    method PlayMessage(words: seq<string>, user: UserId, mentions: seq<UserId>, isTurn: bool, last2: bool,
                       store: UserStore, pick: nat)
        returns (reply: PvPReply, ended: bool, remove: Option<UserId>)
      requires Valid() && turn < |players| && |words| > 0
      modifies this, store
      ensures Valid()
      ensures started == old(started) && totalPlayers == old(totalPlayers)
      ensures |players| == |old(players)|
      ensures forall i :: 0 <= i < |players| ==> players[i].user == old(players)[i].user
      ensures !isTurn ==> turn == old(turn)
      ensures KeepsTurn(reply) ==> turn == RolledBackIf(isTurn, old(turn), |old(players)|)
      ensures reply.Attacked? || reply.Defeated? || reply == Surrendered ==> turn == old(turn)
      ensures reply.Attacked? ==>
        HasUser(old(players), reply.target) &&
        var k := Position(old(players), reply.target);
        players == old(players)[k := old(players)[k].(health := Damaged(old(players)[k].health, reply.damage))]
      ensures reply.Defeated? ==>
        HasUser(old(players), reply.target) &&
        var k := Position(old(players), reply.target);
        players == old(players)[k := old(players)[k].(health := 0)]
      ensures reply.Healed? ==>
        var pos := if HasUser(old(players), user) then Position(old(players), user) else 0;
        reply.health <= settings.maxHealth && players == old(players)[pos := old(players)[pos].(health := reply.health)]
      ensures ended ==> reply.Won?
      ensures reply.Won? ==> ended && reply.pot == Pot()
      ensures remove.Some? ==> (remove == Some(user) && reply == Surrendered) || (reply.Defeated? && remove == Some(reply.target))
      ensures words[0] != "surrender" ==>
        forall u :: u != user ==> store.Get(u) == old(store.Get(u))
      ensures words[0] != "surrender" ==>
        store.Get(user).bananas == old(store.Get(user)).bananas + (if reply.Won? then Pot() else 0)
      ensures words[0] == "surrender" && reply != Panicked ==>
        players == old(players) &&
        forall u :: store.Get(u).bananas == old(store.Get(u)).bananas +
          (if u == user then 0 else Times(stake / |players|, Occurrences(players, u))) +
          (if reply.Won? && u == reply.winner then Pot() else 0)
    {
      remove := None;
      ended := false;
      var first := words[0];
      if first == "attack" {
        reply, ended, remove := AttackMessage(user, mentions, isTurn, last2, store, pick);
      } else if first == "item" {
        reply, ended, remove := ItemMessage(words, user, mentions, isTurn, last2, store, pick);
      } else if first == "list" {
        if isTurn {
          PreviousTurn();
        }
        reply := PlayerList;
      } else if first == "surrender" {
        reply, ended, remove := SurrenderMessage(user, store);
      } else {
        if isTurn {
          PreviousTurn();
        }
        reply := NoReply;
      }
    }

    /**
     * `handle_message` once the arena runs.  The current player's message
     * first advances the turn; "list", unknown words, missing targets and
     * unusable items hand it back, so only attacks and surrender consume it,
     * and nobody else's message moves it.  Only a win ends the arena.
     * `mentions` are the users the message mentions and `pick` drives the
     * damage roll.
     */
    method HandleMessage(words: seq<string>, user: UserId, mentions: seq<UserId>, store: UserStore, pick: nat)
        returns (reply: PvPReply, ended: bool, remove: Option<UserId>)
      requires Valid()
      modifies this, store
      ensures Valid()
      ensures started == old(started) && totalPlayers == old(totalPlayers)
      ensures |players| == |old(players)|
      ensures forall i :: 0 <= i < |players| ==> players[i].user == old(players)[i].user
      ensures |words| == 0 || old(turn) >= |old(players)| ==> reply == Panicked && players == old(players) && turn == old(turn)
      ensures var current := old(turn) < |old(players)| && old(players)[old(turn)].user == user;
        (!current ==> turn == old(turn)) &&
        (current && KeepsTurn(reply) && |players| < U16_LIMIT ==> turn == old(turn)) &&
        (current && (reply.Attacked? || reply.Defeated? || reply == Surrendered) ==> turn == NextTurnOf(old(turn), |players|))
      ensures reply.Attacked? ==>
        HasUser(old(players), reply.target) &&
        var k := Position(old(players), reply.target);
        players == old(players)[k := old(players)[k].(health := Damaged(old(players)[k].health, reply.damage))]
      ensures reply.Defeated? ==>
        HasUser(old(players), reply.target) &&
        var k := Position(old(players), reply.target);
        players == old(players)[k := old(players)[k].(health := 0)]
      ensures reply.Healed? ==>
        var pos := if HasUser(old(players), user) then Position(old(players), user) else 0;
        reply.health <= settings.maxHealth && players == old(players)[pos := old(players)[pos].(health := reply.health)]
      ensures ended ==> reply.Won?
      ensures reply.Won? ==> ended && reply.pot == Pot()
      ensures remove.Some? ==> (remove == Some(user) && reply == Surrendered) || (reply.Defeated? && remove == Some(reply.target))
      ensures |words| > 0 && words[0] != "surrender" ==>
        forall u :: u != user ==> store.Get(u) == old(store.Get(u))
      ensures |words| > 0 && words[0] != "surrender" ==>
        store.Get(user).bananas == old(store.Get(user)).bananas + (if reply.Won? then Pot() else 0)
      ensures |words| > 0 && words[0] == "surrender" && reply != Panicked ==>
        players == old(players) &&
        forall u :: store.Get(u).bananas == old(store.Get(u)).bananas +
          (if u == user then 0 else Times(stake / |players|, Occurrences(players, u))) +
          (if reply.Won? && u == reply.winner then Pot() else 0)
    {
      remove := None;
      ended := false;
      if |words| == 0 || turn >= |players| {
        // the first word is unwrapped, and the current player is indexed
        reply := Panicked;
        return;
      }
      var isTurn := players[turn].user == user;
      var last2 := |players| < 3;
      if isTurn {
        NextTurn();
      }
      reply, ended, remove := PlayMessage(words, user, mentions, isTurn, last2, store, pick);
      if isTurn && KeepsTurn(reply) && |players| < U16_LIMIT {
        RollbackUndoesNextTurn(old(turn), |players|);
      }
    }
  }
}
