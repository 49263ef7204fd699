/**
 * The `/pvp` command: read the options over their defaults, check the
 * stake, take it from the host's balance and file a new arena.
 */
module PvPCommand {
  import opened Wrappers
  import opened UserFiles
  import opened Registry
  import PvP

  /** A resolved slash-command option: an integer, a boolean, or a kind the command ignores. */
  datatype CommandOption =
    | IntegerOption(name: string, value: int)
    | BooleanOption(name: string, flag: bool)
    | OtherOption

  /** The command's local variables once the options are read. */
  datatype PvPChoices = PvPChoices(stake: nat, public: bool, maxPlayers: nat, baseHealth: nat, maxHealth: nat, noItems: bool)

  /** Free to enter, public, two players, 100 health at the start and at most, items allowed. */
  const DefaultChoices := PvPChoices(0, true, 2, 100, 100, false)

  /** `v as u64` and `v as u32` on an i64: the low 64 or 32 bits, read as unsigned. */
  function AsUnsigned(v: int, limit: nat): (r: nat)
    requires limit > 0
    ensures r < limit
    ensures 0 <= v < limit ==> r == v
  {
    v % limit
  }

  /** One option: an integer or boolean option of a known name overrides its variable; anything else is ignored. */
  function Choose(c: PvPChoices, o: CommandOption): (r: PvPChoices)
  {
    match o
    case IntegerOption(name, v) =>
      if name == "stake" then c.(stake := AsUnsigned(v, U64_LIMIT))
      else if name == "max_players" then c.(maxPlayers := AsUnsigned(v, U64_LIMIT))
      else if name == "base_health" then c.(baseHealth := AsUnsigned(v, U32_LIMIT))
      else if name == "max_health" then c.(maxHealth := AsUnsigned(v, U32_LIMIT))
      else c
    case BooleanOption(name, b) =>
      if name == "public" then c.(public := b)
      else if name == "no_items" then c.(noItems := b)
      else c
    case OtherOption => c
  }

  /** The options read in order over the defaults. */
  function ChooseAll(options: seq<CommandOption>): (c: PvPChoices)
    ensures c.stake < U64_LIMIT && c.maxPlayers < U64_LIMIT && c.baseHealth < U32_LIMIT && c.maxHealth < U32_LIMIT
  {
    if options == [] then DefaultChoices
    else Choose(ChooseAll(options[..|options| - 1]), options[|options| - 1])
  }

  /** The value an integer option of that name gives its variable, when the name is one the command knows. */
  function IntegerSetting(c: PvPChoices, name: string): Option<nat>
  {
    if name == "stake" then Some(c.stake)
    else if name == "max_players" then Some(c.maxPlayers)
    else if name == "base_health" then Some(c.baseHealth)
    else if name == "max_health" then Some(c.maxHealth)
    else None
  }

  /** The width the command casts an integer option of that name to. */
  function IntegerLimit(name: string): nat
  {
    if name == "stake" || name == "max_players" then U64_LIMIT else U32_LIMIT
  }

  predicate NamesInteger(o: CommandOption, name: string)
  {
    o.IntegerOption? && o.name == name
  }

  /** The last integer option of a known name decides that variable, cast to its width. */
  lemma {:induction false} LastIntegerOptionWins(options: seq<CommandOption>, i: nat)
    requires i < |options| && options[i].IntegerOption?
    requires IntegerSetting(DefaultChoices, options[i].name).Some?
    requires forall j :: i < j < |options| ==> !NamesInteger(options[j], options[i].name)
    ensures IntegerSetting(ChooseAll(options), options[i].name) ==
      Some(AsUnsigned(options[i].value, IntegerLimit(options[i].name)))
  {
    var init := options[..|options| - 1];
    if i < |options| - 1 {
      assert forall j :: i < j < |init| ==> init[j] == options[j];
      LastIntegerOptionWins(init, i);
    }
  }

  /** A variable no option of its name mentions keeps its default. */
  lemma {:induction false} UnnamedKeepsDefault(options: seq<CommandOption>, name: string)
    requires IntegerSetting(DefaultChoices, name).Some?
    requires forall j :: 0 <= j < |options| ==> !NamesInteger(options[j], name)
    ensures IntegerSetting(ChooseAll(options), name) == IntegerSetting(DefaultChoices, name)
  {
    if options != [] {
      var init := options[..|options| - 1];
      assert forall j :: 0 <= j < |init| ==> init[j] == options[j];
      UnnamedKeepsDefault(init, name);
    }
  }

  /** The flag list: the player cap and both healths always, then `NoItem` only when items are off. */
  function Flags(c: PvPChoices): (flags: seq<PvP.PvPModFlag>)
    ensures PvP.NoItem in flags <==> c.noItems
    ensures |flags| == if c.noItems then 4 else 3
  {
    [PvP.MaxPlayers(c.maxPlayers), PvP.CustomStartHealth(c.baseHealth), PvP.CustomMaxHealth(c.maxHealth)] +
    (if c.noItems then [PvP.NoItem] else [])
  }

  /** The arena those flags build has the chosen player cap and healths, items on unless turned off, and default damage. */
  lemma FlagsSettings(c: PvPChoices)
    ensures PvP.ApplyFlags(Flags(c)) ==
      PvP.Defaults.(maxPlayers := c.maxPlayers, baseHealth := c.baseHealth, maxHealth := c.maxHealth, enableItems := !c.noItems)
  {
    var f1 := [PvP.MaxPlayers(c.maxPlayers)];
    var f2 := f1 + [PvP.CustomStartHealth(c.baseHealth)];
    var base := f2 + [PvP.CustomMaxHealth(c.maxHealth)];
    assert f1[..|f1| - 1] == [];
    assert PvP.ApplyFlags(f1) == PvP.Defaults.(maxPlayers := c.maxPlayers);
    assert f2[..|f2| - 1] == f1;
    assert PvP.ApplyFlags(f2) == PvP.Defaults.(maxPlayers := c.maxPlayers, baseHealth := c.baseHealth);
    assert base[..|base| - 1] == f2;
    if c.noItems {
      assert Flags(c)[..3] == base;
    } else {
      assert Flags(c) == base;
    }
  }

  datatype PvPReply =
    | TooPoor
    | AlreadyInGame
    | Created(code: GameCode, choices: PvPChoices)

  /**
   * `run`: the options are read in a loop; a balance below the stake, or a
   * caller who already plays or hosts a game, is refused with nothing
   * changed.  Otherwise exactly the stake is debited and an arena with the
   * chosen flags, hosted by the caller, is filed under a fresh code.  The
   * source never checks the "min 5" its option text announces.
   */
  method Run(options: seq<CommandOption>, user: UserId, store: UserStore, games: GamesManager, codeDraws: seq<nat>)
      returns (reply: PvPReply)
    requires games.SomeFreeCode(codeDraws)
    modifies store, games
    ensures forall u :: u != user ==> store.Get(u) == old(store.Get(u))
    ensures old(store.Get(user)).bananas < ChooseAll(options).stake ==> reply == TooPoor
    ensures old(store.Get(user)).bananas >= ChooseAll(options).stake ==>
      (reply == AlreadyInGame <==> old(games.PlayingSomewhere(user) || games.HostingSomewhere(user)))
    ensures !reply.Created? ==> store.Get(user) == old(store.Get(user)) && games.games == old(games.games)
    ensures reply.Created? ==>
      reply.choices == ChooseAll(options) &&
      store.Get(user) == old(store.Get(user)).(bananas := old(store.Get(user)).bananas - reply.choices.stake) &&
      reply.code < CodeSpace && reply.code !in old(games.games) &&
      games.games.Keys == old(games.games).Keys + {reply.code} &&
      (forall c :: c in old(games.games) ==> games.games[c] == old(games.games)[c])
    ensures reply.Created? ==>
      var h := games.games[reply.code];
      h.host == user && h.players == [] && h.game.PvPGame? && fresh(h.game.arena) &&
      h.game.arena.host == user && h.game.arena.stake == reply.choices.stake &&
      h.game.arena.settings == PvP.ApplyFlags(Flags(reply.choices)) &&
      h.game.arena.players == [PvP.Player(user, 100)] && !h.game.arena.started
  {
    var stake: nat, public, maxPlayers: nat, baseHealth: nat, maxHealth: nat, noItems := 0, true, 2, 100, 100, false;
    var i := 0;
    while i < |options|
      invariant 0 <= i <= |options|
      invariant PvPChoices(stake, public, maxPlayers, baseHealth, maxHealth, noItems) == ChooseAll(options[..i])
    {
      match options[i] {
        case IntegerOption(name, v) =>
          if name == "stake" {
            stake := AsUnsigned(v, U64_LIMIT);
          } else if name == "max_players" {
            maxPlayers := AsUnsigned(v, U64_LIMIT);
          } else if name == "base_health" {
            baseHealth := AsUnsigned(v, U32_LIMIT);
          } else if name == "max_health" {
            maxHealth := AsUnsigned(v, U32_LIMIT);
          }
        case BooleanOption(name, b) =>
          if name == "public" {
            public := b;
          } else if name == "no_items" {
            noItems := b;
          }
        case OtherOption =>
      }
      assert options[..i + 1][..i] == options[..i];
      i := i + 1;
    }
    assert options[..|options|] == options;
    var choices := PvPChoices(stake, public, maxPlayers, baseHealth, maxHealth, noItems);
    if store.Get(user).bananas < stake {
      return TooPoor;
    }
    var flags := [PvP.MaxPlayers(maxPlayers), PvP.CustomStartHealth(baseHealth), PvP.CustomMaxHealth(maxHealth)];
    if noItems {
      flags := flags + [PvP.NoItem];
    }
    assert flags == Flags(choices);
    var current := games.GetPlayerGame(user);
    if current.Some? {
      return AlreadyInGame;
    }
    store.RemoveBananas(user, stake);
    var arena := new PvP.PvPArena(user, stake, flags);
    var code := games.Insert(NewHandler(user, PvPGame(arena)), codeDraws);
    reply := Created(code, choices);
  }
}
