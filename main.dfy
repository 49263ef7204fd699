/**
 * The bot's message handler: routing a message to the game its author is
 * in (and ending that game when it says so), the banana crate that the
 * first user to type its code claims, and the bananas every other message
 * earns.
 */
module Bot {
  import opened Wrappers
  import opened Text
  import opened UserFiles
  import opened Registry
  import opened Guilds
  import Config
  import Blackjack
  import MineBattles
  import SludgeBattles

  /** The character code `(x as char).to_ascii_uppercase()` gives. */
  function Shown(x: nat): char
    requires 33 <= x <= 126
  {
    UpperChar(x as char)
  }

  /** One crate-code character: the drawn character upper-cased, with '`' and '\\' replaced by '\'' and '/'. */
  function CodeChar(x: nat): (c: char)
    requires 33 <= x <= 126
    ensures 33 <= c as int <= 126
    ensures c != '`' && c != '\\' && c != ' ' && !('a' <= c <= 'z')
  {
    var u := Shown(x);
    if u == '`' then '\'' else if u == '\\' then '/' else u
  }

  /** `s.replace(a, b)` for one-character patterns. */
  function ReplaceChar(s: string, a: char, b: char): (r: string)
    ensures |r| == |s| && forall i :: 0 <= i < |s| ==> r[i] == if s[i] == a then b else s[i]
  {
    seq(|s|, i requires 0 <= i < |s| => if s[i] == a then b else s[i])
  }

  predicate CodePicks(picks: seq<nat>)
  {
    |picks| == Config.CodeLength && forall k :: 0 <= k < |picks| ==> 33 <= picks[k] <= 126
  }

  /** The characters of a crate code, spaces left out. */
  function CodeChars(picks: seq<nat>): (cs: string)
    requires CodePicks(picks)
    ensures |cs| == Config.CodeLength && forall k :: 0 <= k < |cs| ==> cs[k] == CodeChar(picks[k])
  {
    seq(Config.CodeLength, k requires 0 <= k < Config.CodeLength => CodeChar(picks[k]))
  }

  /** s is the characters cs with one space between each pair. */
  predicate Spaced(s: string, cs: string)
  {
    |cs| > 0 && |s| == 2 * |cs| - 1 &&
    forall i :: 0 <= i < |s| ==> s[i] == if i % 2 == 0 then cs[i / 2] else ' '
  }

  /** Dropping the spaces from a spaced string gives its characters back, when none of them is a space. */
  lemma {:induction false} UnspacedIsChars(s: string, cs: string)
    requires Spaced(s, cs) && forall k :: 0 <= k < |cs| ==> cs[k] != ' '
    ensures RemoveAll(s, " ") == cs
    decreases |cs|
  {
    if |cs| == 1 {
      assert s == [cs[0]];
      assert s[1..] == [];
    } else {
      assert s[0] == cs[0] && s[1] == ' ';
      assert s[..1] != " ";
      assert s[1..][..1] == " ";
      assert s[1..][1..] == s[2..];
      assert Spaced(s[2..], cs[1..]) by {
        forall i | 0 <= i < |s[2..]|
          ensures s[2..][i] == if i % 2 == 0 then cs[1..][i / 2] else ' '
        {
          assert s[2..][i] == s[i + 2];
          assert (i + 2) % 2 == i % 2 && (i + 2) / 2 == i / 2 + 1;
        }
      }
      UnspacedIsChars(s[2..], cs[1..]);
      assert [cs[0]] + cs[1..] == cs;
    }
  }

  /**
   * `gen_crate_code`: six drawn characters, each upper-cased and followed by
   * a space except the last, then '`' and '\\' replaced.  `picks` are the
   * six draws from 33..=126.
   */
  method GenCrateCode(picks: seq<nat>) returns (code: string)
    requires CodePicks(picks)
    ensures |code| == 2 * Config.CodeLength - 1
    ensures Spaced(code, CodeChars(picks))
    ensures forall i :: 0 <= i < |code| ==> code[i] != '`' && code[i] != '\\' && !('a' <= code[i] <= 'z')
    ensures RemoveAll(code, " ") == CodeChars(picks)
  {
    code := [];
    for x := 0 to Config.CodeLength
      invariant |code| == 2 * x - (if x == Config.CodeLength then 1 else 0)
      invariant forall i :: 0 <= i < |code| ==> code[i] == if i % 2 == 0 then Shown(picks[i / 2]) else ' '
    {
      code := code + [Shown(picks[x])];
      if x != Config.CodeLength - 1 {
        code := code + [' '];
      }
    }
    code := ReplaceChar(code, '`', '\'');
    code := ReplaceChar(code, '\\', '/');
    assert Spaced(code, CodeChars(picks)) by {
      forall i | 0 <= i < |code|
        ensures code[i] == if i % 2 == 0 then CodeChars(picks)[i / 2] else ' '
      {
      }
    }
    UnspacedIsChars(code, CodeChars(picks));
  }

  /** The code's characters are upper-case already, so typing them (in either case) matches. */
  lemma TypedCodeMatches(picks: seq<nat>)
    requires CodePicks(picks)
    ensures Upper(CodeChars(picks)) == CodeChars(picks)
    ensures Upper(Lower(CodeChars(picks))) == CodeChars(picks)
  {
    var cs := CodeChars(picks);
    assert forall k :: 0 <= k < |cs| ==> UpperChar(LowerChar(cs[k])) == cs[k];
  }

  /** The banana crate: whether one is waiting, and its code as displayed. */
  class Crate {
    var active: bool
    var code: string

    constructor ()
      ensures !active && code == []
    {
      active := false;
      code := [];
    }

    /** `spawn_crate`: a new code, and the crate is up for grabs. */
    method Spawn(picks: seq<nat>)
      requires CodePicks(picks)
      modifies this
      ensures active && Spaced(code, CodeChars(picks)) && RemoveAll(code, " ") == CodeChars(picks)
    {
      code := GenCrateCode(picks);
      active := true;
    }

    /**
     * The crate check: only while a crate is active and only when the
     * upper-cased message equals the code without its spaces.  Claiming
     * closes the crate and credits 10..249 bananas (`pick` draws them).
     */
    method Claim(content: string, user: UserId, store: UserStore, pick: nat) returns (won: Option<nat>)
      modifies this, store
      ensures code == old(code)
      ensures forall u :: u != user ==> store.Get(u) == old(store.Get(u))
      ensures won.Some? <==> old(active) && Upper(content) == RemoveAll(old(code), " ")
      ensures won.None? ==> active == old(active) && store.Get(user) == old(store.Get(user))
      ensures won.Some? ==>
        !active && won.value == Roll(10, 249, pick) && 10 <= won.value < 250 &&
        store.Get(user) == old(store.Get(user)).(bananas := old(store.Get(user)).bananas + won.value)
    {
      if !active {
        return None;
      }
      var needed := RemoveAll(code, " ");
      if Upper(content) == needed {
        active := false;
        var bananas := Roll(10, 249, pick);
        store.AddBananas(user, bananas);
        return Some(bananas);
      }
      return None;
    }
  }

  /**
   * The per-message gain: a draw from 5..=25, doubled when the message
   * carries an embed and again under superboost, so never above 100.
   */
  method MessageGain(pick: nat, hasEmbeds: bool, superboost: bool) returns (gained: nat)
    ensures Config.MessageGainMin <= gained <= 4 * Config.MessageGainMax
    ensures gained == Roll(Config.MessageGainMin, Config.MessageGainMax, pick) *
      (if hasEmbeds then 2 else 1) * (if superboost then Config.Superboost else 1)
    ensures !hasEmbeds && !superboost ==> gained <= Config.MessageGainMax
  {
    gained := Roll(Config.MessageGainMin, Config.MessageGainMax, pick);
    if hasEmbeds {
      gained := gained * 2;
    }
    if superboost {
      gained := gained * Config.Superboost;
    }
  }

  /** The objects a game's message handler may change. */
  function Objects(g: Games): set<object>
  {
    match g
    case BlackJackGame(bj) => {bj, bj.player, bj.deck}
    case MineGame(m) => {m}
    case SludgeMonsterGame(s) => {s}
    case TexasHoldemTable(t) => {t}
    case PvPGame(a) => {a}
  }

  /** The game is in the state its message handler expects. */
  predicate Ready(g: Games)
    reads Objects(g)
  {
    match g
    case BlackJackGame(bj) => bj.InPlay() && |bj.deck.cards| >= 19
    case MineGame(m) => m.Valid()
    case SludgeMonsterGame(s) => s.Valid()
    case TexasHoldemTable(_) => true
    case PvPGame(_) => true
  }

  /** What the routed game answered. */
  datatype RouteReply =
    | BlackjackAnswer(bj: Blackjack.Reply)
    | MineAnswer(mine: MineBattles.MineReply)
    | SludgeAnswer(sludge: SludgeBattles.SludgeReply)
    | TexasUnfinished
    | NotRouted

  /** A blackjack session's answer; only the sender's record changes. */
  method RouteBlackjack(bj: Blackjack.BlackJack, words: seq<string>, user: UserId, store: UserStore,
                        superboost: bool, winAlways: bool) returns (reply: RouteReply, ended: bool)
    requires bj.InPlay() && |bj.deck.cards| >= 19
    modifies bj, bj.player, bj.deck, store
    ensures reply.BlackjackAnswer?
    ensures forall u :: u != user ==> store.Get(u) == old(store.Get(u))
  {
    var r;
    r, ended := bj.HandleMessage(words, store, user, superboost, winAlways);
    reply := BlackjackAnswer(r);
  }

  /** A mine battle's answer; it ends exactly when the battle says so. */
  method RouteMine(m: MineBattles.MineBattle, words: seq<string>, user: UserId, store: UserStore,
                   md: MineBattles.MineDraws) returns (reply: RouteReply, ended: bool)
    requires m.Valid()
    modifies m, store
    ensures reply.MineAnswer? && (ended <==> MineBattles.Ends(reply.mine))
    ensures forall u :: u != user ==> store.Get(u) == old(store.Get(u))
  {
    var r;
    r, ended := m.HandleMessage(words, user, store, md);
    reply := MineAnswer(r);
  }

  /** A sludge monster fight's answer; it ends exactly when the fight says so. */
  method RouteSludge(s: SludgeBattles.SludgeMonsterBattle, words: seq<string>, user: UserId, store: UserStore,
                     sd: SludgeBattles.SludgeDraws) returns (reply: RouteReply, ended: bool)
    requires s.Valid()
    modifies s, store
    ensures reply.SludgeAnswer? && (ended <==> SludgeBattles.Ends(reply.sludge))
    ensures forall u :: u != user ==> store.Get(u) == old(store.Get(u))
  {
    var r;
    r, ended := s.HandleMessage(words, user, store, sd);
    reply := SludgeAnswer(r);
  }

  /**
   * The routing block: the game filed under `code` handles the message, and
   * when it reports the end its code leaves the registry.  Texas Hold'em's
   * handler is not written (`todo!()`), and the block has no arm for an
   * arena, so an arena's message gets no answer and falls through, as the
   * block's `(None, None)` paths do.
   */
  method RouteGame(games: GamesManager, code: GameCode, words: seq<string>, user: UserId, store: UserStore,
                   superboost: bool, winAlways: bool, md: MineBattles.MineDraws, sd: SludgeBattles.SludgeDraws)
      returns (reply: RouteReply, ended: bool)
    requires code in games.games && Ready(games.games[code].game)
    modifies games, store, Objects(games.games[code].game)
    ensures forall u :: u != user ==> store.Get(u) == old(store.Get(u))
    ensures ended ==> games.games == old(games.games) - {code}
    ensures !ended ==> games.games == old(games.games)
    ensures old(games.games[code].game).TexasHoldemTable? ==> reply == TexasUnfinished && !ended
    ensures old(games.games[code].game).PvPGame? <==> reply == NotRouted
    ensures reply == NotRouted ==> !ended
    ensures reply.MineAnswer? ==> (ended <==> MineBattles.Ends(reply.mine))
    ensures reply.SludgeAnswer? ==> (ended <==> SludgeBattles.Ends(reply.sludge))
    ensures reply.TexasUnfinished? || reply.NotRouted? ==> store.Get(user) == old(store.Get(user))
  {
    match games.games[code].game {
      case BlackJackGame(bj) =>
        reply, ended := RouteBlackjack(bj, words, user, store, superboost, winAlways);
      case MineGame(m) =>
        reply, ended := RouteMine(m, words, user, store, md);
      case SludgeMonsterGame(s) =>
        reply, ended := RouteSludge(s, words, user, store, sd);
      case TexasHoldemTable(_) =>
        reply, ended := TexasUnfinished, false;
      case PvPGame(_) =>
        reply, ended := NotRouted, false;
    }
    if ended {
      games.EndGame(code);
      assert games.games == old(games.games) - {code};
    }
  }

  /** The greetings George answers (compared lower-cased). */
  const Greetings: set<string> := {"hi george", "hello george", "hey george", "hello, george",
                                   "hi george!", "hello george!", "hey george!", "hello, george!"}

  /** A message as the handler sees it; `words` is the split the game handlers work on. */
  datatype Message = Message(author: UserId, bot: bool, channel: ChannelId, content: string,
                             words: seq<string>, hasEmbeds: bool)

  /**
   * The random numbers one message may consume: the games' draws, the crate
   * reward, the gain, the random-image draw from 0..1000, the crate-spawn
   * draw from 0..100 and the characters of a new crate code.
   */
  datatype MessageDraws = MessageDraws(mine: MineBattles.MineDraws, sludge: SludgeBattles.SludgeDraws,
                                       crateBananas: nat, gain: nat, monkey: nat, spawn: nat, codePicks: seq<nat>)

  predicate DrawsInRange(d: MessageDraws)
  {
    d.monkey < 1000 && d.spawn < 100 && CodePicks(d.codePicks)
  }

  /** What handling a message came to; the embeds and images are left out. */
  datatype Outcome =
    | Ignored
    | Panicked
    | Routed(reply: RouteReply, ended: bool)
    | CrateOpened(bananas: nat)
    | CrateWaiting
    | Greeted
    | Scolded
    | Earned(gained: nat, talksOdds: bool, monkeyImage: bool, spawned: bool)

  /** The message scolds the bot. */
  predicate Scolds(lowered: string)
  {
    Contains(lowered, "bad bot") || Contains(lowered, "bad monkey") || Contains(lowered, "bad ape")
  }

  /**
   * Everything after the routing block: an active crate takes the message
   * whatever it says; otherwise a greeting or a scolding is answered with no
   * gain; any other message earns its gain, and may bring a random image or,
   * failing that, a new crate.
   */
  method Chatter(content: string, hasEmbeds: bool, user: UserId, store: UserStore, crate: Crate,
                 superboost: bool, d: MessageDraws) returns (out: Outcome)
    requires DrawsInRange(d)
    modifies store, crate
    ensures forall u :: u != user ==> store.Get(u) == old(store.Get(u))
    ensures old(crate.active) ==> out.CrateOpened? || out == CrateWaiting
    ensures old(crate.active) ==> (out.CrateOpened? <==> Upper(content) == RemoveAll(old(crate.code), " "))
    ensures out.CrateOpened? ==>
      !crate.active && out.bananas == Roll(10, 249, d.crateBananas) &&
      store.Get(user) == old(store.Get(user)).(bananas := old(store.Get(user)).bananas + out.bananas)
    ensures !old(crate.active) && Lower(content) in Greetings ==> out == Greeted
    ensures !old(crate.active) && Lower(content) !in Greetings && Scolds(Lower(content)) ==> out == Scolded
    ensures out == CrateWaiting || out == Greeted || out == Scolded ==>
      store.Get(user) == old(store.Get(user)) && crate.active == old(crate.active) && crate.code == old(crate.code)
    ensures out.Earned? <==> !old(crate.active) && Lower(content) !in Greetings && !Scolds(Lower(content))
    ensures out.Earned? ==>
      out.gained == Roll(Config.MessageGainMin, Config.MessageGainMax, d.gain) *
        (if hasEmbeds then 2 else 1) * (if superboost then Config.Superboost else 1) &&
      out.talksOdds == Contains(Lower(content), "odds") &&
      store.Get(user) == old(store.Get(user)).(bananas := old(store.Get(user)).bananas + out.gained) &&
      (out.monkeyImage <==> d.monkey == 0) &&
      (out.spawned <==> d.monkey != 0 && d.spawn == 0)
    ensures out.Earned? && out.spawned ==> crate.active && RemoveAll(crate.code, " ") == CodeChars(d.codePicks)
    ensures out.Earned? && !out.spawned ==> !crate.active && crate.code == old(crate.code)
  {
    if crate.active {
      var won := crate.Claim(content, user, store, d.crateBananas);
      if won.Some? {
        return CrateOpened(won.value);
      }
      return CrateWaiting;
    }
    var gained := MessageGain(d.gain, hasEmbeds, superboost);
    var lowered := Lower(content);
    if lowered in Greetings {
      return Greeted;
    }
    if Scolds(lowered) {
      return Scolded;
    }
    var odds := Contains(lowered, "odds");
    store.AddBananas(user, gained);
    if d.monkey == 0 {
      return Earned(gained, odds, true, false);
    }
    if d.spawn == 0 {
      crate.Spawn(d.codePicks);
      return Earned(gained, odds, false, true);
    }
    return Earned(gained, odds, false, false);
  }

  /** Every object some filed game's handler may change. */
  function GameObjects(games: GamesManager): set<object>
    reads games
  {
    set c, o | c in games.games && o in Objects(games.games[c].game) :: o
  }

  /** Every filed game is in the state its handler expects. */
  predicate AllReady(games: GamesManager)
    reads games, GameObjects(games)
  {
    forall c :: c in games.games ==> Ready(games.games[c].game)
  }

  /** The user hosts or plays in some filed arena. */
  predicate InArena(games: GamesManager, user: UserId)
    reads games
  {
    exists c :: c in games.games && InGame(games.games[c], user) && games.games[c].game.PvPGame?
  }

  /** The routing block for any sender: only somebody in a game has a message routed. */
  method RoutePlayer(user: UserId, words: seq<string>, games: GamesManager, store: UserStore,
                     superboost: bool, winAlways: bool, d: MessageDraws) returns (reply: Option<RouteReply>, ended: bool)
    requires AllReady(games)
    modifies games, store, GameObjects(games)
    ensures forall u :: u != user ==> store.Get(u) == old(store.Get(u))
    ensures reply.Some? <==> old(games.PlayingSomewhere(user)) || old(games.HostingSomewhere(user))
    ensures reply.None? ==> !ended && store.Get(user) == old(store.Get(user))
    ensures !ended ==> games.games == old(games.games)
    ensures ended ==> exists c :: c in old(games.games) && games.games == old(games.games) - {c}
    ensures reply == Some(NotRouted) ==> !ended && old(InArena(games, user)) && store.Get(user) == old(store.Get(user))
  {
    var code := games.GetPlayerGame(user);
    if code.None? {
      return None, false;
    }
    var c := code.value;
    assert Objects(games.games[c].game) <= GameObjects(games);
    ghost var g := games.games[c];
    var r;
    r, ended := RouteGame(games, c, words, user, store, superboost, winAlways, d.mine, d.sludge);
    reply := Some(r);
    assert r == NotRouted ==> c in old(games.games) && old(games.games)[c] == g && InGame(g, user) && g.game.PvPGame?;
  }

  /**
   * `message`: bots are ignored; outside a guild the handler panics; in an
   * allowed channel a non-empty message from somebody in a game goes to
   * that game and nowhere else, except that an arena has no routing arm;
   * every other message is left to `Chatter`.
   * The overlord's toggles are the parameters `superboost` and `winAlways`.
   */
  method OnMessage(msg: Message, guild: Option<GuildSettings>, games: GamesManager, store: UserStore,
                   crate: Crate, superboost: bool, winAlways: bool, d: MessageDraws) returns (out: Outcome)
    requires DrawsInRange(d) && AllReady(games)
    modifies games, store, crate, GameObjects(games)
    ensures forall u :: u != msg.author ==> store.Get(u) == old(store.Get(u))
    ensures msg.bot ==> out == Ignored && store.Get(msg.author) == old(store.Get(msg.author))
    ensures !msg.bot && guild.None? ==> out == Panicked && store.Get(msg.author) == old(store.Get(msg.author))
    ensures out == Ignored || out == Panicked ==>
      games.games == old(games.games) && crate.active == old(crate.active) && crate.code == old(crate.code)
    ensures out.Routed? ==>
      !msg.bot && guild.Some? && guild.value.IsAllowedChannel(msg.channel) && msg.content != [] &&
      (old(games.PlayingSomewhere(msg.author)) || old(games.HostingSomewhere(msg.author)))
    ensures (!msg.bot && guild.Some? && guild.value.IsAllowedChannel(msg.channel) && msg.content != [] &&
             (old(games.PlayingSomewhere(msg.author)) || old(games.HostingSomewhere(msg.author))) &&
             !old(InArena(games, msg.author))) ==> out.Routed?
    ensures out.Routed? ==> !out.reply.NotRouted?
    ensures out.Routed? ==> crate.active == old(crate.active) && crate.code == old(crate.code)
    ensures out.Routed? && !out.ended ==> games.games == old(games.games)
    ensures out.Routed? && out.ended ==> exists c :: c in old(games.games) && games.games == old(games.games) - {c}
    ensures !out.Routed? ==> games.games == old(games.games)
    ensures !msg.bot && guild.Some? && !out.Routed? && old(crate.active) ==> out.CrateOpened? || out == CrateWaiting
    ensures out.Earned? ==>
      !old(crate.active) && store.Get(msg.author).bananas == old(store.Get(msg.author)).bananas + out.gained
  {
    if msg.bot {
      return Ignored;
    }
    if guild.None? {
      // `msg.guild_id.unwrap()`
      return Panicked;
    }
    if guild.value.IsAllowedChannel(msg.channel) && msg.content != [] {
      var reply, ended := RoutePlayer(msg.author, msg.words, games, store, superboost, winAlways, d);
      if reply.Some? && !reply.value.NotRouted? {
        return Routed(reply.value, ended);
      }
    }
    out := Chatter(msg.content, msg.hasEmbeds, msg.author, store, crate, superboost, d);
  }
}
