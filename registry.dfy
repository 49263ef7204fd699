/**
 * The registry of running games: every session is filed under a numeric
 * code below 100000 together with its host and its list of joined players.
 * A user is found in a game either as a joined player or as its host.
 */
module Registry {
  import opened Wrappers
  import opened Cards
  import Blackjack
  import TexasHoldemGame
  import SludgeBattles
  import MineBattles
  import PvP

  type UserId = nat
  type GameCode = nat

  /** Codes are drawn below this bound. */
  const CodeSpace: nat := 100000

  /** The game a session runs; the arena is the variant the PvP command files. */
  datatype Games =
    | BlackJackGame(blackjack: Blackjack.BlackJack)
    | TexasHoldemTable(table: TexasHoldemGame.TexasHoldem)
    | SludgeMonsterGame(sludge: SludgeBattles.SludgeMonsterBattle)
    | MineGame(mine: MineBattles.MineBattle)
    | PvPGame(arena: PvP.PvPArena)

  datatype GameHandler = GameHandler(host: UserId, players: seq<UserId>, game: Games)

  /** `GameHandler::new`: nobody has joined yet. */
  function NewHandler(host: UserId, game: Games): (h: GameHandler)
    ensures h.host == host && h.game == game
    ensures forall u :: !HasPlayer(h, u)
  {
    GameHandler(host, [], game)
  }

  /** `has_player`: the user is in the joined list (the host is not in it by default). */
  predicate HasPlayer(h: GameHandler, u: UserId)
  {
    u in h.players
  }

  /** `add_player`: the user joins the list; everybody who had joined stays. */
  function AddPlayer(h: GameHandler, u: UserId): (r: GameHandler)
    ensures r.host == h.host && r.game == h.game
    ensures forall v :: HasPlayer(r, v) <==> HasPlayer(h, v) || v == u
    ensures |r.players| == |h.players| + 1
  {
    h.(players := h.players + [u])
  }

  /** The user is in the game in some role. */
  predicate InGame(h: GameHandler, u: UserId)
  {
    HasPlayer(h, u) || h.host == u
  }

  class GamesManager {
    var games: map<GameCode, GameHandler>

    /** `GamesManager::new`: no game runs. */
    constructor ()
      ensures games == map[]
    {
      games := map[];
    }

    /** `code_exists`. */
    predicate CodeExists(code: GameCode)
      reads this
    {
      code in games
    }

    /** Some draw of `draws`, taken below 100000, is a free code. */
    predicate SomeFreeCode(draws: seq<nat>)
      reads this
    {
      exists k :: 0 <= k < |draws| && !CodeExists(draws[k] % CodeSpace)
    }

    /** Draw k is the first of `draws` that lands on a free code. */
    predicate FirstFreeDraw(draws: seq<nat>, k: int)
      reads this
    {
      0 <= k < |draws| && !CodeExists(draws[k] % CodeSpace) &&
      forall j :: 0 <= j < k ==> CodeExists(draws[j] % CodeSpace)
    }

    /**
     * `generate_game_code`: re-rolls until a free code turns up.  The random
     * numbers are `draws`; the source loops for as long as it takes, so some
     * draw must land on a free code.
     */
    method GenerateGameCode(draws: seq<nat>) returns (code: GameCode)
      requires SomeFreeCode(draws)
      ensures code < CodeSpace && !CodeExists(code)
      ensures exists k :: FirstFreeDraw(draws, k) && code == draws[k] % CodeSpace
    {
      var i := 0;
      code := draws[0] % CodeSpace;
      while CodeExists(code)
        invariant 0 <= i < |draws| && code == draws[i] % CodeSpace
        invariant forall j :: 0 <= j < i ==> CodeExists(draws[j] % CodeSpace)
        invariant exists k :: i <= k < |draws| && !CodeExists(draws[k] % CodeSpace)
        decreases |draws| - i
      {
        i := i + 1;
        code := draws[i] % CodeSpace;
      }
      assert FirstFreeDraw(draws, i);
    }

    /** `insert`: the handler is filed under a fresh code; every other entry stays. */
    method Insert(h: GameHandler, draws: seq<nat>) returns (code: GameCode)
      requires SomeFreeCode(draws)
      modifies this
      ensures code < CodeSpace && code !in old(games)
      ensures games == old(games)[code := h]
      ensures forall c :: c != code ==> (c in games <==> c in old(games))
      ensures forall c :: c in old(games) ==> games[c] == old(games)[c]
    {
      code := GenerateGameCode(draws);
      games := games[code := h];
    }

    /** `end_game`: only that code leaves the registry. */
    method EndGame(code: GameCode)
      modifies this
      ensures code !in games
      ensures forall c :: c != code ==> (c in games <==> c in old(games))
      ensures forall c :: c in games ==> games[c] == old(games)[c]
    {
      games := games - {code};
    }

    /** Some game has the user as a joined player. */
    predicate PlayingSomewhere(u: UserId)
      reads this
    {
      exists c :: c in games && HasPlayer(games[c], u)
    }

    /** Some game has the user as its host. */
    predicate HostingSomewhere(u: UserId)
      reads this
    {
      exists c :: c in games && games[c].host == u
    }

    /**
     * `get_player_game`: a game the user has joined, and only when there is
     * none, a game the user hosts.  Map iteration order is unspecified, so the
     * scans run over the codes in an arbitrary order.
     */
    method GetPlayerGame(u: UserId) returns (r: Option<GameCode>)
      ensures r.None? <==> !PlayingSomewhere(u) && !HostingSomewhere(u)
      ensures r.Some? ==> r.value in games && InGame(games[r.value], u)
      ensures r.Some? && PlayingSomewhere(u) ==> HasPlayer(games[r.value], u)
      ensures r.Some? && !PlayingSomewhere(u) ==> games[r.value].host == u
    {
      var remaining := games.Keys;
      while remaining != {}
        invariant remaining <= games.Keys
        invariant forall c :: c in games && c !in remaining ==> !HasPlayer(games[c], u)
        decreases remaining
      {
        var c :| c in remaining;
        if HasPlayer(games[c], u) {
          return Some(c);
        }
        remaining := remaining - {c};
      }
      remaining := games.Keys;
      while remaining != {}
        invariant remaining <= games.Keys
        invariant forall c :: c in games && c !in remaining ==> games[c].host != u
        decreases remaining
      {
        var c :| c in remaining;
        if games[c].host == u {
          return Some(c);
        }
        remaining := remaining - {c};
      }
      return None;
    }

    /**
     * `can_join`: blackjack and the battles never take other players, a
     * Texas Hold'em table and an arena decide themselves.  The source
     * unwraps the lookup, so the code must be filed.
     */
    method CanJoin(code: GameCode) returns (b: bool)
      requires code in games
      ensures var g := games[code].game;
        (g.BlackJackGame? || g.SludgeMonsterGame? || g.MineGame? ==> !b) &&
        (g.TexasHoldemTable? ==> (b <==> g.table.CanJoin())) &&
        (g.PvPGame? ==> (b <==> g.arena.CanJoin()))
    {
      match games[code].game {
        case BlackJackGame(_) => b := false;
        case SludgeMonsterGame(_) => b := false;
        case MineGame(_) => b := false;
        case TexasHoldemTable(table) => b := table.CanJoin();
        case PvPGame(arena) => b := arena.CanJoin();
      }
    }

    /** `get_hand`: only a Texas Hold'em table reports a seat's cards; the code must be filed. */
    method GetHand(code: GameCode, u: UserId) returns (r: Option<seq<Card>>)
      requires code in games
      ensures !games[code].game.TexasHoldemTable? ==> r.None?
      ensures games[code].game.TexasHoldemTable? ==> r == games[code].game.table.GetHand(u)
    {
      match games[code].game {
        case TexasHoldemTable(table) => r := table.GetHand(u);
        case _ => r := None;
      }
    }
  }
}
