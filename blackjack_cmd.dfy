/**
 * The `/blackjack` command: parse the bet, check it, take it from the
 * balance, deal a new game and file it in the registry with the caller as host.
 */
module BlackjackCommand {
  import opened Wrappers
  import opened UserFiles
  import opened Bets
  import opened Registry
  import Blackjack
  import Shuffling

  /** The smallest bet the command takes. */
  const MinimumBet: nat := 5

  datatype StartReply =
    | Confused
    | BetTooSmall
    | TooPoor
    | AlreadyInGame
    | Started(code: GameCode, bet: nat)

  /** `reply` is the refusal the checks before the debit give, in the order the source makes them. */
  predicate Rejected(raw: Option<string>, balance: nat, inGame: bool, reply: StartReply)
  {
    if raw.None? || ParseBet(raw.value, balance).None? then reply == Confused
    else if ParseBet(raw.value, balance).value < MinimumBet then reply == BetTooSmall
    else if balance < ParseBet(raw.value, balance).value then reply == TooPoor
    else inGame && reply == AlreadyInGame
  }

  /**
   * `run`: the option must be a string; a bet that does not parse, is below
   * 5 or above the balance, or a caller who already plays or hosts a game,
   * is refused with nothing changed.  Otherwise exactly the bet is debited
   * and a dealt game for that bet is filed under a fresh code, hosted by the
   * caller, with nobody else joined.  `deckDraws` shuffle the shoe and
   * `codeDraws` are the registry's code rolls.
   */
  method Run(raw: Option<string>, user: UserId, store: UserStore, games: GamesManager,
             deckDraws: seq<nat>, codeDraws: seq<nat>) returns (reply: StartReply)
    requires Shuffling.ValidDraws(Blackjack.ShoePacks * 52, deckDraws)
    requires games.SomeFreeCode(codeDraws)
    modifies store, games
    ensures forall u :: u != user ==> store.Get(u) == old(store.Get(u))
    ensures !reply.Started? ==>
      Rejected(raw, old(store.Get(user)).bananas, old(games.PlayingSomewhere(user) || games.HostingSomewhere(user)), reply) &&
      store.Get(user) == old(store.Get(user)) && games.games == old(games.games)
    ensures reply.Started? ==>
      raw.Some? && ParseBet(raw.value, old(store.Get(user)).bananas) == Some(reply.bet) &&
      MinimumBet <= reply.bet <= old(store.Get(user)).bananas &&
      !old(games.PlayingSomewhere(user)) && !old(games.HostingSomewhere(user))
    ensures reply.Started? ==>
      store.Get(user) == old(store.Get(user)).(bananas := old(store.Get(user)).bananas - reply.bet) &&
      reply.code < CodeSpace && reply.code !in old(games.games) &&
      games.games.Keys == old(games.games).Keys + {reply.code} &&
      (forall c :: c in old(games.games) ==> games.games[c] == old(games.games)[c])
    ensures reply.Started? ==>
      var h := games.games[reply.code];
      h.host == user && h.players == [] && h.game.BlackJackGame? &&
      fresh(h.game.blackjack) && h.game.blackjack.InPlay() &&
      h.game.blackjack.originalBet == reply.bet && h.game.blackjack.player.bet == reply.bet &&
      |h.game.blackjack.player.hands| == 1 && |h.game.blackjack.player.hands[0]| == 2 &&
      |h.game.blackjack.dealer| == 2 && |h.game.blackjack.deck.cards| == Blackjack.ShoePacks * 52 - 4
  {
    if raw.None? {
      return Confused;
    }
    var balance := store.Get(user).bananas;
    var amt := ParseBet(raw.value, balance);
    if amt.None? {
      return Confused;
    }
    if amt.value < MinimumBet {
      return BetTooSmall;
    }
    if balance < amt.value {
      return TooPoor;
    }
    var current := games.GetPlayerGame(user);
    if current.Some? {
      return AlreadyInGame;
    }
    store.RemoveBananas(user, amt.value);
    var game := new Blackjack.BlackJack(amt.value, deckDraws);
    game.Deal();
    var code := games.Insert(NewHandler(user, BlackJackGame(game)), codeDraws);
    reply := Started(code, amt.value);
  }
}
