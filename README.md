# ape_bot in Dafny

A model of the game and economy core of the *ape_bot* Discord bot. Every
user has a persistent record: level, prestige, bananas, ascension and an
inventory. The bot credits bananas for chat messages. It spawns banana
crates that the first user to type the code claims. The slash commands
move bananas: `/pay`, `/levelup`, `/fiftyfifty`, `/slots`, `/buy` and
`/discard`. `/blackjack` and `/pvp` start sessions of a game. A session is
filed in a registry of running games under a numeric code. The message
handler then sends each later message of a player to the game they are in:
- blackjack against the dealer "George";
- the sludge monster boss fight;
- a mine battle;
- the unfinished Texas Hold'em table.

The PvP arena is modelled as well. It lets several players take turns and
attack each other.

Each module follows one source file:

| module | file | models |
|---|---|---|
| `Wrappers` | wrappers.dfy | Option, the u8–u64 limits, wrap-around arithmetic, `gen_range` over a draw |
| `Text` | text.dfy | ASCII case mapping, `str::parse` for unsigned integers, `str::replace` |
| `Config` | config.dfy | constants of the main module and the owner's always-win switch |
| `Items` | inventory.dfy | inventory items and the inventory record |
| `UserFiles` | users.dfy | `UserFile`, its progression rules, the store of all users' records |
| `Guilds` | guild.dfy | the per-guild list of allowed ("spam") channels |
| `Cards`, `Shuffling` | cards.dfy, shuffling.dfy | cards, suits, the multi-pack deck, Fisher–Yates |
| `Registry` | registry.dfy | `GameHandler` and `GamesManager` |
| `BlackjackRules`, `Blackjack` | blackjack_rules.dfy, blackjack.dfy | hand scoring and settlement; the game session |
| `TexasHoldemGame` | texas_holdem.dfy | the Texas Hold'em table |
| `SludgeBattles` | sludge_battle.dfy | the sludge monster fight |
| `MineData`, `MineBattles` | mine_data.dfy, mine_battle.dfy | mine tiers and drop tables; the mine battle |
| `PvP` | pvp.dfy | the PvP arena |
| `Bets` | bets.dfy | the bet-amount parser of `/blackjack` and `/slots` |
| command modules | blackjack_cmd.dfy, pvp_cmd.dfy, slots.dfy, fiftyfifty.dfy, buy.dfy, discard.dfy, pay_cmd.dfy, levelup_cmd.dfy, leaderboard.dfy | one slash command each |
| `Bot` | main.dfy | the message handler: game routing, crates, per-message gain |

State that the source updates in place is modelled as a class with
`modifies` clauses: the user store, guild settings, the deck, the registry,
every game and the crate. Randomness is a parameter. Every draw is a
number (a `pick`, a `draws` sequence, a `MessageDraws` record). The model
maps it onto the range the source draws from. Rust's `u16`/`u32`/`u64`
wrap-around is written out where the source can reach it, following
release-build semantics. An `unwrap` that can fail on some input appears in
one of two ways:
- as a `requires` clause, when every caller in the source guarantees the
  value is there;
- as an explicit `Panicked` outcome, when a message from a user can trigger it.

## Model

| member | source | states |
|---|---|---|
| Wrappers.WrappingSub | src/games/mine_battle.rs:291 | a u32/u64 subtraction in a release build: the true difference when it is not negative, otherwise the limit minus the shortfall |
| Wrappers.WrappingAdd | src/games/pvp.rs:80 | a release-build unsigned addition: the true sum below the limit, otherwise the sum minus the limit |
| Wrappers.Damaged | src/games/sludge_monster_battle.rs:31-40 | a hit never raises health; health reaches zero exactly when the damage is at least the health; otherwise it falls by exactly the damage |
| Wrappers.Roll | src/games/sludge_monster_battle.rs:33 | `gen_range(lo..=hi)` over a draw lands inside the inclusive range |
| Wrappers.RollCovers | src/games/sludge_monster_battle.rs:33 | every value of the range is reached by some draw, so modelling randomness as a parameter loses no outcome |
| Text.ParseUnsigned | src/commands/blackjack_cmd.rs:27 | Rust's unsigned `parse`: whatever it accepts is a non-empty string whose value fits the type |
| Text.ParseU64 | src/commands/blackjack_cmd.rs:27 | `parse::<u64>` gives a value below 2^64 |
| Text.ParseU8 | src/games/mine_battle.rs:254 | `parse::<u8>` gives a value below 256 |
| Text.ItemSlot | src/games/mine_battle.rs:254-259 | the slot of "item n" is n−1 for n ≥ 1; "0" wraps to slot 255; a word that is not a u8 names no slot |
| Text.ParseDecimal | src/commands/banana/leaderboard.rs:15-16 | a number printed in decimal parses back to that number exactly when it fits the type; otherwise it is rejected |
| Text.Lower | src/games/blackjack.rs:438 | lower-casing keeps the length and maps every character through the ASCII lower-case map |
| Text.Upper | src/main.rs:286 | upper-casing keeps the length and maps every character through the ASCII upper-case map |
| Text.UpperIdempotent | src/main.rs:285-286 | an upper-cased string holds no lower-case letter, and upper-casing it again changes nothing |
| Text.RemoveAll | src/main.rs:285 | `replace(pat, "")` never lengthens a string; what it leaves is stated by Text.RemoveJsonSuffix and Bot.UnspacedIsChars |
| Bot.UnspacedIsChars | src/main.rs:285 | cutting the spaces out of a spaced code gives back its characters, when none of them is a space |
| Text.RemoveJsonSuffix | src/commands/banana/leaderboard.rs:13 | cutting ".json" out of a digit string followed by ".json" gives back the digits |
| Items.RemoveAt | src/commands/discard.rs:30 | `Vec::remove`: one element shorter; the elements before the index stay, the ones after move down one; the multiset loses exactly the removed element |
| UserFiles.ProgressionKeepsWellFormed | src/userfile.rs:150-239 | a new user is well-formed (level 1–100, prestige 1–10); every guarded level-up, prestige and ascension keeps a record well-formed |
| UserFiles.LevelupCostMonotone | src/userfile.rs:155-158 | a level-up costs strictly more at a higher level or at a higher prestige |
| UserFiles.LevelAllProperties | src/commands/banana/levelup.rs:24-28 | levelling up "all" stops exactly when no further level-up is allowed; it never passes level 100 and never adds bananas; prestige, ascension and inventory are untouched; the level stays only if no level-up was possible |
| UserFiles.UserStore.constructor | src/userfile.rs:47-71 | no user has a record yet, so each reads as a new user |
| UserFiles.UserStore.Put | src/userfile.rs:110-137 | writing a record replaces only that user's record |
| UserFiles.UserStore.AddBananas | src/userfile.rs:204-208 | the user's balance grows by the amount; nothing else in any record changes |
| UserFiles.UserStore.RemoveBananas | src/userfile.rs:198-202 | the balance shrinks by the amount, which callers must cover; nothing else changes |
| UserFiles.UserStore.Levelup | src/userfile.rs:161-166 | the level-up cost is paid and the level rises by one; other users are unchanged |
| UserFiles.UserStore.Prestige | src/userfile.rs:174-180 | back to level 1 with one more prestige; the new prestige is returned |
| UserFiles.UserStore.Ascend | src/userfile.rs:232-239 | the ascension cost is paid; level and prestige restart at 1; ascension rises by one |
| UserFiles.UserStore.AddItem | src/games/mine_battle.rs:172 | the item is appended to the user's items; nothing else changes |
| UserFiles.UserStore.RemoveItemIndex | src/commands/discard.rs:30 | exactly the slot's item leaves the list; the order is kept |
| UserFiles.UserStore.AddSuperNanners | src/games/mine_battle.rs:185 | the super-nanner counter grows with u64 wrap-around; nothing else changes |
| UserFiles.UserStore.RemoveSuperNanners | src/commands/buy.rs:35 | the counter shrinks with u64 wrap-around, so it can wrap below zero; nothing else changes |
| Guilds.WithoutCounts | src/guildfile.rs:130-134 | `retain(|x| x != c)` removes every copy of c and keeps every other channel as often as it was listed |
| Guilds.GuildSettings.constructor | src/guildfile.rs:21-28 | a new guild lists no channel |
| Guilds.GuildSettings.AddChannel | src/guildfile.rs:124-128 | the channel is appended to the list |
| Guilds.GuildSettings.RemoveChannel | src/guildfile.rs:130-134 | the loop leaves exactly the list without c, in order |
| Guilds.ChannelListEffects | src/guildfile.rs:124-140 | after an add the channel is listed; after a remove it is not; a list emptied by a removal held only that channel, so every channel becomes allowed again |
| Cards.IsRed | src/games/mod.rs:113-127 | every suit is either red or black, never both |
| Cards.PackCount | src/games/mod.rs:310-387 | one pack holds every Ace–King card of every suit exactly once and a red joker of each colour when jokers are on: 52 or 54 cards |
| Cards.PacksCount | src/games/mod.rs:310-387 | a deck of n packs holds n copies of every card one pack holds |
| Cards.NoJokersWithout | src/games/mod.rs:310-387 | a deck built without jokers holds no joker |
| Cards.JokerFreeShoe | src/games/mod.rs:310-394 | any reordering of a joker-free deck has 52 cards per pack and no joker |
| Cards.ShuffledShoe | src/games/blackjack.rs:190-206 | a fresh shuffled shoe without jokers holds each card exactly once per pack |
| Cards.Deck.constructor | src/games/mod.rs:310-387 | the two nested loops build exactly the packs one after the other, rank by rank |
| Cards.Deck.Shuffle | src/games/mod.rs:388-394 | shuffling is a permutation of the remaining cards |
| Cards.Deck.Deal | src/games/mod.rs:395-398 | the top card leaves the deck, which keeps every other card in order |
| Shuffling.FisherYates | src/games/mod.rs:388-394 | the swap loop returns a permutation of its input |
| Registry.NewHandler | src/games/mod.rs:416-419 | a new handler has its host and game and no joined player |
| Registry.AddPlayer | src/games/mod.rs:424-427 | the user joins; everybody who had joined stays |
| Registry.GamesManager.constructor | src/games/mod.rs:436-439 | no game runs |
| Registry.GamesManager.GenerateGameCode | src/games/mod.rs:454-462 | the re-roll loop returns the first drawn code below 100000 that no running game uses |
| Registry.GamesManager.Insert | src/games/mod.rs:440-445 | the handler is filed under a fresh code; every other entry stays as it was |
| Registry.GamesManager.EndGame | src/games/mod.rs:450-453 | only that code leaves the registry |
| Registry.GamesManager.GetPlayerGame | src/games/mod.rs:467-480 | None exactly when the user neither plays nor hosts anywhere; a game the user has joined is preferred to one the user hosts |
| Registry.GamesManager.CanJoin | src/games/mod.rs:506-513 | blackjack and the battles never take players; a table decides for itself; the arena arm, which asks the arena's own `can_join`, is the model's addition |
| Registry.GamesManager.GetHand | src/games/mod.rs:514-520 | only a Texas Hold'em table reports cards, those of the user's seat; the arena arm (no cards) is the model's addition |
| BlackjackRules.SumsRelated | src/games/blackjack.rs:17-33 | counting every ace as 11 adds exactly 10 per ace to the all-aces-one total |
| BlackjackRules.AppendCard | src/games/blackjack.rs:45-47 | adding a card adds its value to each total and counts one more ace for an ace |
| BlackjackRules.LowerProperties | src/games/blackjack.rs:60-72 | the ace-lowering loop stays between the hard and raw totals in steps of 10; it stops at 21 or below unless every ace is already lowered |
| BlackjackRules.ScoreIsBestTotal | src/games/blackjack.rs:49-75 | `score` is the best blackjack total: it counts as many aces as possible as 11 without busting, and it busts only when every ace already counts 1 |
| BlackjackRules.NaturalIsAceAndTen | src/games/blackjack.rs:77-80 | a two-card 21 is exactly an ace with a ten-valued card |
| BlackjackRules.CanSplitHand | src/games/blackjack.rs:132-142 | a split needs two cards of equal value and fewer than four hands |
| BlackjackRules.SettleSound | src/games/blackjack.rs:363-432 | a player bust loses even when the dealer busts too; a tie is an equal unbusted total; the player wins against a bust dealer or with a higher total; the dealer wins only with a higher total of at most 21; the cards alone never give a forfeit |
| BlackjackRules.NaturalPayout | src/games/blackjack.rs:390-400 | `(bet as f32 * 2.5).round()` is 2.5 times the bet, rounded half up |
| BlackjackRules.PayoutTable | src/games/blackjack.rs:363-432 | a loss pays nothing; a tie refunds the bet; a win pays double; a natural pays 2.5 times; superboost doubles winnings only |
| Blackjack.BlackjackPlayer.constructor | src/games/blackjack.rs:123-130 | one empty hand, that bet, playing hand 0 |
| Blackjack.BlackjackPlayer.Split | src/games/blackjack.rs:144-154 | the playing hand gives its last card to a new hand at the end |
| Blackjack.BlackjackPlayer.DoubleDown | src/games/blackjack.rs:156-158 | the bet grows by the amount; the hands are unchanged |
| Blackjack.BlackjackPlayer.Hit | src/games/blackjack.rs:160-162 | only the playing hand takes the card |
| Blackjack.BlackjackPlayer.NextHand | src/games/blackjack.rs:169-176 | moves on exactly when a next hand exists |
| Blackjack.BlackJack.constructor | src/games/blackjack.rs:190-206 | a shuffled six-pack shoe without jokers, holding each card six times, and an empty table |
| Blackjack.BlackJack.DrawCard | src/games/blackjack.rs:395-398 | the top card of the shoe, never a joker |
| Blackjack.BlackJack.Deal | src/games/blackjack.rs:208-219 | player, dealer, player, dealer from the top; insurance is offered on a dealer ace or ten; the natural flag is set for a two-card 21 |
| Blackjack.BlackJack.Hit | src/games/blackjack.rs:230-233 | the playing hand takes the top card; the turn counter advances |
| Blackjack.BlackJack.NextPlayerHand | src/games/blackjack.rs:221-228 | the bet resets to the original stake; the next hand, if any, becomes the playing hand and takes a card, even when there is no next hand |
| Blackjack.BlackJack.DealerTurn | src/games/blackjack.rs:274-278 | the dealer draws from the top of the shoe, each card while below 17, until the score reaches 17 |
| Blackjack.BlackJack.Stand | src/games/blackjack.rs:239-243 | the turn advances and the dealer plays to 17 |
| Blackjack.BlackJack.DoubleDown | src/games/blackjack.rs:245-250 | the bet grows; the hand takes one card; the dealer plays to 17 |
| Blackjack.BlackJack.DetermineWinner | src/games/blackjack.rs:363-432 | the playing hand is settled (a forfeit when rigged); the payout is credited; the session ends when no hand is left |
| Blackjack.BlackJack.InsuranceMessage | src/games/blackjack.rs:442-500 | while insurance is offered, "yes" and "no" with every balance, natural and dealer-natural case, including the refunds that are never charged |
| Blackjack.BlackJack.HitMessage | src/games/blackjack.rs:502-508 | one card; a bust settles the hand at once |
| Blackjack.BlackJack.StandMessage | src/games/blackjack.rs:509-513 | the dealer plays and the hand is settled and paid |
| Blackjack.BlackJack.SplitMessage | src/games/blackjack.rs:514-526 | the bet is paid again and the hand is split in two, or refused when the balance is short |
| Blackjack.BlackJack.DoubleMessage | src/games/blackjack.rs:527-555 | a stated amount is always rejected; otherwise the stake is paid again and the doubled bet is settled |
| Blackjack.BlackJack.HandleMessage | src/games/blackjack.rs:435-560 | each word in each phase leads to its reply and balance change; nobody else's record changes; at most 19 cards leave the shoe, all off its top |
| Blackjack.ShoeAfterMessages | src/games/blackjack.rs:435-560 | after i messages the shoe is the dealt shoe with at most 19·i cards taken off its top |
| Blackjack.FifteenMessagesFit | src/games/mod.rs:395-397 | through the first fifteen messages of a session the shoe holds the 19 cards a message may draw |
| Blackjack.Outcome | src/games/blackjack.rs:363-374 | a rigged game is a dealer forfeit; otherwise the cards decide |
| Blackjack.DealerStep | src/games/blackjack.rs:274-278 | one dealer draw below 17 raises the hard total by at least one and takes exactly that card off the shoe |
| TexasHoldemGame.HandOf | src/games/texas_holdem.rs:77-80 | the two cards of the user's first seat; None exactly when the user has no seat |
| TexasHoldemGame.TexasHoldem.constructor | src/games/texas_holdem.rs:25-37 | two shuffled packs without jokers, nobody seated, round 0 |
| TexasHoldemGame.TexasHoldem.AddPlayer | src/games/texas_holdem.rs:38-47 | a new seat holding the next two cards off the deck |
| TexasHoldemGame.TexasHoldem.Start | src/games/texas_holdem.rs:48-68 | the seats are shuffled; seat 0 pays the small blind, half of a fiftieth of the buy-in, and seat 1 the big blind, a fiftieth of the buy-in |
| TexasHoldemGame.TexasHoldem.GetHand | src/games/texas_holdem.rs:77-80 | two cards, or None exactly when the user has no seat |
| SludgeBattles.RewardHigh | src/games/sludge_monster_battle.rs:120-130 | the top of the reward range for each boss size |
| SludgeBattles.WinReward | src/games/sludge_monster_battle.rs:131-132 | a whole number of thousands between a fifth of the top and the top |
| SludgeBattles.DefeatCost | src/games/sludge_monster_battle.rs:82 | a multiple of 100 between 100 and 2000 |
| SludgeBattles.BiggestBossReward | src/games/sludge_monster_battle.rs:111-112 | a 500-health boss pays between 20 000 and 100 000, as the comment in the source says |
| SludgeBattles.SludgeMonsterBattle.constructor | src/games/sludge_monster_battle.rs:14-29 | boss health 100–500 in hundreds; the thumbnail follows the size |
| SludgeBattles.SludgeMonsterBattle.Attack | src/games/sludge_monster_battle.rs:31-40 | 0–25 damage off the boss, stopping at zero |
| SludgeBattles.SludgeMonsterBattle.BossTurn | src/games/sludge_monster_battle.rs:47-56 | 0–10 damage off the player, stopping at zero |
| SludgeBattles.SludgeMonsterBattle.HealPlayer | src/games/sludge_monster_battle.rs:58-64 | the u32 sum, capped at 100 |
| SludgeBattles.SludgeMonsterBattle.HandlePlayerDeath | src/games/sludge_monster_battle.rs:81-101 | the cost is reported in full, but at most the balance is taken |
| SludgeBattles.SludgeMonsterBattle.AttackMessage | src/games/sludge_monster_battle.rs:107-154 | a kill pays the boss-size reward; otherwise the boss strikes back, and a player at zero is defeated |
| SludgeBattles.SludgeMonsterBattle.RunMessage | src/games/sludge_monster_battle.rs:155-175 | flight succeeds on a zero draw over the health; otherwise the boss strikes; at zero health the draw panics |
| SludgeBattles.SludgeMonsterBattle.HandleMessage | src/games/sludge_monster_battle.rs:103-183 | only the exact commands act; only a win, a defeat or a flight ends the fight; only the sender's record changes |
| MineData.RandomItem | src/mine_data.rs:17-24 | an item of the table, or a 10-health potion for an empty table |
| MineData.RandomEnemy | src/mine_data.rs:49-53 | one of the tier's creatures |
| MineData.GetTier | src/mine_data.rs:84-86 | one of the loaded tiers |
| MineBattles.StartingHealth | src/games/mine_battle.rs:21-23 | the rolled health rounded down to a multiple of 100 |
| MineBattles.SludgeReward | src/games/mine_battle.rs:141-147 | the u32 product of sludge value and roll, scaled by hundreds of health when the enemy scales |
| MineBattles.DeathCost | src/games/mine_battle.rs:202-206 | between a fifth and a half of the balance, so never more than the balance |
| MineBattles.AttackRoll | src/games/mine_battle.rs:35-45 | the equipped weapon's range, otherwise 0–10; an empty weapon range panics |
| MineBattles.DropIndex | src/mine_data.rs:22 | a valid index into a non-empty table |
| MineBattles.PrayLandsOn200 | src/games/mine_battle.rs:291-292 | the u32 `200 - health` heal lands on exactly 200 from any health |
| MineBattles.MineBattle.constructor | src/games/mine_battle.rs:19-33 | rounded enemy health, player at 100, not prayed, the enemy's thumbnail |
| MineBattles.MineBattle.Attack | src/games/mine_battle.rs:47-52 | the enemy's health falls by the damage, stopping at zero |
| MineBattles.MineBattle.EnemyTurn | src/games/mine_battle.rs:60-69 | the enemy's damage range off the player, stopping at zero |
| MineBattles.MineBattle.HealPlayer | src/games/mine_battle.rs:71-77 | no cap at 100, only the u32 wrap-around |
| MineBattles.MineBattle.HandleWin | src/games/mine_battle.rs:135-198 | by the kind draw: sludge bananas, an item kept only if the inventory is not full, or 1–5 super nanners; the item list grows by exactly the loot |
| MineBattles.MineBattle.HandlePlayerDeath | src/games/mine_battle.rs:200-224 | the rolled cost leaves the balance |
| MineBattles.MineBattle.UseItem | src/games/mine_battle.rs:79-117 | potions heal; tomes strike and let the enemy answer; a tome wins exactly when its damage exceeds the health, and only a win adds loot; the Developer Tome is not used up; weapons and others are refused |
| MineBattles.MineBattle.AttackMessage | src/games/mine_battle.rs:232-251 | a kill wins; otherwise the enemy strikes back, and a player at zero is defeated |
| MineBattles.AfterUseAccounting | src/games/mine_battle.rs:271-274 | using a slot removes exactly one copy of a used-up item, keeps a Developer Tome or an unusable item, and keeps the slots before it |
| MineBattles.MineBattle.UseSlot | src/games/mine_battle.rs:261-283 | the item list becomes the slot's list with a win's loot appended and the slot removed exactly when the item is used up; a win with the player at zero becomes a defeat; otherwise only the list and, on a defeat, the stolen bananas change |
| MineBattles.MineBattle.ItemMessage | src/games/mine_battle.rs:252-284 | a missing slot word panics and a bad slot is refused, each with nothing changed; otherwise that slot's item is used with the list effect of UseSlot |
| MineBattles.MineBattle.PrayMessage | src/games/mine_battle.rs:285-295 | once per battle, sets health to exactly 200 |
| MineBattles.MineBattle.RunMessage | src/games/mine_battle.rs:296-316 | flight on a zero draw over the health; otherwise the enemy strikes |
| MineBattles.MineBattle.HandleMessage | src/games/mine_battle.rs:226-324 | attack, item, pray, run, surrender and unknown words each with its handler's effect; only a win, a defeat or a flight ends the battle; only the sender's record changes |
| PvP.ApplyFlags | src/games/pvp.rs:41-55 | flags of the right widths give settings of the right widths |
| PvP.FlagKeepsOthers | src/games/pvp.rs:47-55 | a flag changes only the setting of its own kind |
| PvP.LastFlagWins | src/games/pvp.rs:47-55 | the last flag of each kind decides that setting |
| PvP.UnflaggedDefault | src/games/pvp.rs:41-45 | a setting no flag mentions keeps its default |
| PvP.ItemsUnlessNoItem | src/games/pvp.rs:49 | items are enabled exactly when no NoItem flag is given |
| PvP.NextTurnOf | src/games/pvp.rs:100-105 | the u16 turn goes to the next seat and wraps to 0 |
| PvP.RollbackOf | src/games/pvp.rs:609-615 | back one seat, from the first to the last |
| PvP.RollbackUndoesNextTurn | src/games/pvp.rs:609-615 | rollback and advance undo each other |
| PvP.HealedTo | src/games/pvp.rs:460-470 | a potion never heals past the maximum, never lowers health, and adds the full amount when it fits |
| PvP.Position | src/games/pvp.rs:84 | `position(p.user == u)` is the first seat of u |
| PvP.FirstOther | src/games/pvp.rs:636 | `position(p.user != u)` is the first seat of anyone else |
| PvP.ChooseTarget | src/games/pvp.rs:245-300 | with more than two players the first mention, who must be seated; otherwise the first other player |
| PvP.EquippedWeapon | src/games/pvp.rs:300-305 | a weapon only when items are enabled and a weapon is equipped |
| PvP.PvPArena.constructor | src/games/pvp.rs:40-72 | the flags are applied in order; the host is seated with 100 health |
| PvP.PvPArena.AddPlayer | src/games/pvp.rs:74-81 | a new seat with the base health; the total grows |
| PvP.PvPArena.RemovePlayer | src/games/pvp.rs:83-86 | the user's first seat goes; the order is kept |
| PvP.PvPArena.NextTurn | src/games/pvp.rs:100-105 | the turn moves to the next seat |
| PvP.PvPArena.PreviousTurn | src/games/pvp.rs:609-615 | the turn goes back one seat |
| PvP.PvPArena.HandleWin | src/games/pvp.rs:211-226 | the winner gets the pot: the stake times every player that ever joined |
| PvP.PvPArena.CreditSeats | src/games/pvp.rs:626-632 | every seat not held by the excluded user is credited once per seat |
| PvP.PvPArena.HandlePrestartMessage | src/games/pvp.rs:125-209 | in the lobby the host starts the arena once two are seated or ends it and refunds every seat its stake; "list" answers; "leave" panics; "kick" only lowers the player total |
| PvP.PvPArena.Strike | src/games/pvp.rs:303-340 | only the target seat's health falls |
| PvP.PvPArena.AttackMessage | src/games/pvp.rs:245-388 | turn check, target choice, damage roll; a kill wins with two players left; only a bare-hand kill asks for removal |
| PvP.PvPArena.UsePotion | src/games/pvp.rs:450-495 | heals the sender's seat, or the first seat when the sender has none; the turn is handed back; the potion is used up |
| PvP.PvPArena.UseTome | src/games/pvp.rs:496-587 | aimed like attack, on the sender's turn only; used up once it strikes; no removal on a kill |
| PvP.PvPArena.UseItem | src/games/pvp.rs:432-604 | potion or tome by the slot's item; anything else hands the turn back |
| PvP.PvPArena.ItemMessage | src/games/pvp.rs:389-604 | disabled items and bad slots hand the turn back with nothing changed |
| PvP.PvPArena.SurrenderMessage | src/games/pvp.rs:624-647 | every other seat gets a share of one stake; with two players left the other wins |
| PvP.PvPArena.PlayMessage | src/games/pvp.rs:244-658 | the first word picks the action; only attacks and surrender keep the advanced turn |
| PvP.PvPArena.HandleMessage | src/games/pvp.rs:228-661 | the current player's message advances the turn unless the action hands it back; nobody else's message moves it; only a win ends the arena |
| Bets.Scaled | src/commands/blackjack_cmd.rs:22-25 | a prefix that is not a number counts as 5; the product wraps at 2^64 |
| Bets.ParseBet | src/commands/blackjack_cmd.rs:17-32 | "all", "half", k and m suffixes and plain numbers; only a plain non-number is rejected |
| Bets.BetRoundTrip | src/commands/blackjack_cmd.rs:27 | a printed number parses back as that bet |
| Bets.ScaledBetRoundTrip | src/commands/blackjack_cmd.rs:22-25 | n followed by k is n thousand and n followed by m is n million, while the product fits |
| Bets.SuffixFallback | src/commands/blackjack_cmd.rs:23 | a `k` or `m` after anything that is not a u64, nothing included, bets five thousand or five million |
| BlackjackCommand.Run | src/commands/blackjack_cmd.rs:7-111 | refusals in the source's order change nothing; otherwise exactly the bet is debited and a dealt game is filed under a fresh code |
| PvPCommand.AsUnsigned | src/commands/pvp_command.rs:22-25 | `as u64` / `as u32` keeps values that fit |
| PvPCommand.ChooseAll | src/commands/pvp_command.rs:18-38 | the chosen values fit their types |
| PvPCommand.LastIntegerOptionWins | src/commands/pvp_command.rs:18-38 | the last integer option of a known name decides its setting |
| PvPCommand.UnnamedKeepsDefault | src/commands/pvp_command.rs:10-16 | unnamed settings keep their defaults |
| PvPCommand.Flags | src/commands/pvp_command.rs:54-61 | NoItem is present exactly when items are off |
| PvPCommand.FlagsSettings | src/commands/pvp_command.rs:54-73 | the arena gets the chosen cap and healths, and items unless turned off |
| PvPCommand.Run | src/commands/pvp_command.rs:7-104 | refusals change nothing; otherwise exactly the stake is debited and the arena is filed under a fresh code |
| Slots.AmountPerReel | src/commands/slots.rs:27-38 | weights 1–8 |
| Slots.PrefixWeight | src/commands/slots.rs:27-65 | the first k symbols weigh k(k+1)/2 |
| Slots.TotalWeight | src/commands/slots.rs:43 | the total weight is 36 |
| Slots.Random | src/commands/slots.rs:40-52 | the count-down loop picks the symbol whose window holds the draw; the fallback is unreachable |
| Slots.PickWindow | src/commands/slots.rs:40-52 | each symbol takes a window of draws as wide as its weight |
| Slots.LosingSpin | src/commands/slots.rs:141-151 | the first draw whose reels differ |
| Slots.Winnings | src/commands/slots.rs:68-79 | cherry pays 10 times; bar pays once; diamond pays half; the rest pay at least the bet |
| Slots.Run | src/commands/slots.rs:97-194 | bet checks; a win pays the multiple without taking the bet; a loss takes exactly the bet |
| FiftyFifty.Run | src/commands/fiftyfifty.rs:10-53 | the stake is the whole balance: a win adds it again and a loss empties it |
| BuyCommand.PriceList | src/commands/buy.rs:24-135 | the items on sale and their prices |
| BuyCommand.Run | src/commands/buy.rs:8-145 | each refusal changes nothing; a purchase appends the item and deducts its price with wrap-around; the counter can grow only on item 6 at balance 1 |
| DiscardCommand.Run | src/commands/discard.rs:6-33 | a negative or out-of-range index is refused; otherwise exactly that item goes and the reply names it |
| PayCommand.AsU64 | src/commands/banana/pay.rs:18 | `as u64` of an i64: a negative amount wraps |
| PayCommand.Run | src/commands/banana/pay.rs:6-39 | a short balance is refused; a payment moves the amount and conserves the two balances |
| LevelupCommand.Run | src/commands/banana/levelup.rs:7-74 | "all", "one" or no option level up; other options are refused; nothing happens without a possible level-up |
| Leaderboard.BetterIrreflexive | src/commands/banana/leaderboard.rs:23-34 | no record beats itself |
| Leaderboard.BetterNotAsymmetric | src/commands/banana/leaderboard.rs:23-34 | two records can each beat the other |
| Leaderboard.Considered | src/commands/banana/leaderboard.rs:18-71 | the board grows by one while short of three and then stays at three |
| Leaderboard.Consider | src/commands/banana/leaderboard.rs:18-71 | the slot-by-slot loop body gives the tabulated board for every outcome of the three comparisons; a full board the user beats nowhere is unchanged; beating slots 2 and 0 but not 1 lists the user twice |
| Leaderboard.FileIdRoundTrip | src/commands/banana/leaderboard.rs:13-16 | a user's file name gives back the id |
| Leaderboard.Board | src/commands/banana/leaderboard.rs:11-78 | the board after the names in directory order holds min(3, numeric names) entries |
| Leaderboard.BoardStep | src/commands/banana/leaderboard.rs:55-71 | on the whole loop's board, a user who beats slot 0 takes it and the old slot-0 user moves to slot 1; a full board the user beats nowhere stays; a non-numeric name changes nothing |
| Leaderboard.TopUsers | src/commands/banana/leaderboard.rs:8-78 | the loop's board is the fold of the per-user table over the numeric names in order; it holds min(3, numeric names) entries, each a listed user's record |
| Bot.CodeChar | src/main.rs:86-93 | a code character is printable and never a backquote, backslash, space or lower-case letter |
| Bot.GenCrateCode | src/main.rs:82-96 | six characters separated by single spaces; with the spaces removed, the characters drawn |
| Bot.TypedCodeMatches | src/main.rs:285-286 | typing the code, in any case, matches |
| Bot.Crate.constructor | src/main.rs:23-24 | no crate is active |
| Bot.Crate.Spawn | src/main.rs:98-102 | the crate becomes active with a new code |
| Bot.Crate.Claim | src/main.rs:284-298 | the first message matching the code wins 10–249 bananas and closes the crate |
| Bot.MessageGain | src/main.rs:301-310 | 5–25, doubled for embeds, doubled again under superboost |
| Bot.RouteGame | src/main.rs:209-257 | the game handles the message, and the registry drops the code exactly when it ends; an arena, and only an arena, gets no answer and changes nothing |
| Bot.Chatter | src/main.rs:283-367 | crates, greetings, scolding, the gain, the random image and the crate spawn |
| Bot.RoutePlayer | src/main.rs:208-263 | the message goes to the user's game when there is one; an unanswered message means the user is in an arena and nothing changed |
| Bot.OnMessage | src/main.rs:146-367 | bots are ignored; a routed message comes from a game member in an allowed channel, and every such member outside an arena is routed; anything else falls through to crates and chatter |

## Left out

- Discord itself is left out: embeds, images, mentions rendering, slash-command registration and the HTTP client. Embed text is summarised by a reply datatype, and the content of the messages is not modelled.
- Files on disk become the in-memory user store. A missing or unreadable file reads as a new user. The panic on a corrupt JSON file is not modelled.
- Randomness becomes draws passed as parameters. `Roll` spreads each draw over its range, not the uniform distribution.
- Concurrency and the locks are left out. The crate's second `CRATE_ACTIVE` check guards against two nearly simultaneous claims, and in a model with one message at a time it never fires.
- The overlord commands in main.rs ("superboostmode", "ez", "gsd") are left out. The superboost and always-win switches they toggle become parameters of the handlers.
- Bot.OnMessage: a guild lookup on a message outside a guild (a DM) is the `Panicked` outcome the `unwrap` gives; the model does not capture that the handler task then dies.
- Bot.OnMessage: the "odds" reply does not change any state, so the model leaves it out; the message still earns bananas, and the model keeps that.
- Bot.RouteGame: the message router has no arm for the PvP arena. An arena member's message gets no game reply and falls through to crates and chatter, like the router's other unmatched paths. The arena's own message handler is never called from the router; it is modelled on its own.
- Blackjack.BlackJack.HandleMessage: it requires 19 cards in the shoe. The model proves this only for the first fifteen messages of a session (Blackjack.FifteenMessagesFit), because each message draws at most 19 cards. Longer sessions are left out. In the source they rely on hands busting and the dealer standing long before the 308 cards left after the deal run out, and an empty shoe would panic at `pop().unwrap()`. Because of this, Bot.OnMessage requires that every filed game is ready for its handler, but does not promise it afterwards.
- Registry: the `Games` enum at src/games/mod.rs:400-406 has no arena variant, yet src/commands/pvp_command.rs files `Games::PvP`. The model adds the variant, and with it the arena arms of CanJoin (which asks the arena's own `can_join`) and GetHand (no cards). These arms are the model's, not the source's.
- TexasHoldemGame: `handle_message` and `determine_winner` are `todo!()` in the source; a routed Texas message gives `TexasUnfinished` instead of the panic. Betting rounds, the community cards and the showdown are not written in the source.
- Slots.Winnings: the model computes the `f32` product exactly. That holds while the product's odd part fits the 24-bit significand. Grapes (1.75) is the strictest case: exact while 7 times the bet is below 2^24, i.e. for bets up to 2,396,745. A larger bet is rounded to 24 significant bits before the truncating cast, and the model does not capture that. For example, 10,000,001 on grapes pays 17,500,002 in the source and 17,500,001 here.
- BlackjackRules.NaturalPayout: the model computes `bet as f32 * 2.5` exactly. That holds while 5 times the bet is below 2^24, i.e. for bets up to 3,355,443. A larger bet has its product rounded to 24 significant bits, ties to even, before `round()`, and the model does not capture that. For example, a bet of 4,194,305 pays 10,485,762 in the source and 10,485,763 here.
- UserFiles: bananas, levels and prestige are unbounded naturals. The u64/u16 overflow panics of debug builds are not modelled; release-build wrap-around is modelled only where a guard lets it happen (super nanners, pay's cast).
- The inventory methods (`add_item`, `remove_item_index`, `get_items`, `get_equiped`, the super-nanner counter and `is_full` for items) are not part of this model. They are modelled from their call sites, and the inventory capacity is a parameter.
- Voice-channel minutes, the mining job, `/join`, `/equip`, `/shop`, `/info`, `/prestige`, `/ascend`, `/admin` and minion collection are outside the modelled core.
- Messages are given already lower-cased and split on white space (`words`), as every game handler does first. Unicode lower-casing beyond ASCII is not modelled.
- Bot.Crate.Claim: the model compares the upper-cased message with the code without its spaces, as the source does; it does not model non-ASCII upper-casing.
- Text.RemoveAll: its own contract states only that the result is no longer than the input; the exact results the bot relies on are the lemmas Text.RemoveJsonSuffix and Bot.UnspacedIsChars.
