/** Constants of the bot's main module. */
module Config {
  /** The multiplier applied to payouts while superboost mode is on. */
  const Superboost: nat := 2
  /** Characters in a banana-crate code. */
  const CodeLength: nat := 6
  /** The per-message banana gain is drawn from this inclusive range. */
  const MessageGainMin: nat := 5
  const MessageGainMax: nat := 25
  /** Bananas one unit of sludge is worth. */
  const SludgeBananaWorth: nat := 250
  /** The owner's account id, which bets can be rigged in favour of. */
  const OwnerId: nat := 318884828508454912

  /**
   * Whether a game is rigged for `user`: the author is the owner and the
   * owner's always-win switch, a global the admin command toggles, is on.
   */
  predicate OwnerAlwaysWins(user: nat, winAlways: bool)
  {
    user == OwnerId && winAlways
  }
}
