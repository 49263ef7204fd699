/** The `/levelup` command: level up once, or as long as it is affordable. */
module LevelupCommand {
  import opened Wrappers
  import opened UserFiles

  /** The outcome of the command; the embeds are left out. */
  datatype LevelupReply =
    | Refused
    | InvalidOption
    | LeveledUp(level: nat)

  /**
   * `run`: nothing happens unless the user can level up at all.  Then "all"
   * levels up until `can_levelup` fails, "one" or no option levels up once,
   * and any other option is refused with the record unchanged.
   */
  method Run(option: Option<string>, user: UserId, store: UserStore) returns (reply: LevelupReply)
    modifies store
    ensures forall u :: u != user ==> store.Get(u) == old(store.Get(u))
    ensures !CanLevelup(old(store.Get(user))) ==> reply == Refused && store.Get(user) == old(store.Get(user))
    ensures CanLevelup(old(store.Get(user))) && option == Some("all") ==>
      store.Get(user) == LevelAll(old(store.Get(user))) && !CanLevelup(store.Get(user))
    ensures CanLevelup(old(store.Get(user))) && (option == Some("one") || option.None?) ==>
      store.Get(user) == Leveled(old(store.Get(user)))
    ensures CanLevelup(old(store.Get(user))) && option.Some? && option.value !in {"all", "one"} ==>
      reply == InvalidOption && store.Get(user) == old(store.Get(user))
    ensures reply.LeveledUp? ==> reply.level == store.Get(user).level > old(store.Get(user)).level
    ensures store.Get(user).level <= MaxLevel || store.Get(user) == old(store.Get(user))
  {
    if !CanLevelup(store.Get(user)) {
      return Refused;
    }
    if option.Some? {
      if option.value == "all" {
        ghost var start := store.Get(user);
        LevelAllProperties(start);
        while CanLevelup(store.Get(user))
          invariant store.Get(user).level <= MaxLevel
          invariant LevelAll(store.Get(user)) == LevelAll(start)
          invariant forall u :: u != user ==> store.Get(u) == old(store.Get(u))
          decreases MaxLevel - store.Get(user).level
        {
          store.Levelup(user);
        }
        LevelAllProperties(store.Get(user));
      } else if option.value == "one" {
        store.Levelup(user);
      } else {
        return InvalidOption;
      }
    } else {
      store.Levelup(user);
    }
    reply := LeveledUp(store.Get(user).level);
  }
}
