/**
 * Per-guild settings: the channels where the bot's games and banana rewards
 * are allowed ("spam channels").  An empty list allows every channel.
 */
module Guilds {
  type ChannelId = nat

  /** The channel list without any occurrence of c, other channels in their order. */
  function Without(s: seq<ChannelId>, c: ChannelId): seq<ChannelId>
  {
    if s == [] then []
    else if s[0] == c then Without(s[1..], c)
    else [s[0]] + Without(s[1..], c)
  }

  /** Without drops every copy of c and keeps every other channel as often as it was listed. */
  lemma {:induction false} WithoutCounts(s: seq<ChannelId>, c: ChannelId, x: ChannelId)
    ensures multiset(Without(s, c))[x] == if x == c then 0 else multiset(s)[x]
    ensures x in Without(s, c) <==> x in s && x != c
  {
    if s != [] {
      WithoutCounts(s[1..], c, x);
      assert s == [s[0]] + s[1..];
      assert multiset(s) == multiset{s[0]} + multiset(s[1..]);
    }
  }

  class GuildSettings {
    var spamChannels: seq<ChannelId>

    constructor ()
      ensures spamChannels == []
    {
      spamChannels := [];
    }

    function GetChannels(): seq<ChannelId>
      reads this
    {
      spamChannels
    }

    method AddChannel(c: ChannelId)
      modifies this
      ensures spamChannels == old(spamChannels) + [c]
    {
      spamChannels := spamChannels + [c];
    }

    /** `retain(|x| x != c)`, one element at a time. */
    method RemoveChannel(c: ChannelId)
      modifies this
      ensures spamChannels == Without(old(spamChannels), c)
    {
      var kept := [];
      var i := 0;
      while i < |spamChannels|
        invariant 0 <= i <= |spamChannels|
        invariant kept + Without(spamChannels[i..], c) == Without(spamChannels, c)
      {
        assert spamChannels[i..] == [spamChannels[i]] + spamChannels[i + 1..];
        if spamChannels[i] != c {
          kept := kept + [spamChannels[i]];
        }
        i := i + 1;
      }
      spamChannels := kept;
    }

    /** A channel is allowed when it is listed or when no channel is listed at all. */
    predicate IsAllowedChannel(c: ChannelId)
      reads this
    {
      c in spamChannels || spamChannels == []
    }
  }

  /**
   * After adding c, c is allowed and exactly the listed channels are; after
   * removing c it is allowed only if that emptied the list.
   */
  lemma ChannelListEffects(s: seq<ChannelId>, c: ChannelId, x: ChannelId)
    ensures x in s + [c] <==> x == c || x in s
    ensures Without(s, c) == [] ==> forall y :: y !in s || y == c
    ensures c !in Without(s, c)
  {
    WithoutCounts(s, c, c);
    if Without(s, c) == [] {
      forall y ensures y !in s || y == c {
        WithoutCounts(s, c, y);
      }
    }
  }
}
