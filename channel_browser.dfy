/**
 * The channel list screen (ChannelBrowserActivity.kt): the loaded channels,
 * the list currently shown and the group names offered for filtering. The
 * three mutable lists are fields of a class; every operation clears the list
 * it rebuilds and refills it.
 */
module ChannelBrowser {
  import opened Text
  import opened Seqs
  import opened Models
  import Player

  const AllChannels: string := "All Channels"

  /**
   * The group list extractGroups builds from cs: "All Channels", then each
   * non-empty group title the first time it is met and not already listed.
   */
  function GroupList(cs: seq<Channel>): (g: seq<string>)
    ensures |g| >= 1 && g[0] == AllChannels
  {
    if |cs| == 0 then [AllChannels]
    else
      var g := GroupList(cs[..|cs| - 1]);
      var t := cs[|cs| - 1].groupTitle;
      if t != "" && t !in g then g + [t] else g
  }

  /** Channels whose group title is group: the predicate of filterByGroup. */
  function GroupIs(group: string): Channel -> bool {
    (c: Channel) => c.groupTitle == group
  }

  /** The predicate of searchChannels: name or group title contains the query, ignoring case. */
  function MatchesQuery(query: string): Channel -> bool {
    (c: Channel) => ContainsIgnoreCase(c.name, query) || ContainsIgnoreCase(c.groupTitle, query)
  }

  /** What filterByGroup shows. */
  function GroupSelection(channels: seq<Channel>, group: string): seq<Channel> {
    if group == AllChannels then channels else Filter(channels, GroupIs(group))
  }

  /** What searchChannels shows. */
  function SearchResult(channels: seq<Channel>, query: string): seq<Channel> {
    if query == "" then channels else Filter(channels, MatchesQuery(query))
  }

  /** The index of the first channel of cs with group title t, or -1. */
  function FirstWithGroup(cs: seq<Channel>, t: string): (r: int)
    ensures -1 <= r < |cs|
    ensures r >= 0 ==> cs[r].groupTitle == t && forall k :: 0 <= k < r ==> cs[k].groupTitle != t
    ensures r == -1 ==> forall k :: 0 <= k < |cs| ==> cs[k].groupTitle != t
  {
    if |cs| == 0 then -1
    else if cs[0].groupTitle == t then 0
    else
      var r := FirstWithGroup(cs[1..], t);
      assert forall k :: 1 <= k < |cs| ==> cs[k] == cs[1..][k - 1];
      if r < 0 then -1 else r + 1
  }

  class ChannelBrowser {
    var channels: seq<Channel>
    var filteredChannels: seq<Channel>
    var groups: seq<string>

    constructor ()
      ensures channels == [] && filteredChannels == [] && groups == []
    {
      channels := [];
      filteredChannels := [];
      groups := [];
    }

    /** extractGroups: rebuild groups from channels. */
    method ExtractGroups()
      modifies this
      ensures groups == GroupList(channels)
      ensures channels == old(channels) && filteredChannels == old(filteredChannels)
    {
      groups := [];
      groups := groups + [AllChannels];
      for i := 0 to |channels|
        invariant channels == old(channels) && filteredChannels == old(filteredChannels)
        invariant groups == GroupList(channels[..i])
      {
        var channel := channels[i];
        assert channels[..i + 1][..i] == channels[..i];
        if channel.groupTitle != "" && channel.groupTitle !in groups {
          groups := groups + [channel.groupTitle];
        }
      }
      assert channels[..|channels|] == channels;
    }

    /** filterByGroup: everything for "All Channels", else the channels of that group. */
    method FilterByGroup(group: string)
      modifies this
      ensures filteredChannels == GroupSelection(channels, group)
      ensures channels == old(channels) && groups == old(groups)
    {
      filteredChannels := [];
      if group == AllChannels {
        filteredChannels := filteredChannels + channels;
      } else {
        filteredChannels := filteredChannels + Filter(channels, GroupIs(group));
      }
    }

    /** updateChannelList: show every channel. */
    method UpdateChannelList()
      modifies this
      ensures filteredChannels == channels
      ensures channels == old(channels) && groups == old(groups)
    {
      filteredChannels := [];
      filteredChannels := filteredChannels + channels;
    }

    /** searchChannels: everything for the empty query, else the channels matching it. */
    method SearchChannels(query: string)
      modifies this
      ensures filteredChannels == SearchResult(channels, query)
      ensures channels == old(channels) && groups == old(groups)
    {
      filteredChannels := [];
      if query == "" {
        filteredChannels := filteredChannels + channels;
      } else {
        filteredChannels := filteredChannels + Filter(channels, MatchesQuery(query));
      }
    }

    /**
     * What loadChannelsFromUrl does once the cached or fetched list is at
     * hand: append it after the channels already there, show them all and
     * rebuild the groups.
     */
    method LoadChannels(loaded: seq<Channel>)
      modifies this
      ensures channels == old(channels) + loaded
      ensures filteredChannels == channels
      ensures groups == GroupList(channels)
    {
      channels := channels + loaded;
      UpdateChannelList();
      ExtractGroups();
    }
  }

  // ---------------------------------------------------------------------
  // The group list
  // ---------------------------------------------------------------------

  /** A name is listed exactly when it is "All Channels" or the non-empty group title of some channel. */
  lemma {:induction false} GroupListMembers(cs: seq<Channel>, t: string)
    ensures t in GroupList(cs) <==>
              t == AllChannels || (t != "" && exists k :: 0 <= k < |cs| && cs[k].groupTitle == t)
  {
    if |cs| > 0 {
      var init := cs[..|cs| - 1];
      GroupListMembers(init, t);
      if t != "" && t != AllChannels {
        if exists k :: 0 <= k < |cs| && cs[k].groupTitle == t {
          var k :| 0 <= k < |cs| && cs[k].groupTitle == t;
          if k < |cs| - 1 {
            assert init[k] == cs[k];
          }
        }
        if exists k :: 0 <= k < |init| && init[k].groupTitle == t {
          var k :| 0 <= k < |init| && init[k].groupTitle == t;
          assert cs[k] == init[k];
        }
      }
    }
  }

  /** No name is listed twice and the empty title never is. */
  lemma {:induction false} GroupListDistinct(cs: seq<Channel>)
    ensures forall a, b :: 0 <= a < b < |GroupList(cs)| ==> GroupList(cs)[a] != GroupList(cs)[b]
    ensures "" !in GroupList(cs)
  {
    if |cs| > 0 {
      GroupListDistinct(cs[..|cs| - 1]);
    }
  }

  /** The titles after the head are listed in the order of their first channel. */
  lemma {:induction false} GroupListOrder(cs: seq<Channel>)
    ensures forall a :: 1 <= a < |GroupList(cs)| ==> FirstWithGroup(cs, GroupList(cs)[a]) >= 0
    ensures forall a, b :: 1 <= a < b < |GroupList(cs)| ==>
              FirstWithGroup(cs, GroupList(cs)[a]) < FirstWithGroup(cs, GroupList(cs)[b])
  {
    if |cs| > 0 {
      var init := cs[..|cs| - 1];
      var gi := GroupList(init);
      GroupListOrder(init);
      forall a | 1 <= a < |gi|
        ensures FirstWithGroup(cs, gi[a]) == FirstWithGroup(init, gi[a])
      {
        assert FirstWithGroup(init, gi[a]) >= 0;
        SameFirstInLonger(init, cs, gi[a]);
      }
      var t := cs[|cs| - 1].groupTitle;
      if t != "" && t !in gi {
        GroupListMembers(init, t);
        assert FirstWithGroup(init, t) == -1;
        assert FirstWithGroup(cs, t) == |cs| - 1;
      }
    }
  }

  /** A first occurrence within a prefix is the first occurrence in the whole list. */
  lemma SameFirstInLonger(init: seq<Channel>, cs: seq<Channel>, t: string)
    requires |init| < |cs| && init == cs[..|init|]
    requires FirstWithGroup(init, t) >= 0
    ensures FirstWithGroup(cs, t) == FirstWithGroup(init, t)
  {
    var r := FirstWithGroup(init, t);
    assert cs[r] == init[r];
  }

  // ---------------------------------------------------------------------
  // Filtering and search
  // ---------------------------------------------------------------------

  /** filterByGroup keeps exactly the channels of the group, in their order, as a subsequence. */
  lemma GroupSelectionMembers(channels: seq<Channel>, group: string, c: Channel)
    requires group != AllChannels
    ensures c in GroupSelection(channels, group) <==> c in channels && c.groupTitle == group
    ensures IsSubsequence(GroupSelection(channels, group), channels)
  {
    FilterMembers(channels, GroupIs(group), c);
    FilterIsSubsequence(channels, GroupIs(group));
  }

  /** Whatever the group, the shown list is a subsequence of the channels. */
  lemma GroupSelectionIsSubsequence(channels: seq<Channel>, group: string)
    ensures IsSubsequence(GroupSelection(channels, group), channels)
  {
    if group == AllChannels {
      SubsequenceReflexive(channels);
    } else {
      FilterIsSubsequence(channels, GroupIs(group));
    }
  }

  /** A non-empty query keeps exactly the channels whose name or group contains it, as a subsequence. */
  lemma SearchResultMembers(channels: seq<Channel>, query: string, c: Channel)
    requires query != ""
    ensures c in SearchResult(channels, query) <==>
              c in channels && (ContainsIgnoreCase(c.name, query) || ContainsIgnoreCase(c.groupTitle, query))
    ensures IsSubsequence(SearchResult(channels, query), channels)
  {
    FilterMembers(channels, MatchesQuery(query), c);
    FilterIsSubsequence(channels, MatchesQuery(query));
  }

  /** The empty-query shortcut agrees with the filter: every channel contains "". */
  lemma EmptyQueryIsFilter(channels: seq<Channel>)
    ensures SearchResult(channels, "") == Filter(channels, MatchesQuery(""))
    ensures IsSubsequence(SearchResult(channels, ""), channels)
  {
    forall k | 0 <= k < |channels| ensures MatchesQuery("")(channels[k]) {
      EverythingContainsEmpty(channels[k].name);
    }
    FilterKeepsAll(channels, MatchesQuery(""));
    SubsequenceReflexive(channels);
  }

  /** Selecting a group that is listed and is not the head shows a non-empty list. */
  lemma ListedGroupIsNonEmpty(channels: seq<Channel>, group: string)
    requires group in GroupList(channels) && group != AllChannels
    ensures |GroupSelection(channels, group)| > 0
  {
    GroupListMembers(channels, group);
    var k :| 0 <= k < |channels| && channels[k].groupTitle == group;
    assert channels[k] in channels;
    GroupSelectionMembers(channels, group, channels[k]);
  }

  // ---------------------------------------------------------------------
  // playChannel
  // ---------------------------------------------------------------------

  /** The intent extras playChannel puts for a channel. The logo and group are not passed on. */
  function PlayExtras(c: Channel): map<string, string> {
    map["channel_url" := c.url, "channel_name" := c.name, "channel_cookie" := c.cookie,
        "channel_referer" := c.referer, "channel_origin" := c.origin, "channel_user_agent" := c.userAgent]
  }

  /** The player screen reads back every field playChannel sent. */
  lemma PlayChannelRoundTrip(c: Channel)
    ensures var l := Player.LaunchFromExtras(PlayExtras(c));
            l.url == c.url && l.name == c.name && l.cookie == c.cookie && l.referer == c.referer
            && l.origin == c.origin && l.userAgent == c.userAgent
            && (l.starts <==> c.url != "")
  {
  }
}
