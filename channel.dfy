/** The signed-in user's channel page: their long-form videos and their Shorts, their
    playlists, the video count in the header and the three content tabs. */
module Channel {
  import opened Records
  import opened Collections
  import Library

  /** A video of the channel `name`. */
  function OwnedBy(name: string): Video -> bool {
    (v: Video) => v.channelName == name
  }

  function OwnLongForm(name: string): Video -> bool {
    (v: Video) => v.channelName == name && !v.isShort
  }

  function OwnShort(name: string): Video -> bool {
    (v: Video) => v.channelName == name && v.isShort
  }

  /** `userVideos`: the user's long-form videos, in catalogue order. */
  function UserVideos(all: seq<Video>, user: UserProfile): (r: seq<Video>)
    ensures forall v :: v in r <==> v in all && v.channelName == user.name && !v.isShort
  {
    Filter(all, OwnLongForm(user.name))
  }

  /** `userShorts`: the user's Shorts, in catalogue order. */
  function UserShorts(all: seq<Video>, user: UserProfile): (r: seq<Video>)
    ensures forall v :: v in r <==> v in all && v.channelName == user.name && v.isShort
  {
    Filter(all, OwnShort(user.name))
  }

  /** Every video of the user's channel, in catalogue order. */
  function ChannelVideos(all: seq<Video>, user: UserProfile): (r: seq<Video>)
    ensures forall v :: v in r <==> v in all && v.channelName == user.name
  {
    Filter(all, OwnedBy(user.name))
  }

  /** The two tabs partition the user's videos: no video is on both, together they hold
      each of the channel's videos as often as the catalogue does, and each is the
      channel's videos filtered by kind. */
  lemma {:induction false} TabsPartitionChannel(all: seq<Video>, user: UserProfile)
    ensures forall v :: !(v in UserVideos(all, user) && v in UserShorts(all, user))
    ensures multiset(UserVideos(all, user)) + multiset(UserShorts(all, user)) == multiset(ChannelVideos(all, user))
    ensures UserVideos(all, user) == Filter(ChannelVideos(all, user), (v: Video) => !v.isShort)
    ensures UserShorts(all, user) == Filter(ChannelVideos(all, user), (v: Video) => v.isShort)
  {
    var own := ChannelVideos(all, user);
    var long := (v: Video) => !v.isShort;
    var short := (v: Video) => v.isShort;
    FilterFilter(all, OwnedBy(user.name), long, OwnLongForm(user.name));
    FilterFilter(all, OwnedBy(user.name), short, OwnShort(user.name));
    FilterSplit(own, long, short);
  }

  /** The count in the channel header: long-form videos plus Shorts. */
  function VideoCount(all: seq<Video>, user: UserProfile): (n: nat)
    ensures n <= |all|
  {
    TabsPartitionChannel(all, user);
    var a, b := UserVideos(all, user), UserShorts(all, user);
    assert |multiset(a)| == |a| && |multiset(b)| == |b|;
    assert |multiset(ChannelVideos(all, user))| == |ChannelVideos(all, user)|;
    |a| + |b|
  }

  /** The header count is the number of the channel's videos in the catalogue. */
  lemma {:induction false} VideoCountIsChannelSize(all: seq<Video>, user: UserProfile)
    ensures VideoCount(all, user) == |ChannelVideos(all, user)|
  {
    TabsPartitionChannel(all, user);
    var a, b := UserVideos(all, user), UserShorts(all, user);
    assert |multiset(a)| == |a| && |multiset(b)| == |b|;
    assert |multiset(ChannelVideos(all, user))| == |ChannelVideos(all, user)|;
  }

  /** A card of the Playlists tab: the playlist, its cover (the first of its videos that
      exists, if any) and the number of its video identifiers. */
  datatype PlaylistCard = PlaylistCard(playlist: Playlist, cover: Option<Video>, count: nat)

  /** What a tab shows: a grid of videos, a grid of Shorts, playlist cards, or the
      message for an empty tab. */
  datatype TabView =
    | VideoGridView(videos: seq<Video>)
    | ShortsGridView(shorts: seq<Video>)
    | PlaylistCards(cards: seq<PlaylistCard>)
    | EmptyMessage(message: string)

  /** The card of one playlist: its cover is the video of its first identifier that
      the catalogue has, and the count is the number of its identifiers. */
  function CardOf(p: Playlist, all: seq<Video>): (c: PlaylistCard)
    ensures c.playlist == p && c.count == |p.videoIds|
    ensures c.cover.Some? ==> c.cover.value in all && c.cover.value.id in p.videoIds
    ensures c.cover.None? <==> forall id :: id in p.videoIds ==> id !in Ids(all)
    ensures c.cover.Some? ==>
      exists i :: Library.FirstFound(p.videoIds, all, i) && c.cover.value == Library.FindVideo(all, p.videoIds[i]).value
  {
    var vs := Library.GetVideosByIds(p.videoIds, all);
    PlaylistCard(p, if vs == [] then None else Some(vs[0]), |p.videoIds|)
  }

  /** `renderContent`: the content of the active tab; a label other than the three tabs
      renders nothing. */
  function TabContent(activeTab: string, all: seq<Video>, user: UserProfile, ps: seq<Playlist>): (r: Option<TabView>)
    ensures r.None? <==> activeTab !in {"Videos", "Shorts", "Playlists"}
    ensures activeTab == "Videos" ==> r == Some(
      if UserVideos(all, user) == [] then EmptyMessage("You haven't uploaded any videos yet.")
      else VideoGridView(UserVideos(all, user)))
    ensures activeTab == "Shorts" ==> r == Some(
      if UserShorts(all, user) == [] then EmptyMessage("You haven't uploaded any shorts yet.")
      else ShortsGridView(UserShorts(all, user)))
    ensures activeTab == "Playlists" && Library.UserPlaylists(ps) == [] ==>
      r == Some(EmptyMessage("You haven't created any playlists yet."))
    ensures activeTab == "Playlists" && Library.UserPlaylists(ps) != [] ==>
      r.value.PlaylistCards? && |r.value.cards| == |Library.UserPlaylists(ps)|
      && forall i :: 0 <= i < |r.value.cards| ==> r.value.cards[i] == CardOf(Library.UserPlaylists(ps)[i], all)
  {
    match activeTab
    case "Videos" =>
      var vs := UserVideos(all, user);
      Some(if |vs| > 0 then VideoGridView(vs) else EmptyMessage("You haven't uploaded any videos yet."))
    case "Shorts" =>
      var ss := UserShorts(all, user);
      Some(if |ss| > 0 then ShortsGridView(ss) else EmptyMessage("You haven't uploaded any shorts yet."))
    case "Playlists" =>
      var ups := Library.UserPlaylists(ps);
      Some(if |ups| > 0 then PlaylistCards(seq(|ups|, i requires 0 <= i < |ups| => CardOf(ups[i], all)))
           else EmptyMessage("You haven't created any playlists yet."))
    case _ => None
  }

  /** The Playlists tab never shows the Watch Later playlist and shows cards exactly
      when the user has another playlist. */
  lemma {:induction false} PlaylistsTabHidesWatchLater(all: seq<Video>, user: UserProfile, ps: seq<Playlist>)
    ensures var r := TabContent("Playlists", all, user, ps).value;
      && (r.PlaylistCards? <==> exists p :: p in ps && p.name != WatchLaterName)
      && (r.PlaylistCards? ==> forall c :: c in r.cards ==> c.playlist in ps && c.playlist.name != WatchLaterName)
  {
    var ups := Library.UserPlaylists(ps);
    if exists p :: p in ps && p.name != WatchLaterName {
      var p :| p in ps && p.name != WatchLaterName;
      assert p in ups;
    }
    if |ups| > 0 {
      assert ups[0] in ups;
      var cards := TabContent("Playlists", all, user, ps).value.cards;
      forall c | c in cards ensures c.playlist in ups {
        var i :| 0 <= i < |cards| && cards[i] == c;
        assert ups[i] in ups;
      }
    }
  }

  /** The selected tab of the channel page. */
  class ChannelTabs {
    var activeTab: string

    constructor()
      ensures activeTab == "Videos"
    {
      activeTab := "Videos";
    }

    /** A click on a tab button. */
    method SelectTab(tab: string)
      modifies this
      ensures activeTab == tab
    {
      activeTab := tab;
    }
  }
}
