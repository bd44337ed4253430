/** The application root: which page is shown, the subscription set, the user's
    playlists, the notification flags and the colour theme. */
module App {
  import opened Text
  import opened Records
  import opened Collections
  import Playlists

  /** The navigation labels that open the library page. */
  const LibraryLabels: seq<string> := ["Library", "History", "Your videos", "Watch Later", "Liked videos"]

  /** The page `renderContent` produces. */
  datatype Page =
    | VideoPageOf(video: Video, related: seq<Video>)
    | ChannelPageView
    | LibraryPageView
    | ShortsPlayerView
    | NoSubscriptionsMessage
    | GridView(videos: seq<Video>, loading: bool)

  function NotShort(v: Video): bool {
    !v.isShort
  }

  function OtherLongForm(id: string): Video -> bool {
    (v: Video) => v.id != id && !v.isShort
  }

  function FromSubscribed(subscribed: set<string>): Video -> bool {
    (v: Video) => v.channelName in subscribed && !v.isShort
  }

  /** `renderContent`: a selected video wins over the navigation label; then the
      channel, the library labels, Shorts and Subscriptions; any other label shows the
      home grid. No grid ever lists a Short, and the video page lists as related every
      other long-form video. */
  function Route(selected: Option<Video>, nav: string, subscribed: set<string>, isLoading: bool, videos: seq<Video>): (p: Page)
    ensures p.VideoPageOf? <==> selected.Some?
    ensures p.VideoPageOf? ==>
      p.video == selected.value && forall v :: v in p.related <==> v in videos && v.id != selected.value.id && !v.isShort
    ensures p.VideoPageOf? ==> p.related == Filter(videos, OtherLongForm(selected.value.id))
    ensures selected.None? ==> (p.ChannelPageView? <==> nav == "Your Channel")
    ensures selected.None? ==> (p.LibraryPageView? <==> nav in LibraryLabels)
    ensures selected.None? ==> (p.ShortsPlayerView? <==> nav == "Shorts")
    ensures p.NoSubscriptionsMessage? ==>
      nav == "Subscriptions" && !isLoading && forall v :: v in videos && !v.isShort ==> v.channelName !in subscribed
    ensures selected.None? && nav == "Subscriptions" && !isLoading ==>
      (forall v :: v in videos && !v.isShort ==> v.channelName !in subscribed) ==> p.NoSubscriptionsMessage?
    ensures p.GridView? ==> p.loading == isLoading && forall v :: v in p.videos ==> v in videos && !v.isShort
    ensures p.GridView? && nav == "Subscriptions" ==> forall v :: v in p.videos ==> v.channelName in subscribed
    ensures p.GridView? && nav == "Subscriptions" ==> p.videos == Filter(videos, FromSubscribed(subscribed))
    ensures p.GridView? && nav != "Subscriptions" ==> p.videos == Filter(videos, NotShort)
  {
    if selected.Some? then
      VideoPageOf(selected.value, Filter(videos, OtherLongForm(selected.value.id)))
    else if nav == "Your Channel" then ChannelPageView
    else if nav in LibraryLabels then LibraryPageView
    else if nav == "Shorts" then ShortsPlayerView
    else if nav == "Subscriptions" then
      var subscribedVideos := Filter(videos, FromSubscribed(subscribed));
      assert |subscribedVideos| > 0 ==> subscribedVideos[0] in videos && FromSubscribed(subscribed)(subscribedVideos[0]);
      if |subscribedVideos| == 0 && !isLoading then
        assert forall i :: 0 <= i < |videos| ==> !FromSubscribed(subscribed)(videos[i]);
        NoSubscriptionsMessage
      else GridView(subscribedVideos, isLoading)
    else GridView(Filter(videos, NotShort), isLoading)
  }

  /** The home grid holds every long-form video, each as often as the catalogue does,
      and no Short. */
  lemma {:induction false} HomeGridIsLongForm(videos: seq<Video>, nav: string, subscribed: set<string>, isLoading: bool)
    requires nav !in LibraryLabels && nav !in {"Your Channel", "Shorts", "Subscriptions"}
    ensures Route(None, nav, subscribed, isLoading, videos) == GridView(Filter(videos, NotShort), isLoading)
    ensures |Filter(videos, NotShort)| + |Filter(videos, IsShortVideo)| == |videos|
  {
    FilterSplit(videos, NotShort, IsShortVideo);
  }

  function IsShortVideo(v: Video): bool {
    v.isShort
  }

  /** `applyTheme`: dark when the theme is "dark", or "system" while the system
      prefers dark. */
  function IsDark(theme: string, systemPrefersDark: bool): (d: bool)
    ensures theme == "dark" ==> d
    ensures theme == "system" ==> d == systemPrefersDark
    ensures theme != "dark" && theme != "system" ==> !d
  {
    theme == "dark" || (theme == "system" && systemPrefersDark)
  }

  /** `localStorage.getItem('theme') || 'system'`: the stored theme, or "system" when
      nothing or the empty string is stored. */
  function InitialTheme(stored: Option<string>): (t: string)
    ensures t != ""
    ensures stored.Some? && stored.value != "" ==> t == stored.value
    ensures stored.None? || stored.value == "" ==> t == "system"
  {
    if stored.None? || stored.value == "" then "system" else stored.value
  }

  /** With no stored theme the page follows the system; "light" is never dark and
      "dark" always is; any other stored value is light. */
  lemma ThemeDecisions(stored: Option<string>, systemPrefersDark: bool)
    ensures stored.None? ==> IsDark(InitialTheme(stored), systemPrefersDark) == systemPrefersDark
    ensures stored == Some("light") ==> !IsDark(InitialTheme(stored), systemPrefersDark)
    ensures stored == Some("dark") ==> IsDark(InitialTheme(stored), systemPrefersDark)
    ensures stored.Some? && stored.value !in {"", "dark", "system"} ==> !IsDark(InitialTheme(stored), systemPrefersDark)
  {
  }

  /** The state of the application root. */
  class AppState {
    const videos: seq<Video>
    var activeNavItem: string
    var selectedVideo: Option<Video>
    var isNotificationsOpen: bool
    var hasUnreadNotifications: bool
    var userPlaylists: seq<Playlist>
    var subscribedChannels: set<string>
    var isLoading: bool
    var theme: string

    /** No playlist lists a video twice. */
    ghost predicate Valid()
      reads this
    {
      forall p :: p in userPlaylists ==> NoDup(p.videoIds)
    }

    /** The page now shown. */
    function Content(): Page
      reads this
    {
      Route(selectedVideo, activeNavItem, subscribedChannels, isLoading, videos)
    }

    /** The start-up state: Home, no video, unread notifications, the given playlists,
        no subscription, loading, and the stored theme or "system". */
    constructor(catalogue: seq<Video>, initialPlaylists: seq<Playlist>, storedTheme: Option<string>)
      requires forall p :: p in initialPlaylists ==> NoDup(p.videoIds)
      ensures Valid() && videos == catalogue
      ensures activeNavItem == "Home" && selectedVideo.None?
      ensures !isNotificationsOpen && hasUnreadNotifications
      ensures userPlaylists == initialPlaylists && subscribedChannels == {}
      ensures isLoading && theme == InitialTheme(storedTheme)
    {
      videos := catalogue;
      activeNavItem := "Home";
      selectedVideo := None;
      isNotificationsOpen := false;
      hasUnreadNotifications := true;
      userPlaylists := initialPlaylists;
      subscribedChannels := {};
      isLoading := true;
      theme := InitialTheme(storedTheme);
    }

    /** `handleToggleNotifications`: the panel opens or closes and the unread marker
        goes away for good. */
    method ToggleNotifications()
      modifies this`isNotificationsOpen, this`hasUnreadNotifications
      ensures isNotificationsOpen == !old(isNotificationsOpen)
      ensures !hasUnreadNotifications
    {
      isNotificationsOpen := !isNotificationsOpen;
      if hasUnreadNotifications {
        hasUnreadNotifications := false;
      }
    }

    /** `handleNotificationClick`: the notified video opens and the panel closes. */
    method NotificationClick(video: Video)
      modifies this`selectedVideo, this`isNotificationsOpen
      ensures selectedVideo == Some(video) && !isNotificationsOpen
      ensures Content() == Route(Some(video), activeNavItem, subscribedChannels, isLoading, videos)
    {
      selectedVideo := Some(video);
      isNotificationsOpen := false;
    }

    /** Closing the notification panel from inside it. */
    method CloseNotifications()
      modifies this`isNotificationsOpen
      ensures !isNotificationsOpen
    {
      isNotificationsOpen := false;
    }

    /** `handleToggleSubscription`. */
    method ToggleSubscription(channelName: string)
      modifies this`subscribedChannels
      ensures subscribedChannels == Toggle(old(subscribedChannels), channelName)
    {
      if channelName in subscribedChannels {
        subscribedChannels := subscribedChannels - {channelName};
      } else {
        subscribedChannels := subscribedChannels + {channelName};
      }
    }

    /** `handleToggleVideoInPlaylist`. */
    method ToggleVideoInPlaylist(playlistId: string, videoId: string)
      requires Valid()
      modifies this`userPlaylists
      ensures Valid()
      ensures userPlaylists == Playlists.ToggleVideoInPlaylist(old(userPlaylists), playlistId, videoId)
    {
      Playlists.ToggleKeepsNoDup(userPlaylists, playlistId, videoId);
      userPlaylists := Playlists.ToggleVideoInPlaylist(userPlaylists, playlistId, videoId);
    }

    /** `handleCreatePlaylist` at time `now`. */
    method CreatePlaylist(name: string, now: nat)
      requires Valid()
      modifies this`userPlaylists
      ensures Valid()
      ensures userPlaylists == Playlists.CreatePlaylist(old(userPlaylists), name, now)
    {
      var before := userPlaylists;
      userPlaylists := Playlists.CreatePlaylist(userPlaylists, name, now);
      forall p | p in userPlaylists ensures NoDup(p.videoIds) {
        var i :| 0 <= i < |userPlaylists| && userPlaylists[i] == p;
        if i < |before| { assert before[i] in before; }
      }
    }

    /** `handleGoHome`: the logo shows the home grid. */
    method GoHome()
      modifies this`selectedVideo, this`activeNavItem
      ensures selectedVideo.None? && activeNavItem == "Home"
      ensures Content().GridView? && Content().videos == Filter(videos, NotShort)
    {
      selectedVideo := None;
      activeNavItem := "Home";
    }

    /** `handleSelectVideo`: the video page opens whatever the navigation label. */
    method SelectVideo(video: Video)
      modifies this`selectedVideo
      ensures selectedVideo == Some(video)
      ensures Content().VideoPageOf? && Content().video == video
    {
      selectedVideo := Some(video);
    }

    /** `handleNavItemClick`: the video page closes and the label decides the page. */
    method NavItemClick(navLabel: string)
      modifies this`selectedVideo, this`activeNavItem
      ensures selectedVideo.None? && activeNavItem == navLabel
      ensures !Content().VideoPageOf?
    {
      selectedVideo := None;
      activeNavItem := navLabel;
    }

    /** The simulated load delay ends. */
    method LoadingFinished()
      modifies this`isLoading
      ensures !isLoading
    {
      isLoading := false;
    }
  }

  /** Subscribing and unsubscribing is the identity on the subscription set, and a
      toggle touches no other channel. */
  lemma {:induction false} SubscriptionToggleTwice(subscribed: set<string>, channelName: string, other: string)
    requires other != channelName
    ensures Toggle(Toggle(subscribed, channelName), channelName) == subscribed
    ensures other in Toggle(subscribed, channelName) <==> other in subscribed
  {
    ToggleTwice(subscribed, channelName);
  }
}
