/** The library page: the viewing history (first eight videos, entries removable),
    the Watch Later playlist, the liked videos and the user's other playlists. The
    lookup from identifiers to videos is shared with the channel page. */
module Library {
  import opened Records
  import opened Collections

  /** `allVideos.find(v => v.id === id)`. */
  function FindVideo(all: seq<Video>, id: string): (r: Option<Video>)
    ensures r.Some? <==> id in Ids(all)
    ensures r.Some? ==> r.value.id == id && r.value in all
    decreases |all|
  {
    if all == [] then None
    else if all[0].id == id then Some(all[0])
    else
      assert Ids(all) == [all[0].id] + Ids(all[1..]);
      FindVideo(all[1..], id)
  }

  /** The video found is the first one with that identifier. */
  lemma {:induction false} FindVideoFirst(all: seq<Video>, id: string, i: nat)
    requires i < |all| && all[i].id == id
    requires forall j :: 0 <= j < i ==> all[j].id != id
    ensures FindVideo(all, id) == Some(all[i])
    decreases i
  {
    if i > 0 {
      FindVideoFirst(all[1..], id, i - 1);
    }
  }

  /** `getVideosByIds`: for each identifier in order, the first video with it; an
      identifier without a video is skipped. */
  function GetVideosByIds(ids: seq<string>, all: seq<Video>): (r: seq<Video>)
    ensures |r| <= |ids|
    ensures forall v :: v in r ==> v.id in ids && v in all && FindVideo(all, v.id) == Some(v)
    ensures forall id :: id in ids && id in Ids(all) ==> FindVideo(all, id).value in r
    ensures r == [] <==> forall id :: id in ids ==> id !in Ids(all)
    ensures r != [] ==> exists i :: FirstFound(ids, all, i) && r[0] == FindVideo(all, ids[i]).value
    decreases |ids|
  {
    if ids == [] then []
    else
      var rest := GetVideosByIds(ids[1..], all);
      assert forall id :: id in ids <==> id == ids[0] || id in ids[1..];
      match FindVideo(all, ids[0])
      case None =>
        assert rest != [] ==> exists i :: FirstFound(ids, all, i) && rest[0] == FindVideo(all, ids[i]).value by {
          if rest != [] {
            var i :| FirstFound(ids[1..], all, i) && rest[0] == FindVideo(all, ids[1..][i]).value;
            assert FirstFound(ids, all, i + 1);
          }
        }
        rest
      case Some(v) =>
        assert FirstFound(ids, all, 0);
        [v] + rest
  }

  /** Position `i` holds the first identifier of `ids` that some video of `all` has. */
  predicate FirstFound(ids: seq<string>, all: seq<Video>, i: int) {
    0 <= i < |ids| && ids[i] in Ids(all) && forall j :: 0 <= j < i ==> ids[j] !in Ids(all)
  }

  /** The entry that one identifier contributes to a lookup: its first video, or
      nothing. */
  function Shown(all: seq<Video>, id: string): seq<Video> {
    if id in Ids(all) then [FindVideo(all, id).value] else []
  }

  /** The lookup works identifier by identifier: looking up two lists one after the
      other is looking up their concatenation, so the result follows the order of
      `ids` and a repeated identifier gives a repeated entry. */
  lemma {:induction false} GetVideosByIdsAppend(a: seq<string>, b: seq<string>, all: seq<Video>)
    ensures GetVideosByIds(a + b, all) == GetVideosByIds(a, all) + GetVideosByIds(b, all)
  {
    if a == [] {
      assert a + b == b;
    } else {
      assert (a + b)[0] == a[0] && (a + b)[1..] == a[1..] + b;
      GetVideosByIdsAppend(a[1..], b, all);
    }
  }

  /** One identifier gives its first video, or nothing when no video has it. */
  lemma {:induction false} GetVideosBySingleId(id: string, all: seq<Video>)
    ensures GetVideosByIds([id], all) == Shown(all, id)
  {
    assert [id][1..] == [];
  }

  /** When every identifier has a video, nothing is dropped and the i-th result carries
      the i-th identifier. */
  lemma {:induction false} GetVideosByIdsComplete(ids: seq<string>, all: seq<Video>)
    requires forall id :: id in ids ==> id in Ids(all)
    ensures |GetVideosByIds(ids, all)| == |ids|
    ensures forall i :: 0 <= i < |ids| ==> GetVideosByIds(ids, all)[i].id == ids[i]
    decreases |ids|
  {
    if ids != [] {
      assert ids[0] in ids;
      var tail := ids[1..];
      assert forall id :: id in tail ==> id in ids;
      GetVideosByIdsComplete(tail, all);
      var found := FindVideo(all, ids[0]);
      var rest := GetVideosByIds(tail, all);
      FirstLookup(ids, all, found.value, rest);
    }
  }

  lemma {:induction false} FirstLookup(ids: seq<string>, all: seq<Video>, v: Video, rest: seq<Video>)
    requires ids != [] && FindVideo(all, ids[0]) == Some(v)
    requires rest == GetVideosByIds(ids[1..], all)
    requires |rest| == |ids| - 1 && forall i :: 0 <= i < |rest| ==> rest[i].id == ids[1..][i]
    ensures GetVideosByIds(ids, all) == [v] + rest
    ensures |GetVideosByIds(ids, all)| == |ids|
    ensures forall i :: 0 <= i < |ids| ==> GetVideosByIds(ids, all)[i].id == ids[i]
  {
    var r := [v] + rest;
    forall i | 0 < i < |ids| ensures r[i].id == ids[i] {
      assert r[i] == rest[i - 1] && ids[1..][i - 1] == ids[i];
    }
  }

  /** The number of history entries shown at first. */
  const HistoryLength := 8

  /** `videos.slice(0, 8)`. */
  function InitialHistory(videos: seq<Video>): (r: seq<Video>)
    ensures |r| == if |videos| < HistoryLength then |videos| else HistoryLength
    ensures forall i :: 0 <= i < |r| ==> r[i] == videos[i]
  {
    if |videos| < HistoryLength then videos else videos[..HistoryLength]
  }

  /** The entries of other videos than `videoId`. */
  function OtherThan(videoId: string): Video -> bool {
    (v: Video) => v.id != videoId
  }

  /** The entries of the video `videoId`. */
  function EntryOf(videoId: string): Video -> bool {
    (v: Video) => v.id == videoId
  }

  /** The history without every entry of one video, the others in their order. */
  function WithoutVideo(history: seq<Video>, videoId: string): (r: seq<Video>)
    ensures forall v :: v in r <==> v in history && v.id != videoId
  {
    Filter(history, OtherThan(videoId))
  }

  /** Removing a video from the history removes exactly its entries: the count drops
      by their number, and removing it again changes nothing. */
  lemma {:induction false} WithoutVideoCounts(history: seq<Video>, videoId: string)
    ensures |WithoutVideo(history, videoId)| + |Filter(history, EntryOf(videoId))| == |history|
    ensures WithoutVideo(WithoutVideo(history, videoId), videoId) == WithoutVideo(history, videoId)
  {
    FilterSplit(history, OtherThan(videoId), EntryOf(videoId));
    FilterIdempotent(history, OtherThan(videoId));
  }

  /** Removing one video and then another is removing both, in either order. */
  lemma {:induction false} WithoutVideoCommutes(history: seq<Video>, a: string, b: string)
    ensures WithoutVideo(WithoutVideo(history, a), b) == WithoutVideo(WithoutVideo(history, b), a)
  {
    var both := (v: Video) => v.id != a && v.id != b;
    FilterFilter(history, OtherThan(a), OtherThan(b), both);
    FilterFilter(history, OtherThan(b), OtherThan(a), both);
  }

  /** `playlists.find(p => p.name === "Watch Later")`. */
  function WatchLaterPlaylist(ps: seq<Playlist>): (r: Option<Playlist>)
    ensures r.Some? <==> exists i :: 0 <= i < |ps| && ps[i].name == WatchLaterName
    ensures r.Some? ==> r.value.name == WatchLaterName && r.value in ps
    ensures r.Some? ==>
      exists i :: 0 <= i < |ps| && ps[i] == r.value && forall j :: 0 <= j < i ==> ps[j].name != WatchLaterName
    decreases |ps|
  {
    if ps == [] then None
    else if ps[0].name == WatchLaterName then Some(ps[0])
    else
      assert forall i :: 0 <= i < |ps[1..]| ==> ps[1..][i] == ps[i + 1];
      WatchLaterPlaylist(ps[1..])
  }

  /** The videos of the Watch Later shelf; empty when there is no such playlist. */
  function WatchLaterVideos(ps: seq<Playlist>, videos: seq<Video>): (r: seq<Video>)
    ensures WatchLaterPlaylist(ps).None? ==> r == []
    ensures forall v :: v in r ==> v in videos && v.id in WatchLaterPlaylist(ps).value.videoIds
    ensures WatchLaterPlaylist(ps).Some? ==> forall id ::
      id in WatchLaterPlaylist(ps).value.videoIds && id in Ids(videos) ==> FindVideo(videos, id).value in r
    ensures WatchLaterPlaylist(ps).Some? && (forall id :: id in WatchLaterPlaylist(ps).value.videoIds ==> id in Ids(videos)) ==>
      |r| == |WatchLaterPlaylist(ps).value.videoIds| &&
      forall i :: 0 <= i < |r| ==> r[i].id == WatchLaterPlaylist(ps).value.videoIds[i]
  {
    match WatchLaterPlaylist(ps)
    case None => []
    case Some(p) =>
      var r := GetVideosByIds(p.videoIds, videos);
      assert (forall id :: id in p.videoIds ==> id in Ids(videos)) ==>
        |r| == |p.videoIds| && forall i :: 0 <= i < |r| ==> r[i].id == p.videoIds[i] by {
        if forall id :: id in p.videoIds ==> id in Ids(videos) {
          GetVideosByIdsComplete(p.videoIds, videos);
        }
      }
      r
  }

  /** The identifiers of the mock liked-videos list. */
  const LikedVideoIds: seq<string> := ["2", "7", "8"]

  /** The liked videos: those of the catalogue with the liked identifiers, in that
      order. */
  function LikedVideos(videos: seq<Video>): (r: seq<Video>)
    ensures |r| <= 3
    ensures forall v :: v in r ==> v in videos && (v.id == "2" || v.id == "7" || v.id == "8")
    ensures r == Shown(videos, "2") + Shown(videos, "7") + Shown(videos, "8")
  {
    LookupThree("2", "7", "8", videos);
    GetVideosByIds(LikedVideoIds, videos)
  }

  /** Looking up three identifiers gives what each of them shows, in their order. */
  lemma {:induction false} LookupThree(a: string, b: string, c: string, all: seq<Video>)
    ensures GetVideosByIds([a, b, c], all) == Shown(all, a) + Shown(all, b) + Shown(all, c)
  {
    assert [a, b, c] == [a] + ([b] + [c]);
    GetVideosByIdsAppend([a], [b] + [c], all);
    GetVideosByIdsAppend([b], [c], all);
    GetVideosBySingleId(a, all);
    GetVideosBySingleId(b, all);
    GetVideosBySingleId(c, all);
  }

  predicate IsWatchLater(p: Playlist) {
    p.name == WatchLaterName
  }

  predicate IsOwnPlaylist(p: Playlist) {
    p.name != WatchLaterName
  }

  /** The shelf of the user's own playlists: every playlist not named "Watch Later", in
      order. */
  function UserPlaylists(ps: seq<Playlist>): (r: seq<Playlist>)
    ensures forall p :: p in r <==> p in ps && p.name != WatchLaterName
  {
    Filter(ps, IsOwnPlaylist)
  }

  /** The Watch Later shelf and the playlist shelf split the playlists: the playlist on
      the Watch Later shelf is never on the other one, and the other shelf holds every
      playlist but those named "Watch Later". */
  lemma {:induction false} ShelvesSplitPlaylists(ps: seq<Playlist>)
    ensures WatchLaterPlaylist(ps).Some? ==> WatchLaterPlaylist(ps).value !in UserPlaylists(ps)
    ensures |UserPlaylists(ps)| + |Filter(ps, IsWatchLater)| == |ps|
    ensures WatchLaterPlaylist(ps).None? ==> UserPlaylists(ps) == ps
  {
    FilterSplit(ps, IsOwnPlaylist, IsWatchLater);
    if WatchLaterPlaylist(ps).None? {
      FilterKeepsAll(ps, IsOwnPlaylist);
    }
  }

  lemma {:induction false} FilterKeepsAll<T>(s: seq<T>, p: T -> bool)
    requires forall i :: 0 <= i < |s| ==> p(s[i])
    ensures Filter(s, p) == s
  {
    if s != [] {
      FilterKeepsAll(s[1..], p);
    }
  }

  /** The history shelf of the library page. */
  class LibraryView {
    var historyVideos: seq<Video>

    constructor(videos: seq<Video>)
      ensures historyVideos == InitialHistory(videos)
    {
      historyVideos := InitialHistory(videos);
    }

    /** `handleRemoveFromHistory`. */
    method RemoveFromHistory(videoId: string)
      modifies this
      ensures historyVideos == WithoutVideo(old(historyVideos), videoId)
    {
      historyVideos := Filter(historyVideos, OtherThan(videoId));
    }
  }
}
