/** The records the components exchange: videos, playlists, comments, the user profile. */
module Records {

  datatype Option<T> = None | Some(value: T)

  /** A video or a Short. `isShort` is read throughout the components although the
      record type does not declare it; it is a plain field here. */
  datatype Video = Video(
    id: string,
    thumbnailUrl: string,
    channelImageUrl: string,
    title: string,
    channelName: string,
    views: string,
    uploadedAt: string,
    duration: string,
    description: string,
    isShort: bool,
    videoUrl: string)

  /** A playlist: an identifier, a name and the ordered identifiers of its videos. */
  datatype Playlist = Playlist(id: string, name: string, videoIds: seq<string>)

  datatype Comment = Comment(
    id: string,
    author: string,
    avatarUrl: string,
    text: string,
    likes: string,
    timestamp: string)

  datatype UserProfile = UserProfile(name: string, handle: string, avatarUrl: string)

  /** The signed-in user of the mock data. */
  const CurrentUser := UserProfile("John Doe", "@johndoe", "https://picsum.photos/seed/profile-pic/100/100")

  /** The name by which the library and channel pages recognise the Watch Later playlist. */
  const WatchLaterName := "Watch Later"

  /** The identifiers of `vs`, in order (`vs.map(v => v.id)`). */
  function Ids(vs: seq<Video>): (r: seq<string>)
    ensures |r| == |vs|
    ensures forall i :: 0 <= i < |vs| ==> r[i] == vs[i].id
  {
    seq(|vs|, i requires 0 <= i < |vs| => vs[i].id)
  }
}
