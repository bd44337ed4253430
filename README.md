# A verified model of the FunsTube front end's state rules

FunsTube is a mock video-sharing web application written in TypeScript and React.
Most of it is rendering. Its components also hold a set of small state rules, and
this project models those rules in Dafny and proves what they promise:

- **Like and dislike.** The like/dislike rule is shared by the Shorts feed and the
  long-form watch page. Its Dafny module is `Votes`.
- **The Shorts feed.** The per-Short interaction record keyed by video id, the
  "currently playing" rule driven by visibility reports, the `<video>` element registry,
  the mute flag, and a card's single-tap/double-tap debounce. Its module is `Shorts`.
- **The watch page.** The chapter-timestamp parser and the time display it inverts,
  the download file name, the comment box, comment likes, the Top/Newest comment
  order, and the Watch Later button. Its module is `Watch`.
- **The application root.** Playlist toggling and creation, the subscription set, the
  notification flags, routing from the navigation label to a page, and the dark-theme
  decision. Its modules are `App` and `Playlists`.
- **The library page.** The id-to-video lookup, the history shelf and removal from it,
  and the Watch Later and user-playlist shelves. Its module is `Library`.
- **The channel page.** The long-form/Shorts partition, the video count, the playlist
  cards and the tabs. Its module is `Channel`.
- **The header search box.** Its module is `Header`.
- **The "Save to..." dialog.** Its module is `PlaylistModal`.
- **The upload dialog.** File validation, extension stripping, the simulated upload
  time, the Short suggestion and the Publish gate. Its module is `Upload`.

Helper modules:

- `Text`: JavaScript white space and `trim`, ASCII lower-casing, `includes`,
  `startsWith`, and decimal digits.
- `Collections`: `filter`, `indexOf`, `splice` and the `Set` toggle.
- `Records`: the record types.

The model takes the source's own form:

- Pure transitions are functions: the Shorts record updates, the parsers, the
  filters, `renderContent` and the playlist updates.
- State cells that handlers update in sequence are fields of classes:
  `Watch.WatchPage`, `App.AppState`, `Header.SearchBox`, `PlaylistModal.CreateForm`,
  `Upload.UploadForm`, `Library.LibraryView`, `Shorts.ShortsFeed`, `Shorts.ShortCard`
  and `Channel.ChannelTabs`.
- Each class method is proved against the function that specifies it.

Where a handler depends on the clock, randomness or the browser, that value is a
parameter:

- `now` for `Date.now()`;
- `Draws` for the two `Math.random()` draws per Short;
- `views: real` for the parsed view count;
- `recount` for re-rendering a comment's likes label;
- `likes` for a comment's sort key;
- the visibility report's `meetsThreshold` for the intersection ratio;
- `systemPrefersDark` for the media query.

The model follows the code as written, including these points where the code does
something a reader might not expect:

- **Like and dislike counts.** From a count of 1000, like then dislike then un-dislike
  yields 1001, 1000 and 1000, not 1000, 999 and 999: a like adds one, disliking a liked
  video removes it, and un-disliking changes nothing. `Votes.LikeDislikeUndislike`
  states these values.
- **Seeded counts.** The seeded like count is in [50000, 2049999] and the comment count
  is in [500, 10499]. These are the floors of the random draws, not round bounds such
  as 2000000 or 10000.
- **Search query.** The header search uses the query as typed, without trimming. Only
  the Enter gate trims it.
- **`Video.isShort`.** The code reads this field everywhere, although the record type
  does not declare it.
- **Playlist record.** The `Playlist` shape is the one the application root builds.

## Model

| member | source | states |
|---|---|---|
| Votes.Like | components/ShortsPlayer.tsx:473-489 | pressing like flips `isLiked`, clears a dislike only when it likes, keeps the flags exclusive, and keeps the count equal to its baseline plus the viewer's own like |
| Votes.Dislike | components/ShortsPlayer.tsx:491-506 | pressing dislike flips `isDisliked`, clears a like only when it dislikes, keeps the flags exclusive, and lowers the count exactly when a liked video becomes disliked |
| Votes.ReplayTracksCount | pages/VideoPage.tsx:392-420 | over any sequence of presses from a fresh vote, the flags stay exclusive and the count is the seed plus one exactly while liked |
| Votes.ReplayKeepsBaseline | components/ShortsPlayer.tsx:484-502 | any sequence of presses keeps an exclusive vote exclusive and keeps its baseline |
| Votes.PressMovesCountByOne | components/ShortsPlayer.tsx:476-502 | every press moves the like count by -1, 0 or +1 |
| Votes.LikeDislikeUndislike | pages/VideoPage.tsx:392-420 | from count c, like gives c+1, dislike then gives c, and un-dislike leaves c |
| Votes.UndislikeKeepsCount | pages/VideoPage.tsx:409-410 | un-disliking never changes the count or the like flag |
| Shorts.WithVote | components/ShortsPlayer.tsx:479-487 | replacing an entry's vote keeps its comment count |
| Shorts.ShortsOf | components/ShortsPlayer.tsx:399 | the Shorts are exactly the catalogue's videos flagged `isShort` |
| Shorts.FreshEntry | components/ShortsPlayer.tsx:462-467 | a fresh entry is neither liked nor disliked, with likes in [50000, 2049999] and comments in [500, 10499] |
| Shorts.InitialState | components/ShortsPlayer.tsx:460-471 | the built state's keys are exactly the Shorts' ids, and every entry is fresh and in range |
| Shorts.InitialKeysAreShortIds | components/ShortsPlayer.tsx:399-471 | an id is a key of the initial state if and only if some video flagged `isShort` has it |
| Shorts.HandleLike | components/ShortsPlayer.tsx:473-489 | fails exactly when the id is missing; otherwise only that entry changes, by the like rule, and its comment count stays |
| Shorts.HandleDislike | components/ShortsPlayer.tsx:491-506 | fails exactly when the id is missing; otherwise only that entry changes, by the dislike rule, and its comment count stays |
| Shorts.HandleComment | components/ShortsPlayer.tsx:522-531 | fails exactly when the id is missing; otherwise only that entry changes: its comment count grows by one and its vote stays |
| Shorts.RunKeepsInvariants | components/ShortsPlayer.tsx:473-531 | over any run of likes, dislikes and comments, the keys stay, every entry stays exclusive, each baseline stays, and comment counts never drop |
| Shorts.RunFromInitialTracksCounts | components/ShortsPlayer.tsx:460-506 | from the built state, after any run, each Short's like count is its seeded count plus one exactly while liked |
| Shorts.DoubleTapVote | components/ShortsPlayer.tsx:81-86 | a double tap always leaves the Short liked; on a liked Short it changes nothing, and otherwise it adds one like and keeps the flags exclusive |
| Shorts.NextPlaying | components/ShortsPlayer.tsx:432-440 | a visible Short starts playing; a hidden one stops only if it was playing; a report without an id changes nothing |
| Shorts.AfterBatch | components/ShortsPlayer.tsx:429-441 | a batch whose reports name no video leaves the playing id alone, and a batch whose last report shows a Short visible ends with that Short playing |
| Shorts.AfterBatchOrigin | components/ShortsPlayer.tsx:429-441 | after a batch of reports, the playing id is the previous one, none, or an id that a report in the batch showed visible |
| Shorts.HiddenStopsPlaying | components/ShortsPlayer.tsx:437-439 | a Short reported hidden does not play after the batch unless a later report shows it visible |
| Shorts.FirstPlaying | components/ShortsPlayer.tsx:412 | at mount the first Short plays, and nothing plays when there are no Shorts or the first id is empty |
| Shorts.ShortsFeed.constructor | components/ShortsPlayer.tsx:399-471 | mounting builds the state from the draws, plays the first Short, mutes, and registers no element |
| Shorts.ShortsFeed.VideosChanged | components/ShortsPlayer.tsx:460-471 | a new video list rebuilds every entry and leaves the playing id, mute flag and registry alone |
| Shorts.ShortsFeed.OnLike | components/ShortsPlayer.tsx:473-489 | the like handler applies `HandleLike` and keeps every entry exclusive |
| Shorts.ShortsFeed.OnDislike | components/ShortsPlayer.tsx:491-506 | the dislike handler applies `HandleDislike` and keeps every entry exclusive |
| Shorts.ShortsFeed.OnComment | components/ShortsPlayer.tsx:522-531 | the comment handler applies `HandleComment` and keeps every entry exclusive |
| Shorts.ShortsFeed.OnIntersections | components/ShortsPlayer.tsx:429-441 | handling a batch in a loop gives the playing id of `AfterBatch` |
| Shorts.ShortsFeed.SetVideoRef | components/ShortsPlayer.tsx:417-424 | a mounted element is registered under its id, an unmounted one removes the id, and other ids are untouched |
| Shorts.ShortsFeed.ToggleMute | components/ShortsPlayer.tsx:557 | the mute flag flips |
| Shorts.ShortsFeed.Displayed | components/ShortsPlayer.tsx:548 | a card gets its entry, or the all-zero placeholder before the state is built |
| Shorts.TapRunAccountsForClicks | components/ShortsPlayer.tsx:103-114 | every click is used by exactly one gesture or still waits on the timer: single taps plus twice the double taps plus the pending flag equal the clicks |
| Shorts.CountGestureAppend | components/ShortsPlayer.tsx:103-114 | gesture counts add over concatenated gesture lists |
| Shorts.TapExamples | components/ShortsPlayer.tsx:103-114 | two clicks before the timer give one double tap and no single tap; one click and the timer give one single tap |
| Shorts.ShortCard.constructor | components/ShortsPlayer.tsx:68 | a card starts paused with no tap timer pending |
| Shorts.ShortCard.HandleClick | components/ShortsPlayer.tsx:103-114 | a click arms the timer when none is pending, and otherwise clears it and performs the double tap, which asks for a like only if the Short is not liked |
| Shorts.ShortCard.TimerFired | components/ShortsPlayer.tsx:109-112 | the timer firing clears the pending state and toggles play/pause |
| Watch.DigitsColon | pages/VideoPage.tsx:259 | the regex piece `\d{1,2}:` reads one or two digits and a colon, with their value and the remaining text |
| Watch.TwoDigits | pages/VideoPage.tsx:259 | `\d{2}` matches exactly when two digits start the text, with their value |
| Watch.ParseTimestamp | pages/VideoPage.tsx:257-269 | a parsed value is at most 99:99:99 in seconds, and a line shorter than four characters never parses |
| Watch.ParseLayout | pages/VideoPage.tsx:257-269 | every well-formed stamp at the start of a line parses to hours*3600+minutes*60+seconds, whatever follows it; the one exception is that `mm:ss` followed by `:dd` is read with hours |
| Watch.ParseSound | pages/VideoPage.tsx:257-269 | conversely, a line that parses starts with a well-formed stamp of exactly that value |
| Watch.NoHoursReading | pages/VideoPage.tsx:259 | without hours the optional group backtracks and `mm:ss` reads as minutes and seconds |
| Watch.NoDigitNoStamp | pages/VideoPage.tsx:259-260 | a line that does not start with a digit after an optional bracket has no timestamp, including one with leading white space |
| Watch.ThreeDigitsNoStamp | pages/VideoPage.tsx:259-260 | three digits at the start of a line are not a timestamp |
| Watch.ParseExampleMinutes | pages/VideoPage.tsx:257-269 | "1:23 Intro" parses to 83 |
| Watch.ParseExampleHours | pages/VideoPage.tsx:257-269 | "[01:02:03] Recap" parses to 3723 |
| Watch.Two | pages/VideoPage.tsx:255 | a two-digit field reads back as its number |
| Watch.FormatDuration | pages/VideoPage.tsx:255 | the display has eight characters from one hour on and five below it, with a colon before two digits of seconds |
| Watch.FormatShape | pages/VideoPage.tsx:255 | the display is `HH:MM:SS` from one hour on and `MM:SS` below it |
| Watch.FormatWhole | pages/VideoPage.tsx:255 | on whole seconds the display is the UTC clock of the time of day, sliced to `MM:SS` below one hour |
| Watch.FormatThenParse | pages/VideoPage.tsx:255-269 | parsing the display gives back the time of day in seconds, which is the time itself below 24 hours |
| Watch.Sanitise | pages/VideoPage.tsx:495 | the sanitised title has the title's length, keeps every safe character and puts '_' for every other one |
| Watch.SanitiseIdempotent | pages/VideoPage.tsx:495 | sanitising twice is sanitising once |
| Watch.SanitiseKeepsSafeTitle | pages/VideoPage.tsx:495 | a title of safe characters is used unchanged |
| Watch.DownloadFileName | pages/VideoPage.tsx:495 | the file name is the sanitised title followed by ".mp4" |
| Watch.Insert | pages/VideoPage.tsx:316-322 | insertion adds exactly one comment to the multiset |
| Watch.SortedComments | pages/VideoPage.tsx:316-322 | the comments shown are a permutation of the stored ones; under Top they are most-liked first and stable among equal likes; under Newest they are in stored order |
| Watch.SortTop | pages/VideoPage.tsx:316-322 | the Top order is a permutation of the comments |
| Watch.SortTopDescending | pages/VideoPage.tsx:316-322 | the Top order is most-liked first |
| Watch.SortTopStable | pages/VideoPage.tsx:316-322 | the Top order is stable: comments with equal likes keep their stored order |
| Watch.InsertDescending | pages/VideoPage.tsx:316-322 | insertion keeps a most-liked-first list sorted |
| Watch.InsertWithLikes | pages/VideoPage.tsx:316-322 | an inserted comment goes in front of every comment with its number of likes |
| Watch.SaveButtonFlips | pages/VideoPage.tsx:249-254 | the Save button flips whether the video is in Watch Later when that playlist exists, and leaves it unsaved otherwise |
| Watch.NewCommentId | pages/VideoPage.tsx:511 | a comment id is "c" followed by digits |
| Watch.NewCommentIdsDiffer | pages/VideoPage.tsx:511 | comments posted at different instants get different ids |
| Watch.NewComment | pages/VideoPage.tsx:510-517 | the posted comment is the user's, with the draft text as typed, no likes and "Just now" |
| Watch.RelabelComments | pages/VideoPage.tsx:536-545 | a comment like recounts the label of that comment only, keeping every id in place |
| Watch.RelabelKeepsIds | pages/VideoPage.tsx:536-545 | a comment like never reorders, adds or removes comments |
| Watch.CommentLikeTwice | pages/VideoPage.tsx:523-546 | when the pressed comment's label comes back after a recount up and down, liking and unliking it restores the list and the liked set |
| Watch.InitialLikes | pages/VideoPage.tsx:699-700 | the starting like count is the floor of 5% of the views |
| Watch.WatchPage.constructor | pages/VideoPage.tsx:209-234 | the page opens with the video's text, no vote, the 5% like count, the initial comments, an empty draft, no liked comment and Top order |
| Watch.WatchPage.VideoChanged | pages/VideoPage.tsx:684-701 | a new video reloads title and description, clears the vote and restarts the count from its views |
| Watch.WatchPage.HandleLike | pages/VideoPage.tsx:392-406 | the handler's field updates are the shared like rule, and they keep the vote exclusive and the baseline fixed |
| Watch.WatchPage.HandleDislike | pages/VideoPage.tsx:408-420 | the handler's field updates are the shared dislike rule, and they keep the vote exclusive and the baseline fixed |
| Watch.WatchPage.TypeComment | pages/VideoPage.tsx:1030 | typing sets the draft |
| Watch.WatchPage.FocusComment | pages/VideoPage.tsx:1031 | focusing shows the comment buttons |
| Watch.WatchPage.CancelComment | pages/VideoPage.tsx:1039-1042 | Cancel clears the draft and hides the buttons |
| Watch.WatchPage.CanSubmit | pages/VideoPage.tsx:1049 | Comment is enabled exactly when the draft is not blank |
| Watch.WatchPage.HandleCommentSubmit | pages/VideoPage.tsx:507-521 | a blank draft changes nothing; otherwise the new comment goes in front of the unchanged old ones and the box is cleared and unfocused |
| Watch.WatchPage.ToggleCommentLike | pages/VideoPage.tsx:523-546 | the comment id flips membership in the liked set, other ids stay, and the list is relabelled |
| Watch.WatchPage.SetSortOrder | pages/VideoPage.tsx:1008-1012 | the sort menu sets the order |
| Watch.SubmittedCommentShown | pages/VideoPage.tsx:316-322 | a submitted comment is shown first under Newest, and in front of every comment with its likes under Top |
| Playlists.FindPlaylist | pages/VideoPage.tsx:252-253 | a lookup finds a playlist exactly when one has the id, and it finds the first one |
| Playlists.ToggleId | App.tsx:86-96 | an absent video is appended; a present video loses its first occurrence, with the other ids kept in order; other ids keep their membership |
| Playlists.ToggleIdFlips | App.tsx:86-96 | on a list without repeats the toggle flips membership and keeps the list free of repeats |
| Playlists.AddThenRemove | App.tsx:86-96 | adding then removing an absent video restores the list |
| Playlists.ToggleVideoInPlaylist | App.tsx:82-100 | the playlist list keeps its length, order, ids and names; only playlists with the id are toggled |
| Playlists.ToggleFlipsSaved | App.tsx:82-100 | toggling in an existing playlist flips whether the video is saved there, and toggling in a missing playlist changes nothing |
| Playlists.FindFirst | pages/VideoPage.tsx:252-253 | the lookup returns the playlist at the first position with the id |
| Playlists.ToggleKeepsNoDup | App.tsx:82-100 | no toggle ever makes a playlist list a video twice |
| Playlists.NewPlaylistId | App.tsx:104 | a new playlist's id is "pl" followed by digits |
| Playlists.NewPlaylistIdsDiffer | App.tsx:104 | playlists created at different instants get different ids |
| Playlists.CreatePlaylist | App.tsx:102-109 | creation appends one empty playlist with the name and leaves the existing ones as they were |
| Playlists.CreatedPlaylistIsEmpty | App.tsx:102-109 | a new playlist has no video saved in it, and creation keeps every playlist free of repeats |
| App.Route | App.tsx:125-184 | a selected video wins, then 'Your Channel', the library labels, 'Shorts' and 'Subscriptions'; related videos are the other long-form videos; no grid lists a Short; related videos are exactly the other long-form videos in catalogue order; the Subscriptions grid is every subscribed long-form video in catalogue order; the empty-subscriptions message appears exactly when, loading over, no long-form video is from a subscribed channel |
| App.HomeGridIsLongForm | App.tsx:183 | any other label shows the long-form grid, and long-form plus Shorts account for the whole catalogue |
| App.InitialTheme | App.tsx:28-30 | the theme is the stored one, or "system" when nothing or the empty string is stored |
| App.IsDark | App.tsx:42-45 | "dark" is always dark, "system" follows the system preference, and any other theme is light |
| App.ThemeDecisions | App.tsx:28-43 | with nothing stored the page follows the system; "light" is never dark, "dark" always is, and any other stored value is light |
| App.AppState.constructor | App.tsx:19-30 | start-up is Home, no video, unread notifications, the given playlists, no subscription, loading, and the stored theme |
| App.AppState.ToggleNotifications | App.tsx:58-63 | the panel flips and the unread marker is cleared |
| App.AppState.NotificationClick | App.tsx:65-68 | the notified video opens and the panel closes |
| App.AppState.CloseNotifications | App.tsx:199 | the panel closes |
| App.AppState.ToggleSubscription | App.tsx:70-80 | the channel flips membership in the subscription set |
| App.AppState.ToggleVideoInPlaylist | App.tsx:82-100 | the playlists become the toggled list and stay free of repeats |
| App.AppState.CreatePlaylist | App.tsx:102-109 | the playlists become the list with the new playlist and stay free of repeats |
| App.AppState.GoHome | App.tsx:111-114 | the logo shows the long-form home grid |
| App.AppState.SelectVideo | App.tsx:116-118 | selecting a video shows its page whatever the label |
| App.AppState.NavItemClick | App.tsx:120-123 | a navigation click closes the video page and sets the label |
| App.AppState.LoadingFinished | App.tsx:32-37 | loading ends |
| App.SubscriptionToggleTwice | App.tsx:70-80 | toggling a subscription twice is the identity, and a toggle touches no other channel |
| Library.FindVideo | pages/LibraryPage.tsx:14 | a video is found exactly when one has the id, and it has that id |
| Library.FindVideoFirst | pages/LibraryPage.tsx:14 | the video found is the first one with the id |
| Library.GetVideosByIds | pages/LibraryPage.tsx:13-15 | each entry is the first catalogue video with one of the ids; every id that has a video contributes it; the result is empty exactly when no id has a video, and otherwise starts with the video of the first id that has one |
| Library.GetVideosByIdsAppend | pages/LibraryPage.tsx:13-15 | the lookup goes id by id, so results follow the order of the ids and a repeated id gives a repeated entry |
| Library.GetVideosBySingleId | pages/LibraryPage.tsx:13-15 | one id gives its first video, or nothing when no video has it |
| Library.GetVideosByIdsComplete | pages/LibraryPage.tsx:13-15 | when every id has a video nothing is dropped and the i-th result carries the i-th id |
| Library.InitialHistory | pages/LibraryPage.tsx:19 | the history starts as the first min(8, n) videos |
| Library.WithoutVideo | pages/LibraryPage.tsx:30-33 | removal keeps exactly the entries of other videos |
| Library.WithoutVideoCounts | pages/LibraryPage.tsx:30-33 | removal drops exactly the entries of that video, and removing again changes nothing |
| Library.WithoutVideoCommutes | pages/LibraryPage.tsx:30-33 | removing two videos in either order gives the same history |
| Library.WatchLaterPlaylist | pages/LibraryPage.tsx:21 | Watch Later is found exactly when a playlist has that name, and it is the first playlist with that name |
| Library.WatchLaterVideos | pages/LibraryPage.tsx:22 | the Watch Later shelf is empty without that playlist; otherwise it shows every video of the playlist that the catalogue has, and when the catalogue has them all, one entry per id in the playlist's order |
| Library.LikedVideos | pages/LibraryPage.tsx:25-26 | the liked shelf shows the catalogue's videos "2", "7" and "8", each one the catalogue has, in that order |
| Library.LookupThree | pages/LibraryPage.tsx:13-15 | looking up three ids gives what each id shows on its own, in their order |
| Library.UserPlaylists | pages/LibraryPage.tsx:28 | the playlist shelf holds exactly the playlists not named "Watch Later" |
| Library.ShelvesSplitPlaylists | pages/LibraryPage.tsx:21-28 | the Watch Later playlist is never on the other shelf, the two filters split the playlists, and without Watch Later the shelf is every playlist |
| Library.LibraryView.constructor | pages/LibraryPage.tsx:19 | the history shelf starts as the initial history |
| Library.LibraryView.RemoveFromHistory | pages/LibraryPage.tsx:30-33 | the history becomes the history without that video |
| Channel.UserVideos | pages/ChannelPage.tsx:21 | the Videos tab holds exactly the user's long-form videos |
| Channel.UserShorts | pages/ChannelPage.tsx:22 | the Shorts tab holds exactly the user's Shorts |
| Channel.ChannelVideos | pages/ChannelPage.tsx:21-22 | the channel's videos are exactly those with the user's channel name |
| Channel.TabsPartitionChannel | pages/ChannelPage.tsx:21-22 | the two tabs are disjoint, together hold the channel's videos as often as the catalogue does, and each is a filter of them |
| Channel.VideoCount | pages/ChannelPage.tsx:107 | the header count never exceeds the catalogue |
| Channel.VideoCountIsChannelSize | pages/ChannelPage.tsx:107 | the header count is the number of the channel's videos |
| Channel.CardOf | pages/ChannelPage.tsx:62-77 | a playlist card counts the playlist's ids; it has no cover exactly when no id of the playlist is in the catalogue, and otherwise its cover is the video of the first id that is |
| Channel.TabContent | pages/ChannelPage.tsx:38-91 | the three tabs show their grid or their empty message; any other tab renders nothing; the Playlists tab shows its empty message exactly when there is no playlist other than Watch Later, and otherwise one card per such playlist, in order, each built by `CardOf` |
| Channel.PlaylistsTabHidesWatchLater | pages/ChannelPage.tsx:23 | the Playlists tab shows cards exactly when a playlist is not Watch Later, and never shows Watch Later |
| Channel.ChannelTabs.constructor | pages/ChannelPage.tsx:19 | the Videos tab is selected at first |
| Channel.ChannelTabs.SelectTab | pages/ChannelPage.tsx:27 | a tab click selects that tab |
| Header.SearchVideos | components/Header.tsx:68-71 | the results are exactly the videos whose lower-cased title or channel name contains the lower-cased query |
| Header.SearchIgnoresCase | components/Header.tsx:68-71 | a query and its lower-cased form find the same videos |
| Header.TitleFindsVideo | components/Header.tsx:68-71 | every video is found by its own title |
| Header.UntrimmedQueryMisses | components/Header.tsx:66-71 | the query is not trimmed: "cats " misses a video titled "cats" |
| Header.SearchBox.constructor | components/Header.tsx:40-44 | the box starts empty and closed |
| Header.SearchBox.SearchChange | components/Header.tsx:59-64 | the query follows the input, and a blank query closes the panel while any other query leaves it alone |
| Header.SearchBox.SearchSubmit | components/Header.tsx:66-75 | Enter with a non-blank query sets the results and opens the panel; anything else changes nothing |
| Header.SearchBox.ResultClick | components/Header.tsx:77-85 | a result click clears query and results, closes the panel and hides mobile search |
| Header.SearchBox.OpenMobileSearch | components/Header.tsx:184 | the mobile search bar opens |
| Header.SearchBox.CloseMobileSearch | components/Header.tsx:111 | the mobile search bar closes |
| Header.SearchBox.ClickOutside | components/Header.tsx:47-53 | a press outside closes the results panel |
| PlaylistModal.CheckboxFlips | components/PlaylistModal.tsx:56-60 | changing a checkbox flips that playlist's box, and playlists with other ids keep theirs |
| PlaylistModal.CreateForm.HandleCreate | components/PlaylistModal.tsx:17-23 | a blank name does nothing; otherwise the trimmed name is created, and the input clears and closes |
| PlaylistModal.CreateForm.HandleCancelCreate | components/PlaylistModal.tsx:25-28 | cancel clears the name and closes the input |
| PlaylistModal.CreateForm.HandleKeyDown | components/PlaylistModal.tsx:30-33 | Enter creates, Escape cancels, and any other key does nothing |
| PlaylistModal.CreateForm.constructor | components/PlaylistModal.tsx:14-15 | the dialog opens with the name input closed and an empty name |
| PlaylistModal.CreateForm.TypeName | components/PlaylistModal.tsx:73 | typing sets the name to the input's value |
| PlaylistModal.CreateForm.StartCreating | components/PlaylistModal.tsx:93 | "Create new playlist" opens the name input |
| PlaylistModal.CreatedNameIsTrimmed | components/PlaylistModal.tsx:17-20 | the created name is never blank and has no white space at either end |
| Upload.ExtensionUnique | components/UploadModal.tsx:79 | a name has at most one extension |
| Upload.ExtensionStart | components/UploadModal.tsx:79 | the extension found is one, and none is found only when there is none |
| Upload.StripExtension | components/UploadModal.tsx:79 | stripping removes the extension when there is one and otherwise keeps the name |
| Upload.StripExamples | components/UploadModal.tsx:79 | "a.tar.gz" becomes "a.tar", while "name", "name." and "dir.v/clip" stay |
| Upload.StripKeepsPrefix | components/UploadModal.tsx:79 | the stripped name is a prefix of the name, followed in it by an extension when shorter |
| Upload.SimulatedDuration | components/UploadModal.tsx:34 | the simulated upload takes 2000 to 5000 ms |
| Upload.SimulatedDurationMonotone | components/UploadModal.tsx:34 | a larger file never uploads faster, and between 4 and 10 MiB the time is half a second per MiB |
| Upload.UploadForm.constructor | components/UploadModal.tsx:9-16 | the dialog starts with no file, no error, no progress and empty fields |
| Upload.UploadForm.HandleFileValidation | components/UploadModal.tsx:65-83 | no file changes nothing; a non-video sets the error and clears the file; a video clears the error, sets the stripped title and resets the other fields; after any file, Publish is disabled |
| Upload.UploadForm.MetadataLoaded | components/UploadModal.tsx:91-96 | a portrait video of at most 60 seconds is marked as a Short, and the flag is never cleared |
| Upload.UploadForm.ProgressFrame | components/UploadModal.tsx:41-53 | a frame sets the progress within 0 to 100 |
| Upload.UploadForm.EditTitle | components/UploadModal.tsx:13 | editing sets the title |
| Upload.UploadForm.CanPublish | components/UploadModal.tsx:310 | Publish is enabled exactly with a file, progress at 100 and a non-blank title |
| Text.Trim | components/Header.tsx:61 | `trim` gives the slice of the string between a blank prefix and a blank suffix; it is empty exactly on a blank string, and otherwise starts and ends with non-space |
| Text.TrimIdempotent | components/PlaylistModal.tsx:18-19 | trimming twice is trimming once |
| Text.NumberOfDecimal | App.tsx:104 | a decimal rendering reads back as its number |
| Text.DecimalInjective | App.tsx:104 | different numbers render differently |
| Collections.Filter | App.tsx:183 | `filter` keeps exactly the elements that satisfy the predicate |
| Collections.FilterSplit | pages/ChannelPage.tsx:21-22 | filters by a predicate and its negation split the list |
| Collections.FilterFilter | pages/ChannelPage.tsx:21-22 | filtering twice is filtering by the conjunction |
| Collections.IndexOf | App.tsx:87 | `indexOf` finds the first occurrence |
| Collections.RemoveAt | App.tsx:90-91 | `splice(i, 1)` removes exactly position i |
| Collections.Toggle | App.tsx:70-80 | the set toggle flips membership of one element and no other |

## Left out

- Rendering, CSS, icons, animation flags, snackbars and their timers are not modelled.
  They carry no state rule.
- Share, clipboard, fullscreen, captions, volume, seeking, the report dialog and the
  title, description and view-count editors of the watch page are browser plumbing or
  plain field copies.
- The camera search, the profile menu, the sidebar and the bottom navigation bar have
  no state rule worth proving.
- The open flags of the upload, camera, playlist-dialog and sort-menu modals are not
  modelled.
- The notifications panel itself is not part of this model; only the application's
  notification flags are.
- The initial playlists are a parameter. The data file does not export the playlists
  or notifications that the application root imports.
- `Math.random()` is a parameter: the `Draws` of each Short.
- `Date.now()` is a parameter: `now` in the comment and playlist identifiers.
- `localStorage` and the colour-scheme media query are parameters, and the write-back
  of the theme is not modelled.
- The simulated loading delay of the application root is modelled only as the
  `LoadingFinished` event.
- Intersection ratios and observer wiring are not modelled: each report carries a
  "meets the 70% threshold" flag.
- The watch page's own visibility observer for autoplay is not modelled.
- Watch.CommentLikeTwice: needs the pressed comment's label to come back after a
  recount up and then down. The page's `parseLikes` and `formatCount` do not always
  give that: like then unlike turns "1,234" into "1.2K" and "1K" into "999", so those
  labels are not restored.
- `parseViews`, `parseLikes` and `formatCount` are left out because they are
  floating-point parsing and `toFixed` rounding. The watch page takes the parsed views
  as a `real`. Comment sorting takes the like key as a function. The comment-like
  relabel takes the label rewrite as the `recount` function.
- Watch.FormatDuration: modelled only for 0 <= t < 253402300800 seconds (the year
  10000). From there on `toISOString` writes a six-digit signed year and the slice
  positions change.
- Watch.FormatThenParse: states the round trip for whole seconds only, because a
  fraction of a second is truncated by the display.
- Text.Lower: maps ASCII letters only. Unicode case mapping beyond ASCII is not
  modelled, so the search is exact only for ASCII text.
- Watch.Sanitise: works per UTF-16 code unit as a Dafny `char`. A character outside
  the Basic Multilingual Plane counts as one character here, where the regex replaces
  each of its two code units.
- The comments panel of a Short keeps a local comment list that repeats the watch
  page's submit rule, so it is left out.
- Tab selection sets the label only. The tab bar offers three labels, and unknown
  labels are covered by `Channel.TabContent`.
- The upload progress easing curve is not modelled. Upload.UploadForm.ProgressFrame
  takes any progress in [0, 100].
- The object URL and the `<video>` element for metadata are not modelled;
  Upload.UploadForm.MetadataLoaded takes width, height and duration.
- Concurrency and React's batching of state updates are not modelled. Each handler is
  one atomic step on the state it reads.
