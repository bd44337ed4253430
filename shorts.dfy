/** The Shorts feed: per-video interaction state keyed by video id, the
    "currently playing" rule driven by visibility reports, the video-element registry,
    the global mute flag, and a card's single-tap/double-tap debounce. */
module Shorts {
  import opened Records
  import opened Collections
  import Votes

  /** Interaction state of one Short. */
  datatype Interaction = Interaction(isLiked: bool, isDisliked: bool, likeCount: int, commentCount: int)

  type ShortsState = map<string, Interaction>

  function VoteOf(e: Interaction): Votes.Vote {
    Votes.Vote(e.isLiked, e.isDisliked, e.likeCount)
  }

  function WithVote(e: Interaction, v: Votes.Vote): (r: Interaction)
    ensures VoteOf(r) == v && r.commentCount == e.commentCount
  {
    Interaction(v.isLiked, v.isDisliked, v.likeCount, e.commentCount)
  }

  predicate IsShortVideo(v: Video) {
    v.isShort
  }

  /** `videos.filter(v => v.isShort)`. */
  function ShortsOf(videos: seq<Video>): (r: seq<Video>)
    ensures forall i :: 0 <= i < |r| ==> r[i].isShort && r[i] in videos
    ensures forall i :: 0 <= i < |videos| && videos[i].isShort ==> videos[i] in r
  {
    Filter(videos, IsShortVideo)
  }

  /** The two random numbers drawn for one Short when the state is built, already
      scaled and floored: `Math.floor(Math.random() * 2000000)` for the likes and
      `Math.floor(Math.random() * 10000)` for the comments. */
  datatype Draws = Draws(forLikes: int, forComments: int)

  predicate ValidDraws(d: Draws) {
    0 <= d.forLikes < 2000000 && 0 <= d.forComments < 10000
  }

  /** The entry a Short gets when the state is (re)built, from its two random draws. */
  function FreshEntry(d: Draws): (e: Interaction)
    requires ValidDraws(d)
    ensures !e.isLiked && !e.isDisliked
    ensures 50000 <= e.likeCount <= 2049999
    ensures 500 <= e.commentCount <= 10499
  {
    Interaction(false, false, d.forLikes + 50000, d.forComments + 500)
  }

  /** The `reduce` that builds the state: one fresh entry per Short, in feed order, a
      later Short overwriting an earlier one with the same id. `draws[i]` are the two
      `Math.random()` values drawn for `shorts[i]`. */
  function InitialState(shorts: seq<Video>, draws: seq<Draws>): (r: ShortsState)
    requires |draws| == |shorts|
    requires forall d :: d in draws ==> ValidDraws(d)
    ensures forall k :: k in r <==> k in Ids(shorts)
    ensures forall k :: k in r ==> !r[k].isLiked && !r[k].isDisliked
    ensures forall k :: k in r ==> 50000 <= r[k].likeCount <= 2049999 && 500 <= r[k].commentCount <= 10499
    decreases |shorts|
  {
    if shorts == [] then map[]
    else
      var n := |shorts| - 1;
      assert Ids(shorts) == Ids(shorts[..n]) + [shorts[n].id];
      assert ValidDraws(draws[n]);
      InitialState(shorts[..n], draws[..n])[shorts[n].id := FreshEntry(draws[n])]
  }

  /** The keys of the initial state are exactly the ids of the videos flagged as Shorts. */
  lemma InitialKeysAreShortIds(videos: seq<Video>, draws: seq<Draws>, id: string)
    requires |draws| == |ShortsOf(videos)|
    requires forall d :: d in draws ==> ValidDraws(d)
    ensures id in InitialState(ShortsOf(videos), draws) <==> exists v :: v in videos && v.isShort && v.id == id
  {
    var shorts := ShortsOf(videos);
    if id in InitialState(shorts, draws) {
      var i :| 0 <= i < |shorts| && Ids(shorts)[i] == id;
      assert shorts[i] in videos;
    }
    if v :| v in videos && v.isShort && v.id == id {
      var j :| 0 <= j < |videos| && videos[j] == v;
      var i :| 0 <= i < |shorts| && shorts[i] == v;
      assert Ids(shorts)[i] == id;
    }
  }

  /** The state change of `handleLike`. The handler reads `prev[videoId]` without a
      check, so a missing id raises a TypeError: `None` here. Otherwise only the entry
      keyed by `id` changes, by the shared like rule, and its comment count stays. */
  function HandleLike(st: ShortsState, id: string): (r: Option<ShortsState>)
    ensures r.Some? <==> id in st
    ensures r.Some? ==> r.value.Keys == st.Keys
    ensures r.Some? ==> forall k :: k in st && k != id ==> r.value[k] == st[k]
    ensures r.Some? ==> VoteOf(r.value[id]) == Votes.Like(VoteOf(st[id]))
    ensures r.Some? ==> r.value[id].commentCount == st[id].commentCount
  {
    if id in st then Some(st[id := WithVote(st[id], Votes.Like(VoteOf(st[id])))]) else None
  }

  /** The state change of `handleDislike`; as `HandleLike`, with the dislike rule. */
  function HandleDislike(st: ShortsState, id: string): (r: Option<ShortsState>)
    ensures r.Some? <==> id in st
    ensures r.Some? ==> r.value.Keys == st.Keys
    ensures r.Some? ==> forall k :: k in st && k != id ==> r.value[k] == st[k]
    ensures r.Some? ==> VoteOf(r.value[id]) == Votes.Dislike(VoteOf(st[id]))
    ensures r.Some? ==> r.value[id].commentCount == st[id].commentCount
  {
    if id in st then Some(st[id := WithVote(st[id], Votes.Dislike(VoteOf(st[id])))]) else None
  }

  /** The state change of `handleComment`: the comment count of `id` grows by one and
      nothing else changes; a missing id raises a TypeError (`None`). */
  function HandleComment(st: ShortsState, id: string): (r: Option<ShortsState>)
    ensures r.Some? <==> id in st
    ensures r.Some? ==> r.value.Keys == st.Keys
    ensures r.Some? ==> forall k :: k in st && k != id ==> r.value[k] == st[k]
    ensures r.Some? ==> VoteOf(r.value[id]) == VoteOf(st[id])
    ensures r.Some? ==> r.value[id].commentCount == st[id].commentCount + 1
  {
    if id in st then Some(st[id := st[id].(commentCount := st[id].commentCount + 1)]) else None
  }

  /** One user action on the feed. */
  datatype Action = PressLike(id: string) | PressDislike(id: string) | PostComment(id: string)

  function Step(st: ShortsState, a: Action): Option<ShortsState> {
    match a
    case PressLike(id) => HandleLike(st, id)
    case PressDislike(id) => HandleDislike(st, id)
    case PostComment(id) => HandleComment(st, id)
  }

  /** The state after a sequence of actions, or `None` once one of them hits a missing id. */
  function Run(st: ShortsState, acts: seq<Action>): Option<ShortsState>
    decreases |acts|
  {
    if acts == [] then Some(st)
    else match Step(st, acts[0])
      case None => None
      case Some(next) => Run(next, acts[1..])
  }

  /** Every entry keeps liked and disliked exclusive. */
  predicate AllExclusive(st: ShortsState) {
    forall k :: k in st ==> Votes.Exclusive(VoteOf(st[k]))
  }

  /** Over any run of likes, dislikes and comments: the keys stay, every entry stays
      exclusive, its like count stays its starting baseline plus its own like, and its
      comment count never goes down. */
  lemma {:induction false} RunKeepsInvariants(st: ShortsState, acts: seq<Action>)
    requires AllExclusive(st)
    ensures Run(st, acts).Some? ==>
      var r := Run(st, acts).value;
      && r.Keys == st.Keys
      && AllExclusive(r)
      && (forall k :: k in st ==> Votes.Baseline(VoteOf(r[k])) == Votes.Baseline(VoteOf(st[k])))
      && (forall k :: k in st ==> r[k].commentCount >= st[k].commentCount)
    decreases |acts|
  {
    if acts != [] && Step(st, acts[0]).Some? {
      var next := Step(st, acts[0]).value;
      assert AllExclusive(next);
      RunKeepsInvariants(next, acts[1..]);
    }
  }

  /** Starting from a freshly built state, after any run each Short's like count is its
      random seed count plus one exactly while it is liked. */
  lemma RunFromInitialTracksCounts(shorts: seq<Video>, draws: seq<Draws>, acts: seq<Action>, k: string)
    requires |draws| == |shorts|
    requires forall d :: d in draws ==> ValidDraws(d)
    requires k in InitialState(shorts, draws)
    requires Run(InitialState(shorts, draws), acts).Some?
    ensures k in Run(InitialState(shorts, draws), acts).value
    ensures var init := InitialState(shorts, draws)[k];
      var e := Run(InitialState(shorts, draws), acts).value[k];
      e.likeCount == init.likeCount + (if e.isLiked then 1 else 0) && !(e.isLiked && e.isDisliked)
  {
    RunKeepsInvariants(InitialState(shorts, draws), acts);
  }

  /** The action of a double tap on a card: like unless already liked. */
  function DoubleTapVote(v: Votes.Vote): (r: Votes.Vote)
    ensures r.isLiked
    ensures !v.isLiked ==> Votes.Exclusive(r)
    ensures v.isLiked ==> r == v
    ensures r.likeCount == v.likeCount + (if v.isLiked then 0 else 1)
  {
    if !v.isLiked then Votes.Like(v) else v
  }

  // ---------------------------------------------------------------------------
  // Which Short plays

  /** One visibility report of the observer: the `data-video-id` of the element (if the
      attribute is there) and whether the element meets the 70% visibility threshold. */
  datatype Sighting = Sighting(videoId: Option<string>, meetsThreshold: bool)

  /** The report names a video: an absent or empty attribute is skipped. */
  predicate Names(s: Sighting) {
    s.videoId.Some? && s.videoId.value != ""
  }

  /** The playing id after one report: a visible Short starts playing; a hidden one stops
      only if it was the one playing; a report without an id changes nothing. */
  function NextPlaying(cur: Option<string>, s: Sighting): (r: Option<string>)
    ensures !Names(s) ==> r == cur
    ensures Names(s) && s.meetsThreshold ==> r == s.videoId
    ensures Names(s) && !s.meetsThreshold ==> r == (if cur == s.videoId then None else cur)
  {
    if !Names(s) then cur
    else if s.meetsThreshold then s.videoId
    else if cur == s.videoId then None
    else cur
  }

  /** The playing id after a batch of reports handled in order. */
  function AfterBatch(cur: Option<string>, batch: seq<Sighting>): (r: Option<string>)
    ensures (forall k :: 0 <= k < |batch| ==> !Names(batch[k])) ==> r == cur
    ensures batch != [] && Names(batch[|batch| - 1]) && batch[|batch| - 1].meetsThreshold ==>
      r == batch[|batch| - 1].videoId
    decreases |batch|
  {
    if batch == [] then cur else NextPlaying(AfterBatch(cur, batch[..|batch| - 1]), batch[|batch| - 1])
  }

  /** After a batch, the playing id is the one before, nothing, or the id of a report in
      the batch that met the threshold. */
  lemma {:induction false} AfterBatchOrigin(cur: Option<string>, batch: seq<Sighting>)
    ensures var r := AfterBatch(cur, batch);
      r == cur || r.None? || exists k :: 0 <= k < |batch| && batch[k].meetsThreshold && batch[k].videoId == r
    decreases |batch|
  {
    if batch != [] {
      var n := |batch| - 1;
      AfterBatchOrigin(cur, batch[..n]);
      var before := AfterBatch(cur, batch[..n]);
      if before != cur && before.Some? && AfterBatch(cur, batch) == before {
        var k :| 0 <= k < n && batch[..n][k].meetsThreshold && batch[..n][k].videoId == before;
        assert batch[k] == batch[..n][k];
      }
    }
  }

  /** A Short reported hidden does not play after the batch unless a later report in the
      batch shows it visible again. */
  lemma {:induction false} HiddenStopsPlaying(cur: Option<string>, batch: seq<Sighting>, k: nat, id: string)
    requires k < |batch| && batch[k] == Sighting(Some(id), false) && id != ""
    requires forall j :: k < j < |batch| ==> !(batch[j].meetsThreshold && batch[j].videoId == Some(id))
    ensures AfterBatch(cur, batch) != Some(id)
    decreases |batch|
  {
    var n := |batch| - 1;
    if k < n {
      HiddenStopsPlaying(cur, batch[..n], k, id);
    }
  }

  /** The Short that plays when the feed mounts: the first Short's id, or none when there
      are no Shorts (an empty id is falsy and counts as none). */
  function FirstPlaying(shorts: seq<Video>): (r: Option<string>)
    ensures r.None? <==> shorts == [] || shorts[0].id == ""
    ensures shorts != [] && shorts[0].id != "" ==> r == Some(shorts[0].id)
  {
    if shorts != [] && shorts[0].id != "" then Some(shorts[0].id) else None
  }

  /** A `<video>` element, seen only as an identity. */
  type Element = nat

  /** The state cells of a mounted feed. */
  class ShortsFeed {
    var shorts: seq<Video>
    var shortsState: ShortsState
    var currentlyPlaying: Option<string>
    var isMuted: bool
    var videoRefs: map<string, Element>

    ghost predicate Valid()
      reads this
    {
      AllExclusive(shortsState)
    }

    /** Mounting: the first Short plays, sound is muted, no elements are registered, and
        the mount effect builds the interaction state from `draws`. */
    constructor (videos: seq<Video>, draws: seq<Draws>)
      requires |draws| == |ShortsOf(videos)|
      requires forall d :: d in draws ==> ValidDraws(d)
      ensures Valid()
      ensures shorts == ShortsOf(videos)
      ensures shortsState == InitialState(shorts, draws)
      ensures currentlyPlaying == FirstPlaying(shorts)
      ensures isMuted && videoRefs == map[]
    {
      shorts := ShortsOf(videos);
      shortsState := InitialState(ShortsOf(videos), draws);
      currentlyPlaying := FirstPlaying(ShortsOf(videos));
      isMuted := true;
      videoRefs := map[];
    }

    /** A new video list: the effect rebuilds every entry from fresh draws, discarding
        earlier likes and comments; the playing id is left as it was. */
    method VideosChanged(videos: seq<Video>, draws: seq<Draws>)
      requires |draws| == |ShortsOf(videos)|
      requires forall d :: d in draws ==> ValidDraws(d)
      modifies this
      ensures Valid()
      ensures shorts == ShortsOf(videos) && shortsState == InitialState(shorts, draws)
      ensures currentlyPlaying == old(currentlyPlaying) && isMuted == old(isMuted) && videoRefs == old(videoRefs)
    {
      shorts := ShortsOf(videos);
      shortsState := InitialState(shorts, draws);
    }

    method OnLike(id: string) returns (crashed: bool)
      requires Valid()
      modifies this`shortsState
      ensures Valid()
      ensures crashed <==> id !in old(shortsState)
      ensures shortsState == if crashed then old(shortsState) else HandleLike(old(shortsState), id).value
    {
      var next := HandleLike(shortsState, id);
      crashed := next.None?;
      if !crashed {
        shortsState := next.value;
      }
    }

    method OnDislike(id: string) returns (crashed: bool)
      requires Valid()
      modifies this`shortsState
      ensures Valid()
      ensures crashed <==> id !in old(shortsState)
      ensures shortsState == if crashed then old(shortsState) else HandleDislike(old(shortsState), id).value
    {
      var next := HandleDislike(shortsState, id);
      crashed := next.None?;
      if !crashed {
        shortsState := next.value;
      }
    }

    method OnComment(id: string) returns (crashed: bool)
      requires Valid()
      modifies this`shortsState
      ensures Valid()
      ensures crashed <==> id !in old(shortsState)
      ensures shortsState == if crashed then old(shortsState) else HandleComment(old(shortsState), id).value
    {
      var next := HandleComment(shortsState, id);
      crashed := next.None?;
      if !crashed {
        shortsState := next.value;
      }
    }

    /** The observer callback: the reports of one batch, handled in order. */
    method OnIntersections(batch: seq<Sighting>)
      modifies this`currentlyPlaying
      ensures currentlyPlaying == AfterBatch(old(currentlyPlaying), batch)
    {
      var i := 0;
      while i < |batch|
        invariant 0 <= i <= |batch|
        invariant currentlyPlaying == AfterBatch(old(currentlyPlaying), batch[..i])
      {
        assert batch[..i + 1][..i] == batch[..i];
        currentlyPlaying := NextPlaying(currentlyPlaying, batch[i]);
        i := i + 1;
      }
      assert batch[..|batch|] == batch;
    }

    /** `setVideoRef`: a mounted element is registered under its id, an unmounted one
        (null) removes the id; other ids keep their elements. */
    method SetVideoRef(id: string, element: Option<Element>)
      modifies this`videoRefs
      ensures element.Some? ==> videoRefs == old(videoRefs)[id := element.value]
      ensures element.None? ==> id !in videoRefs && videoRefs == old(videoRefs) - {id}
    {
      if element.Some? {
        videoRefs := videoRefs[id := element.value];
      } else {
        videoRefs := videoRefs - {id};
      }
    }

    method ToggleMute()
      modifies this`isMuted
      ensures isMuted == !old(isMuted)
    {
      isMuted := !isMuted;
    }

    /** The state a card is given: its entry, or an all-zero placeholder before the
        state has been built. */
    function Displayed(id: string): (e: Interaction)
      reads this
      ensures id !in shortsState ==> e == Interaction(false, false, 0, 0)
      ensures id in shortsState ==> e == shortsState[id]
    {
      if id in shortsState then shortsState[id] else Interaction(false, false, 0, 0)
    }
  }

  // ---------------------------------------------------------------------------
  // A card's tap debounce

  /** What a tap sequence resolves to: a single tap toggles play/pause, a double tap
      likes (unless already liked) and flashes a heart. */
  datatype Gesture = SingleTap | DoubleTap

  /** Input events of the debounce: a click on the card, or the 250 ms timer firing. */
  datatype TapEvent = Click | TimerFires

  /** One debounce step from "timer pending" to the new pending flag and the gesture
      recognised, if any. A cleared timer never fires, so a firing with nothing pending
      does nothing. */
  function TapStep(pending: bool, e: TapEvent): (bool, Option<Gesture>) {
    match e
    case Click => if pending then (false, Some(DoubleTap)) else (true, None)
    case TimerFires => if pending then (false, Some(SingleTap)) else (false, None)
  }

  /** The pending flag and the gestures recognised over a sequence of events. */
  function TapRun(pending: bool, es: seq<TapEvent>): (bool, seq<Gesture>)
    decreases |es|
  {
    if es == [] then (pending, [])
    else
      var (p, g) := TapStep(pending, es[0]);
      var (q, gs) := TapRun(p, es[1..]);
      (q, (if g.Some? then [g.value] else []) + gs)
  }

  function CountClicks(es: seq<TapEvent>): nat {
    if es == [] then 0 else (if es[0] == Click then 1 else 0) + CountClicks(es[1..])
  }

  function CountGesture(gs: seq<Gesture>, g: Gesture): nat {
    if gs == [] then 0 else (if gs[0] == g then 1 else 0) + CountGesture(gs[1..], g)
  }

  /** Every click is used by exactly one gesture or is still waiting on the timer: a
      single tap takes one click and a double tap two, so no pair of clicks yields both. */
  lemma {:induction false} TapRunAccountsForClicks(pending: bool, es: seq<TapEvent>)
    ensures var (q, gs) := TapRun(pending, es);
      CountGesture(gs, SingleTap) + 2 * CountGesture(gs, DoubleTap) + (if q then 1 else 0)
        == CountClicks(es) + (if pending then 1 else 0)
    decreases |es|
  {
    if es != [] {
      var (p, g) := TapStep(pending, es[0]);
      var (q, gs) := TapRun(p, es[1..]);
      TapRunAccountsForClicks(p, es[1..]);
      var pre := if g.Some? then [g.value] else [];
      CountGestureAppend(pre, gs, SingleTap);
      CountGestureAppend(pre, gs, DoubleTap);
    }
  }

  lemma {:induction false} CountGestureAppend(a: seq<Gesture>, b: seq<Gesture>, g: Gesture)
    ensures CountGesture(a + b, g) == CountGesture(a, g) + CountGesture(b, g)
  {
    if a == [] {
      assert a + b == b;
    } else {
      assert (a + b)[0] == a[0];
      assert (a + b)[1..] == a[1..] + b;
      CountGestureAppend(a[1..], b, g);
    }
  }

  /** Two clicks before the timer fires: one double tap, no single tap, and the timer
      firing afterwards does nothing. One click and the timer: one single tap. */
  lemma TapExamples()
    ensures TapRun(false, [Click, Click, TimerFires]).1 == [DoubleTap]
    ensures TapRun(false, [Click, TimerFires]).1 == [SingleTap]
    ensures !TapRun(false, [Click, Click, TimerFires]).0 && !TapRun(false, [Click, TimerFires]).0
  {
    assert [Click, Click, TimerFires][1..] == [Click, TimerFires];
    assert [Click, TimerFires][1..] == [TimerFires];
    assert [TimerFires][1..] == [];
  }

  /** The tap surface of one card: the pending click timer and the element's paused flag. */
  class ShortCard {
    var timerPending: bool
    var paused: bool

    constructor ()
      ensures !timerPending && paused
    {
      timerPending := false;
      paused := true;
    }

    /** `handleClick`: with no timer pending it arms one; with a timer pending it clears
        it and performs the double tap, whose like request is returned (`onLike` is called
        only when the Short is not liked yet). */
    method HandleClick(isLiked: bool) returns (g: Option<Gesture>, requestLike: bool)
      modifies this`timerPending
      ensures (timerPending, g) == TapStep(old(timerPending), Click)
      ensures requestLike <==> g == Some(DoubleTap) && !isLiked
    {
      if timerPending {
        timerPending := false;
        g := Some(DoubleTap);
        requestLike := !isLiked;
      } else {
        timerPending := true;
        g := None;
        requestLike := false;
      }
    }

    /** The armed timer firing: the pending state clears and the single tap toggles
        play/pause. */
    method TimerFired() returns (g: Option<Gesture>)
      modifies this
      ensures (timerPending, g) == TapStep(old(timerPending), TimerFires)
      ensures paused == (if g == Some(SingleTap) then !old(paused) else old(paused))
    {
      if timerPending {
        timerPending := false;
        paused := !paused;
        g := Some(SingleTap);
      } else {
        g := None;
      }
    }
  }
}
