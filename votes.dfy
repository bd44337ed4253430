/** The like/dislike rule shared by the Shorts feed and the long-form video page.

    A vote is the pair of flags `isLiked`/`isDisliked` together with the displayed like
    count. Both presses keep the flags mutually exclusive and keep the count equal to a
    fixed baseline plus one while the video is liked; that baseline is the count the
    video was given when its state was created. */
module Votes {

  datatype Vote = Vote(isLiked: bool, isDisliked: bool, likeCount: int)

  /** Liked and disliked are never both set. */
  predicate Exclusive(v: Vote) {
    !(v.isLiked && v.isDisliked)
  }

  /** The like count with this viewer's own like taken out. */
  function Baseline(v: Vote): int {
    v.likeCount - (if v.isLiked then 1 else 0)
  }

  /** Pressing like. It flips `isLiked`; a new like clears a dislike and an unlike leaves
      the dislike flag alone; the count moves with the viewer's own like, so the baseline
      does not change (+1 on like, -1 on unlike). These clauses determine the result. */
  function Like(v: Vote): (r: Vote)
    ensures r.isLiked == !v.isLiked
    ensures r.isLiked || r.isDisliked == v.isDisliked
    ensures Exclusive(r)
    ensures Baseline(r) == Baseline(v)
  {
    var liked := !v.isLiked;
    Vote(liked, if liked then false else v.isDisliked, v.likeCount + if liked then 1 else -1)
  }

  /** Pressing dislike. It flips `isDisliked`; a new dislike clears a like and an
      un-dislike leaves the like flag alone; the baseline does not change, so the count
      drops by one exactly when a liked video becomes disliked. */
  function Dislike(v: Vote): (r: Vote)
    ensures r.isDisliked == !v.isDisliked
    ensures r.isDisliked || r.isLiked == v.isLiked
    ensures Exclusive(r)
    ensures Baseline(r) == Baseline(v)
  {
    var disliked := !v.isDisliked;
    Vote(if disliked then false else v.isLiked, disliked,
         if v.isLiked && disliked then v.likeCount - 1 else v.likeCount)
  }

  /** A press on the like or the dislike button. */
  datatype Press = LikePress | DislikePress

  function Apply(v: Vote, p: Press): Vote {
    match p
    case LikePress => Like(v)
    case DislikePress => Dislike(v)
  }

  /** The vote after a whole sequence of presses, first press first. */
  function Replay(v: Vote, ps: seq<Press>): Vote
    decreases |ps|
  {
    if ps == [] then v else Replay(Apply(v, ps[0]), ps[1..])
  }

  /** Whatever the presses, the count is the starting count plus one exactly while the
      video is liked, and the flags stay exclusive: the count reflects the net effect of
      the viewer's own like and nothing else. */
  lemma {:induction false} ReplayTracksCount(seed: int, ps: seq<Press>)
    ensures var v := Replay(Vote(false, false, seed), ps);
      Exclusive(v) && v.likeCount == seed + (if v.isLiked then 1 else 0)
  {
    ReplayKeepsBaseline(Vote(false, false, seed), ps);
  }

  lemma {:induction false} ReplayKeepsBaseline(v: Vote, ps: seq<Press>)
    requires Exclusive(v)
    ensures Exclusive(Replay(v, ps)) && Baseline(Replay(v, ps)) == Baseline(v)
    decreases |ps|
  {
    if ps != [] {
      ReplayKeepsBaseline(Apply(v, ps[0]), ps[1..]);
    }
  }

  /** Every press moves the count by exactly -1, 0 or +1. */
  lemma PressMovesCountByOne(v: Vote, p: Press)
    ensures -1 <= Apply(v, p).likeCount - v.likeCount <= 1
  {
  }

  /** Like then dislike from count c gives c + 1 and then c; un-disliking afterwards
      leaves c. */
  lemma LikeDislikeUndislike(c: int)
    ensures Like(Vote(false, false, c)).likeCount == c + 1
    ensures Dislike(Like(Vote(false, false, c))) == Vote(false, true, c)
    ensures Dislike(Dislike(Like(Vote(false, false, c)))) == Vote(false, false, c)
  {
  }

  /** Un-disliking never changes the count and never touches the like flag. */
  lemma UndislikeKeepsCount(v: Vote)
    requires v.isDisliked
    ensures Dislike(v).likeCount == v.likeCount && Dislike(v).isLiked == v.isLiked
  {
  }
}
