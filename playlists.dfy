/** The user's playlists as the application root keeps them: toggling a video in a
    playlist, creating a playlist, and looking a playlist up by identifier. Every page
    that offers "Save to playlist" goes through these two updates. */
module Playlists {
  import opened Text
  import opened Records
  import opened Collections

  /** `playlists.find(p => p.id === id)`: the first playlist with that identifier. */
  function FindPlaylist(ps: seq<Playlist>, id: string): (r: Option<Playlist>)
    ensures r.Some? <==> exists i :: 0 <= i < |ps| && ps[i].id == id
    ensures r.Some? ==> r.value.id == id && exists i ::
      0 <= i < |ps| && ps[i] == r.value && (forall j :: 0 <= j < i ==> ps[j].id != id)
    decreases |ps|
  {
    if ps == [] then None
    else if ps[0].id == id then Some(ps[0])
    else
      var r := FindPlaylist(ps[1..], id);
      assert forall i :: 0 <= i < |ps[1..]| ==> ps[1..][i] == ps[i + 1];
      r
  }

  /** The add-or-remove step on one playlist's video identifiers: the first occurrence
      of `v` is spliced out when there is one, and otherwise `v` is appended. */
  function ToggleId(ids: seq<string>, v: string): (r: seq<string>)
    ensures v !in ids ==> r == ids + [v]
    ensures v in ids ==>
      exists i :: 0 <= i < |ids| && ids[i] == v && v !in ids[..i] && r == ids[..i] + ids[i + 1..]
    ensures v in ids ==> multiset(r) == multiset(ids) - multiset{v}
    ensures forall w :: w != v ==> (w in r <==> w in ids)
  {
    if v in ids then
      var i := IndexOf(ids, v);
      assert ids == ids[..i] + [v] + ids[i + 1..];
      var r := RemoveAt(ids, i);
      assert r == ids[..i] + ids[i + 1..];
      assert forall w :: w in ids <==> w == v || w in r by {
        assert forall w :: w in ids <==> w in multiset(ids);
        assert forall w :: w in r <==> w in multiset(r);
      }
      r
    else ids + [v]
  }

  /** On a list without repetitions the toggle flips membership of `v` and keeps the
      list free of repetitions, so a checkbox bound to membership flips with it. */
  lemma {:induction false} ToggleIdFlips(ids: seq<string>, v: string)
    requires NoDup(ids)
    ensures NoDup(ToggleId(ids, v))
    ensures v in ToggleId(ids, v) <==> v !in ids
  {
    var r := ToggleId(ids, v);
    if v in ids {
      var i := IndexOf(ids, v);
      assert r == ids[..i] + ids[i + 1..];
      forall j | 0 <= j < |r| ensures r[j] != v {
        if j < i { assert r[j] == ids[j]; } else { assert r[j] == ids[j + 1]; }
      }
      forall a, b | 0 <= a < b < |r| ensures r[a] != r[b] {
        var a' := if a < i then a else a + 1;
        var b' := if b < i then b else b + 1;
        assert r[a] == ids[a'] && r[b] == ids[b'];
      }
    } else {
      forall a, b | 0 <= a < b < |r| ensures r[a] != r[b] {
        if b < |ids| { assert r[a] == ids[a] && r[b] == ids[b]; }
      }
    }
  }

  /** Adding and then removing a video gives the list back. */
  lemma {:induction false} AddThenRemove(ids: seq<string>, v: string)
    requires v !in ids
    ensures ToggleId(ToggleId(ids, v), v) == ids
  {
    var added := ids + [v];
    assert IndexOf(added, v) == |ids| by {
      assert forall j :: 0 <= j < |ids| ==> added[j] == ids[j];
    }
    assert added[..|ids|] == ids;
  }

  /** `handleToggleVideoInPlaylist`: every playlist with the given identifier has the
      video toggled; every other playlist, and the order of the playlists, stay as they
      were. */
  function ToggleVideoInPlaylist(ps: seq<Playlist>, playlistId: string, videoId: string): (r: seq<Playlist>)
    ensures |r| == |ps|
    ensures forall i :: 0 <= i < |ps| ==> r[i].id == ps[i].id && r[i].name == ps[i].name
    ensures forall i :: 0 <= i < |ps| && ps[i].id != playlistId ==> r[i] == ps[i]
    ensures forall i :: 0 <= i < |ps| && ps[i].id == playlistId ==>
      r[i].videoIds == ToggleId(ps[i].videoIds, videoId)
  {
    seq(|ps|, i requires 0 <= i < |ps| =>
      if ps[i].id == playlistId then ps[i].(videoIds := ToggleId(ps[i].videoIds, videoId)) else ps[i])
  }

  /** Whether `videoId` is in the playlist found under `playlistId`, false when there is
      none (`find(...)?.videoIds.includes(videoId) ?? false`). */
  predicate SavedIn(ps: seq<Playlist>, playlistId: string, videoId: string) {
    match FindPlaylist(ps, playlistId)
    case None => false
    case Some(p) => videoId in p.videoIds
  }

  /** Toggling a video in an existing playlist whose videos do not repeat flips whether
      it is saved there; toggling in a playlist that does not exist changes nothing. */
  lemma {:induction false} ToggleFlipsSaved(ps: seq<Playlist>, playlistId: string, videoId: string)
    requires forall p :: p in ps ==> NoDup(p.videoIds)
    ensures FindPlaylist(ps, playlistId).None? ==> ToggleVideoInPlaylist(ps, playlistId, videoId) == ps
    ensures FindPlaylist(ps, playlistId).Some? ==>
      SavedIn(ToggleVideoInPlaylist(ps, playlistId, videoId), playlistId, videoId) == !SavedIn(ps, playlistId, videoId)
  {
    var r := ToggleVideoInPlaylist(ps, playlistId, videoId);
    var found := FindPlaylist(ps, playlistId);
    if found.None? {
      assert forall i :: 0 <= i < |ps| ==> r[i] == ps[i];
    } else {
      var i :| 0 <= i < |ps| && ps[i] == found.value && forall j :: 0 <= j < i ==> ps[j].id != playlistId;
      FindFirst(r, playlistId, i);
      ToggleIdFlips(ps[i].videoIds, videoId);
    }
  }

  /** The playlist at the first position with a given identifier is the one found. */
  lemma {:induction false} FindFirst(ps: seq<Playlist>, id: string, i: nat)
    requires i < |ps| && ps[i].id == id
    requires forall j :: 0 <= j < i ==> ps[j].id != id
    ensures FindPlaylist(ps, id) == Some(ps[i])
    decreases i
  {
    if i > 0 {
      FindFirst(ps[1..], id, i - 1);
    }
  }

  /** Every playlist keeps its videos free of repetitions under any toggle. */
  lemma {:induction false} ToggleKeepsNoDup(ps: seq<Playlist>, playlistId: string, videoId: string)
    requires forall p :: p in ps ==> NoDup(p.videoIds)
    ensures forall p :: p in ToggleVideoInPlaylist(ps, playlistId, videoId) ==> NoDup(p.videoIds)
  {
    var r := ToggleVideoInPlaylist(ps, playlistId, videoId);
    forall p | p in r ensures NoDup(p.videoIds) {
      var i :| 0 <= i < |r| && r[i] == p;
      assert ps[i] in ps;
      if ps[i].id == playlistId {
        ToggleIdFlips(ps[i].videoIds, videoId);
      }
    }
  }

  /** The identifier of a playlist created at `now` milliseconds since the epoch. */
  function NewPlaylistId(now: nat): (r: string)
    ensures |r| > 2 && r[..2] == "pl"
  {
    "pl" + Decimal(now)
  }

  /** Two playlists created at different instants get different identifiers. */
  lemma {:induction false} NewPlaylistIdsDiffer(m: nat, n: nat)
    requires m != n
    ensures NewPlaylistId(m) != NewPlaylistId(n)
  {
    DecimalInjective(m, n);
    assert NewPlaylistId(m)[2..] == Decimal(m) && NewPlaylistId(n)[2..] == Decimal(n);
  }

  /** `handleCreatePlaylist`: an empty playlist with the given name is appended after the
      existing ones, which stay as they were. */
  function CreatePlaylist(ps: seq<Playlist>, name: string, now: nat): (r: seq<Playlist>)
    ensures |r| == |ps| + 1 && r[..|ps|] == ps
    ensures r[|ps|] == Playlist(NewPlaylistId(now), name, [])
  {
    ps + [Playlist(NewPlaylistId(now), name, [])]
  }

  /** A new playlist holds no video, so nothing is saved in it until a toggle adds one;
      creating it keeps every existing playlist free of repetitions. */
  lemma {:induction false} CreatedPlaylistIsEmpty(ps: seq<Playlist>, name: string, now: nat, videoId: string)
    requires forall p :: p in ps ==> NoDup(p.videoIds)
    requires forall p :: p in ps ==> p.id != NewPlaylistId(now)
    ensures !SavedIn(CreatePlaylist(ps, name, now), NewPlaylistId(now), videoId)
    ensures forall p :: p in CreatePlaylist(ps, name, now) ==> NoDup(p.videoIds)
  {
    var r := CreatePlaylist(ps, name, now);
    FindFirst(r, NewPlaylistId(now), |ps|);
    forall p | p in r ensures NoDup(p.videoIds) {
      var i :| 0 <= i < |r| && r[i] == p;
      if i < |ps| { assert ps[i] in ps; }
    }
  }
}
