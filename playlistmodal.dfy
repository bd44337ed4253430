/** The "Save to..." dialog: one checkbox per playlist and the form that creates a new
    playlist. */
module PlaylistModal {
  import opened Text
  import opened Records
  import opened Collections
  import Playlists

  /** A playlist's checkbox is ticked when the video is in it. */
  predicate IsChecked(p: Playlist, videoId: string) {
    videoId in p.videoIds
  }

  /** Changing the checkbox of the playlist at position `i` toggles the video in that
      playlist: its box flips and every playlist with another identifier keeps its box. */
  lemma {:induction false} CheckboxFlips(ps: seq<Playlist>, i: nat, videoId: string)
    requires i < |ps| && NoDup(ps[i].videoIds)
    ensures var r := Playlists.ToggleVideoInPlaylist(ps, ps[i].id, videoId);
      && IsChecked(r[i], videoId) == !IsChecked(ps[i], videoId)
      && forall j :: 0 <= j < |ps| && ps[j].id != ps[i].id ==> IsChecked(r[j], videoId) == IsChecked(ps[j], videoId)
  {
    Playlists.ToggleIdFlips(ps[i].videoIds, videoId);
  }

  /** The create-playlist form of the dialog. */
  class CreateForm {
    var isCreating: bool
    var newPlaylistName: string

    constructor()
      ensures !isCreating && newPlaylistName == ""
    {
      isCreating := false;
      newPlaylistName := "";
    }

    /** "Create new playlist" shows the name input. */
    method StartCreating()
      modifies this`isCreating
      ensures isCreating
    {
      isCreating := true;
    }

    /** Typing into the name input. */
    method TypeName(name: string)
      modifies this`newPlaylistName
      ensures newPlaylistName == name
    {
      newPlaylistName := name;
    }

    /** `handleCreate`: a name that is blank after trimming does nothing; otherwise the
        trimmed name is handed to the playlist creation (the result), the input is
        cleared and the form closes. */
    method HandleCreate() returns (created: Option<string>)
      modifies this
      ensures Blank(old(newPlaylistName)) ==>
        created.None? && newPlaylistName == old(newPlaylistName) && isCreating == old(isCreating)
      ensures !Blank(old(newPlaylistName)) ==>
        created == Some(Trim(old(newPlaylistName))) && newPlaylistName == "" && !isCreating
    {
      var name := Trim(newPlaylistName);
      if name != [] {
        created := Some(name);
        newPlaylistName := "";
        isCreating := false;
      } else {
        created := None;
      }
    }

    /** `handleCancelCreate`. */
    method HandleCancelCreate()
      modifies this
      ensures newPlaylistName == "" && !isCreating
    {
      newPlaylistName := "";
      isCreating := false;
    }

    /** `handleKeyDown`: Enter creates, Escape cancels, any other key does nothing. */
    method HandleKeyDown(key: string) returns (created: Option<string>)
      modifies this
      ensures key == "Enter" && Blank(old(newPlaylistName)) ==>
        created.None? && newPlaylistName == old(newPlaylistName) && isCreating == old(isCreating)
      ensures key == "Enter" && !Blank(old(newPlaylistName)) ==>
        created == Some(Trim(old(newPlaylistName))) && newPlaylistName == "" && !isCreating
      ensures key == "Escape" ==> created.None? && newPlaylistName == "" && !isCreating
      ensures key != "Enter" && key != "Escape" ==>
        created.None? && newPlaylistName == old(newPlaylistName) && isCreating == old(isCreating)
    {
      if key == "Enter" {
        created := HandleCreate();
      } else if key == "Escape" {
        HandleCancelCreate();
        created := None;
      } else {
        created := None;
      }
    }
  }

  /** The name the form hands over is never blank and has no white space to trim at
      either end, so trimming it again in the application would change nothing. */
  lemma {:induction false} CreatedNameIsTrimmed(typed: string)
    requires !Blank(typed)
    ensures !Blank(Trim(typed)) && Trim(Trim(typed)) == Trim(typed)
    ensures !IsSpace(Trim(typed)[0]) && !IsSpace(Trim(typed)[|Trim(typed)| - 1])
  {
    TrimIdempotent(typed);
  }
}
