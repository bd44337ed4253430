/** The upload dialog: accepting or rejecting a chosen file, the title suggested from
    its name, the Short suggestion from its metadata, the simulated upload time and the
    Publish gate. */
module Upload {
  import opened Text
  import opened Records

  /** The parts of a browser `File` the dialog reads. */
  datatype FileInfo = FileInfo(name: string, mimeType: string, size: nat)

  /** `file.type.startsWith('video/')`. */
  predicate IsVideoType(mimeType: string) {
    StartsWith(mimeType, "video/")
  }

  const InvalidFileMessage := "Please select a valid video file."

  /** `i` starts an extension: a '.' followed by at least one character, none of which
      is '.' or '/', up to the end of the name (the pattern `\.[^/.]+$`). */
  predicate ExtensionAt(name: string, i: int) {
    && 0 <= i < |name| - 1 && name[i] == '.'
    && forall j :: i < j < |name| ==> name[j] != '.' && name[j] != '/'
  }

  /** A name has at most one extension. */
  lemma {:induction false} ExtensionUnique(name: string, i: int, k: int)
    requires ExtensionAt(name, i) && ExtensionAt(name, k)
    ensures i == k
  {
    assert name[i] == '.' && name[k] == '.';
  }

  /** Where the extension of `name` starts, if it has one. */
  function ExtensionStart(name: string): (r: Option<nat>)
    ensures r.Some? ==> ExtensionAt(name, r.value)
    ensures r.None? ==> forall i :: !ExtensionAt(name, i)
    decreases |name|
  {
    if |name| < 2 then None
    else
      var n := |name|;
      if name[n - 1] == '.' || name[n - 1] == '/' then
        None
      else if name[n - 2] == '.' then Some(n - 2)
      else
        var front := name[..n - 1];
        var r := ExtensionStart(front);
        assert forall i :: ExtensionAt(name, i) ==> i < n - 2 && ExtensionAt(front, i) by {
          forall i | ExtensionAt(name, i) ensures i < n - 2 && ExtensionAt(front, i) {
            assert i != n - 2;
          }
        }
        r
  }

  /** `name.replace(/\.[^/.]+$/, "")`: the name without its extension, or the name
      itself when it has none. */
  function StripExtension(name: string): (r: string)
    ensures (exists i :: ExtensionAt(name, i)) ==> exists i :: ExtensionAt(name, i) && r == name[..i]
    ensures (forall i :: !ExtensionAt(name, i)) ==> r == name
  {
    match ExtensionStart(name)
    case None => name
    case Some(i) => name[..i]
  }

  /** "a.tar.gz" loses only ".gz"; "name" and "name." keep their names; an extension
      cannot contain a '/'. */
  lemma StripExamples()
    ensures StripExtension("a.tar.gz") == "a.tar"
    ensures StripExtension("name") == "name"
    ensures StripExtension("name.") == "name."
    ensures StripExtension("dir.v/clip") == "dir.v/clip"
  {
    assert ExtensionAt("a.tar.gz", 5);
    assert forall i :: !ExtensionAt("name", i);
    assert forall i :: !ExtensionAt("name.", i);
    assert forall i :: !ExtensionAt("dir.v/clip", i) by {
      forall i | 0 <= i < 9 && "dir.v/clip"[i] == '.' ensures !ExtensionAt("dir.v/clip", i) {
        assert i == 3;
        assert "dir.v/clip"[5] == '/';
      }
    }
  }

  /** Stripping removes the whole extension and nothing else: the stripped name plus
      the removed suffix is the name, and the stripped name is never longer. */
  lemma {:induction false} StripKeepsPrefix(name: string)
    ensures |StripExtension(name)| <= |name|
    ensures name[..|StripExtension(name)|] == StripExtension(name)
    ensures |StripExtension(name)| < |name| ==> ExtensionAt(name, |StripExtension(name)|)
  {
  }

  /** `Math.max(2000, Math.min(5000, size / (1024 * 1024) * 500))`: half a second per
      MiB, clamped to two to five seconds, in milliseconds. */
  function SimulatedDuration(size: nat): (ms: real)
    ensures 2000.0 <= ms <= 5000.0
  {
    var raw := size as real / 1048576.0 * 500.0;
    var capped := if raw < 5000.0 then raw else 5000.0;
    if capped > 2000.0 then capped else 2000.0
  }

  /** A larger file never uploads faster, and between 4 MiB and 10 MiB the time is
      exactly half a second per MiB. */
  lemma {:induction false} SimulatedDurationMonotone(a: nat, b: nat)
    requires a <= b
    ensures SimulatedDuration(a) <= SimulatedDuration(b)
    ensures 4 * 1048576 <= a <= 10 * 1048576 ==> SimulatedDuration(a) == a as real / 1048576.0 * 500.0
  {
    assert a as real / 1048576.0 <= b as real / 1048576.0;
  }

  /** The metadata rule: a portrait video of at most 60 seconds is suggested as a
      Short. */
  predicate LooksLikeShort(width: nat, height: nat, duration: real) {
    height > width && duration <= 60.0
  }

  /** The state of the upload dialog. */
  class UploadForm {
    var selectedFile: Option<FileInfo>
    var error: Option<string>
    var uploadProgress: real
    var title: string
    var description: string
    var tags: string
    var isShort: bool

    /** Without a file nothing is uploading; progress is a percentage. */
    ghost predicate Valid()
      reads this
    {
      && (selectedFile.None? ==> uploadProgress == 0.0)
      && 0.0 <= uploadProgress <= 100.0
    }

    constructor()
      ensures Valid()
      ensures selectedFile.None? && error.None? && uploadProgress == 0.0
      ensures title == "" && description == "" && tags == "" && !isShort
    {
      selectedFile := None;
      error := None;
      uploadProgress := 0.0;
      title := "";
      description := "";
      tags := "";
      isShort := false;
    }

    /** `handleFileValidation`, followed by the progress effect that restarts at 0 when
        the selected file changes. No file changes nothing; a file that is not a video
        is rejected with the error message; a video is selected, its name without the
        extension becomes the title, and description, tags and the Short flag are
        reset. Either way Publish is disabled afterwards, since the upload restarts at
        zero. */
    method HandleFileValidation(file: Option<FileInfo>)
      requires Valid()
      modifies this
      ensures Valid()
      ensures file.None? ==>
        selectedFile == old(selectedFile) && error == old(error) && uploadProgress == old(uploadProgress)
        && title == old(title) && description == old(description) && tags == old(tags) && isShort == old(isShort)
      ensures file.Some? && !IsVideoType(file.value.mimeType) ==>
        error == Some(InvalidFileMessage) && selectedFile.None? && uploadProgress == 0.0
        && title == old(title) && description == old(description) && tags == old(tags) && isShort == old(isShort)
      ensures file.Some? && IsVideoType(file.value.mimeType) ==>
        error.None? && selectedFile == file && uploadProgress == 0.0
        && title == StripExtension(file.value.name) && description == "" && tags == "" && !isShort
    ensures file.Some? ==> !CanPublish()
    {
      if file.None? {
        return;
      }
      var f := file.value;
      if !StartsWith(f.mimeType, "video/") {
        error := Some(InvalidFileMessage);
        selectedFile := None;
        uploadProgress := 0.0;
        return;
      }
      error := None;
      selectedFile := Some(f);
      title := StripExtension(f.name);
      description := "";
      tags := "";
      isShort := false;
      uploadProgress := 0.0;
    }

    /** The metadata callback: a portrait video of at most a minute is marked as a
        Short; otherwise the flag is left as it is (never cleared). */
    method MetadataLoaded(width: nat, height: nat, duration: real)
      modifies this`isShort
      ensures isShort == (old(isShort) || LooksLikeShort(width, height, duration))
    {
      if height > width && duration <= 60.0 {
        isShort := true;
      }
    }

    /** An animation frame reports progress `p`; the last frame reports 100. */
    method ProgressFrame(p: real)
      requires Valid() && selectedFile.Some? && 0.0 <= p <= 100.0
      modifies this`uploadProgress
      ensures Valid() && uploadProgress == p
    {
      uploadProgress := p;
    }

    /** Editing the title field. */
    method EditTitle(text: string)
      modifies this`title
      ensures title == text
    {
      title := text;
    }

    /** Whether Publish is enabled: a file is selected, its upload has finished and the
        title is not blank. */
    function CanPublish(): (b: bool)
      reads this
      ensures b <==> selectedFile.Some? && uploadProgress >= 100.0 && !Blank(title)
    {
      !(selectedFile.None? || uploadProgress < 100.0 || Trim(title) == [])
    }
  }
}
