/**
 * The wizard's last step: the description (with a clear button) and the cover photo.
 * A chosen file is screened (an image type first, then at most 5 MiB), uploaded under
 * "covers/" with a fresh name that keeps the original extension, and its public URL
 * becomes the cover; removing the cover deletes the storage object named in the URL
 * after "/event-photos/".
 */
module EventDescriptionStep {
  import opened Wrappers
  import JsText

  const MAX_SIZE: int := 5 * 1024 * 1024
  const BUCKET_MARKER: string := "/event-photos/"

  /** The picked file: its name, MIME type and size in bytes. */
  datatype File = File(name: string, mimeType: string, size: int)

  datatype FileOutcome = NoFile | WrongType | TooLarge | UploadFailed | Uploaded

  /** The checks before any upload: a file is needed, then an image type, then the size cap. */
  function Screen(file: Option<File>): Option<FileOutcome> {
    if file.None? then Some(NoFile)
    else if !JsText.StartsWith(file.value.mimeType, "image/") then Some(WrongType)
    else if file.value.size > MAX_SIZE then Some(TooLarge)
    else None
  }

  /** `file.name.split(".").pop()`. */
  function FileExt(name: string): string {
    JsText.LastPiece(name, '.')
  }

  /** `covers/${fileName}` where the name is a fresh stem, ".", and the extension. */
  function UploadPath(stem: string, name: string): string {
    "covers/" + stem + "." + FileExt(name)
  }

  /** `url.pathname.split("/event-photos/")[1]` when the split has a second piece. */
  function StorageKey(pathname: string): Option<string> {
    JsText.SecondPiece(pathname, BUCKET_MARKER)
  }

  /**
   * The type is checked before the size: a non-image is rejected whatever its size, and
   * an image passes exactly when it is at most 5 MiB (5 MiB itself passes).
   */
  lemma ScreenOrder(file: File)
    ensures !JsText.StartsWith(file.mimeType, "image/") ==> Screen(Some(file)) == Some(WrongType)
    ensures JsText.StartsWith(file.mimeType, "image/") ==> (Screen(Some(file)).None? <==> file.size <= 5242880)
    ensures Screen(Some(File(file.name, "image/png", 5242880))).None?
    ensures Screen(Some(File(file.name, "image/png", 5242881))) == Some(TooLarge)
  {
  }

  /**
   * The upload path is "covers/", the stem, ".", and an extension with no "."; the
   * extension is the whole name when the name has no ".", and otherwise the name ends
   * in "." and the extension.
   */
  lemma UploadPathShape(stem: string, name: string)
    ensures JsText.StartsWith(UploadPath(stem, name), "covers/")
    ensures '.' !in FileExt(name)
    ensures UploadPath(stem, name) == "covers/" + stem + "." + FileExt(name)
    ensures '.' !in name ==> FileExt(name) == name
    ensures '.' in name ==> exists front: string :: name == front + "." + FileExt(name)
  {
    JsText.LastPieceShape(name, '.');
    if '.' in name {
      var front: string :| name == front + ['.'] + JsText.LastPiece(name, '.');
      assert name == front + "." + FileExt(name);
    }
  }

  /** The extension is a piece of the name, so it holds no "/" when the name holds none. */
  lemma ExtWithoutSlash(name: string)
    requires '/' !in name
    ensures '/' !in FileExt(name)
  {
    JsText.LastPieceShape(name, '.');
    var ext := FileExt(name);
    if '.' in name {
      var front: string :| name == front + ['.'] + ext;
      forall k | 0 <= k < |ext| ensures ext[k] != '/' {
        assert ext[k] == name[|front| + 1 + k];
      }
    }
  }

  /** An upload path whose stem and file name hold no "/" has its only "/" after "covers". */
  lemma UploadPathSlash(stem: string, name: string)
    requires '/' !in stem && '/' !in name
    ensures forall i :: 0 <= i < |UploadPath(stem, name)| ==> (UploadPath(stem, name)[i] == '/' <==> i == 6)
  {
    ExtWithoutSlash(name);
    var ext := FileExt(name);
    var p := UploadPath(stem, name);
    forall i | 0 <= i < |p| ensures p[i] == '/' <==> i == 6 {
      if 7 <= i < 7 + |stem| {
        assert p[i] == stem[i - 7];
      } else if i > 7 + |stem| {
        assert p[i] == ext[i - 8 - |stem|];
      }
    }
  }

  /** With the stem and name free of "/", the uploaded path's own text holds no "/event-photos/". */
  lemma UploadPathHasNoMarker(stem: string, name: string)
    requires '/' !in stem && '/' !in name
    ensures JsText.IndexOf(UploadPath(stem, name), BUCKET_MARKER, 0).None?
  {
    var p := UploadPath(stem, name);
    UploadPathSlash(stem, name);
    forall j | 0 <= j ensures !JsText.OccursAt(p, BUCKET_MARKER, j) {
      if j + |BUCKET_MARKER| <= |p| {
        assert p[j..j + |BUCKET_MARKER|][0] == p[j];
        assert p[j..j + |BUCKET_MARKER|][13] == p[j + 13];
      }
    }
  }

  /**
   * Removing a cover this step uploaded deletes exactly the object it uploaded: when the
   * public URL's path is a prefix with no earlier "/event-photos/", the marker, and the
   * upload path, the key read back is the upload path (for a stem and name free of "/").
   */
  lemma RemoveDeletesUploadedObject(prefix: string, stem: string, name: string)
    requires JsText.IndexOf(prefix + BUCKET_MARKER, BUCKET_MARKER, 0) == Some(|prefix|)
    requires '/' !in stem && '/' !in name
    ensures StorageKey(prefix + BUCKET_MARKER + UploadPath(stem, name)) == Some(UploadPath(stem, name))
  {
    UploadPathHasNoMarker(stem, name);
    JsText.SecondPieceOfJoin(prefix, BUCKET_MARKER, UploadPath(stem, name));
  }

  /** The step's own state and the parts of the form it edits through its callbacks. */
  class CoverEditor {
    var description: string
    var coverPhotoUrl: Option<string>
    var isUploading: bool
    /** The paths sent to the storage upload, and the keys sent to the storage remove. */
    var uploads: seq<string>
    var removals: seq<string>

    constructor(description0: string, cover0: Option<string>)
      ensures description == description0 && coverPhotoUrl == cover0
      ensures !isUploading && uploads == [] && removals == []
    {
      description := description0;
      coverPhotoUrl := cover0;
      isUploading := false;
      uploads := [];
      removals := [];
    }

    /** `handleClearDescription`. */
    method ClearDescription()
      modifies this
      ensures description == ""
      ensures coverPhotoUrl == old(coverPhotoUrl) && isUploading == old(isUploading)
      ensures uploads == old(uploads) && removals == old(removals)
    {
      description := "";
    }

    /**
     * `handleFileChange`. The clock-and-random stem and the upload's result are passed
     * in; `uploadOk` is false both for an error result and for a thrown error.
     */
    method HandleFileChange(file: Option<File>, stem: string, uploadOk: bool, publicUrl: string) returns (outcome: FileOutcome)
      modifies this
      ensures outcome == (if Screen(file).Some? then Screen(file).value else if uploadOk then Uploaded else UploadFailed)
      ensures Screen(file).Some? ==>
        && isUploading == old(isUploading) && uploads == old(uploads) && coverPhotoUrl == old(coverPhotoUrl)
      ensures Screen(file).None? ==>
        && !isUploading
        && uploads == old(uploads) + [UploadPath(stem, file.value.name)]
        && coverPhotoUrl == (if uploadOk then Some(publicUrl) else old(coverPhotoUrl))
      ensures description == old(description) && removals == old(removals)
    {
      if file.None? {
        return NoFile;
      }
      var f := file.value;
      if !JsText.StartsWith(f.mimeType, "image/") {
        return WrongType;
      }
      if f.size > MAX_SIZE {
        return TooLarge;
      }
      isUploading := true;
      var fileExt := FileExt(f.name);
      var filePath := "covers/" + stem + "." + fileExt;
      uploads := uploads + [filePath];
      if !uploadOk {
        outcome := UploadFailed;
      } else {
        coverPhotoUrl := Some(publicUrl);
        outcome := Uploaded;
      }
      isUploading := false;
    }

    /**
     * `handleRemovePhoto`. `pathname` is the parsed URL's path, `None` when the cover is
     * not a valid URL (the error is caught). With a cover, it always ends with none.
     */
    method HandleRemovePhoto(pathname: Option<string>)
      modifies this
      ensures !(old(coverPhotoUrl).Some? && old(coverPhotoUrl).value != "") ==>
        coverPhotoUrl == old(coverPhotoUrl) && removals == old(removals)
      ensures old(coverPhotoUrl).Some? && old(coverPhotoUrl).value != "" ==>
        && coverPhotoUrl.None?
        && removals == old(removals) + (if pathname.Some? && StorageKey(pathname.value).Some? then [StorageKey(pathname.value).value] else [])
      ensures description == old(description) && isUploading == old(isUploading) && uploads == old(uploads)
    {
      if !(coverPhotoUrl.Some? && coverPhotoUrl.value != "") {
        return;
      }
      if pathname.Some? {
        var key := StorageKey(pathname.value);
        if key.Some? {
          removals := removals + [key.value];
        }
      }
      coverPhotoUrl := None;
    }
  }
}
