/** The drag-and-drop upload area: the dragging highlight, which file of a drop or
    a file input is used, which files are accepted, and the preview it shows. */
module UploadArea {
  import opened Wrappers
  import opened Strings

  /** What the area looks at in a `File`: its MIME type (its name and size are never read). */
  datatype FileInfo = FileInfo(name: string, mimeType: string, sizeBytes: nat)

  /** `file.type.startsWith('image/')`. */
  predicate Accepts(file: FileInfo) {
    StartsWith(file.mimeType, "image/")
  }

  /** Only the MIME type decides: the "Max 10MB" label is not enforced. */
  lemma AcceptanceIgnoresSize(file: FileInfo, size: nat)
    ensures Accepts(file) <==> Accepts(file.(sizeBytes := size))
  {
  }

  /** `files && files[0]`: the first file of a drop or a file input, if there is one. */
  function FirstFile(files: seq<FileInfo>): (f: Option<FileInfo>)
    ensures f.None? <==> files == []
    ensures f.Some? ==> f.value == files[0]
  {
    if files == [] then None else Some(files[0])
  }

  /** What a drop or a file input reports to the page: at most one file, only the
      first one given, and only when it is an image; nothing for an empty selection
      or a first file of another type, whatever follows it. */
  function Reported(files: seq<FileInfo>): (up: seq<FileInfo>)
    ensures |up| <= 1
    ensures up != [] <==> files != [] && Accepts(files[0])
    ensures forall k | 0 <= k < |up| :: up[k] == files[0] && Accepts(up[k])
  {
    match FirstFile(files)
    case None => []
    case Some(f) => if Accepts(f) then [f] else []
  }

  class UploadArea {
    var dragging: bool
    var preview: Option<string>
    /** Files whose `readAsDataURL` has been started, oldest first. */
    var reading: seq<FileInfo>

    constructor ()
      ensures !dragging && preview == None && reading == []
    {
      dragging, preview, reading := false, None, [];
    }

    /** The drop zone (and its hidden file input) is on screen; otherwise the preview is. */
    predicate ShowsDropZone()
      reads this
    {
      !Present(preview)
    }

    method DragOver()
      requires ShowsDropZone()
      modifies this
      ensures dragging && preview == old(preview) && reading == old(reading)
    {
      dragging := true;
    }

    method DragLeave()
      requires ShowsDropZone()
      modifies this
      ensures !dragging && preview == old(preview) && reading == old(reading)
    {
      dragging := false;
    }

    /** `handleFile`: an image starts a read and is reported to the page once; any
        other file is ignored. */
    method HandleFile(file: FileInfo) returns (uploaded: seq<FileInfo>)
      modifies this
      ensures Accepts(file) ==> uploaded == [file] && reading == old(reading) + [file]
      ensures !Accepts(file) ==> uploaded == [] && reading == old(reading)
      ensures dragging == old(dragging) && preview == old(preview)
    {
      if Accepts(file) {
        reading := reading + [file];
        uploaded := [file];
      } else {
        uploaded := [];
      }
    }

    /** `handleDrop`: the highlight goes off and only the first dropped file is handled. */
    method Drop(files: seq<FileInfo>) returns (uploaded: seq<FileInfo>)
      requires ShowsDropZone()
      modifies this
      ensures !dragging && preview == old(preview)
      ensures uploaded == Reported(files)
      ensures reading == old(reading) + uploaded
    {
      dragging := false;
      var first := FirstFile(files);
      if first.Some? {
        uploaded := HandleFile(first.value);
      } else {
        uploaded := [];
      }
    }

    /** `handleFileInput`: only the first chosen file is handled. */
    method FileInput(files: seq<FileInfo>) returns (uploaded: seq<FileInfo>)
      requires ShowsDropZone()
      modifies this
      ensures dragging == old(dragging) && preview == old(preview)
      ensures uploaded == Reported(files)
      ensures reading == old(reading) + uploaded
    {
      var first := FirstFile(files);
      if first.Some? {
        uploaded := HandleFile(first.value);
      } else {
        uploaded := [];
      }
    }

    /** The reader's `loadend`: its result (a data URL, or None after a failed read)
        becomes the preview. */
    method ReadLoaded(result: Option<string>)
      modifies this
      ensures preview == result
      ensures Present(result) ==> !ShowsDropZone()
      ensures dragging == old(dragging) && reading == old(reading)
    {
      preview := result;
    }

    /** `clearPreview`: the preview goes and the drop zone comes back. (The file input
        is not mounted while the preview shows, so there is no input value to reset.) */
    method ClearPreview()
      requires !ShowsDropZone()
      modifies this
      ensures preview == None && ShowsDropZone()
      ensures dragging == old(dragging) && reading == old(reading)
    {
      preview := None;
    }
  }

  /** "image/png" and "image/jpeg" are accepted; "application/pdf" and "" are not. */
  lemma AcceptanceExamples(name: string, size: nat)
    ensures Accepts(FileInfo(name, "image/png", size)) && Accepts(FileInfo(name, "image/jpeg", size))
    ensures !Accepts(FileInfo(name, "application/pdf", size)) && !Accepts(FileInfo(name, "", size))
  {
    assert "image/png"[0..6] == "image/";
    assert "image/jpeg"[0..6] == "image/";
    assert "application/pdf"[0..6] != "image/" by { assert "application/pdf"[0] == 'a'; }
  }
}
