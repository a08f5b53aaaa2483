/**
 * The photo picker of the record forms: which files it accepts, the name under which
 * an accepted file is stored, and the preview it shows. The file, the clock, the random
 * part of the name, the storage's reply and the moment the image reader finishes are
 * parameters.
 */
module ImageUpload {
  import opened Wrappers
  import opened Text

  /** What the picker reads of the chosen file: its MIME type, size in bytes and name. */
  datatype FileInfo = FileInfo(mimeType: string, size: nat, name: string)

  const MaxBytes: nat := 5 * 1024 * 1024
  const NotAnImage := "Por favor, selecione apenas arquivos de imagem"
  const TooLarge := "A imagem deve ter no máximo 5MB"
  const UploadFailed := "Erro ao fazer upload da imagem"

  /** The two checks before any upload, in order: the type, then the size. */
  function Rejection(f: FileInfo): (alert: Option<string>)
    ensures alert.None? <==> StartsWith(f.mimeType, "image/") && f.size <= MaxBytes
    ensures !StartsWith(f.mimeType, "image/") ==> alert == Some(NotAnImage)
    ensures StartsWith(f.mimeType, "image/") && f.size > MaxBytes ==> alert == Some(TooLarge)
  {
    if !StartsWith(f.mimeType, "image/") then Some(NotAnImage)
    else if f.size > MaxBytes then Some(TooLarge)
    else None
  }

  /** The size limit is inclusive: an image of exactly 5 MiB passes and one byte more does not. */
  lemma SizeBoundary(name: string)
    ensures Rejection(FileInfo("image/png", MaxBytes, name)).None?
    ensures Rejection(FileInfo("image/png", MaxBytes + 1, name)) == Some(TooLarge)
  {
    assert StartsWith("image/png", "image/") by {
      assert "image/png"[..6] == "image/";
    }
  }

  /** `name.split('.').pop()`: the text after the last dot, or the whole name when there is none. */
  function Extension(name: string): string {
    var parts := Split(name, '.');
    parts[|parts| - 1]
  }

  lemma {:induction false} JoinLast(parts: seq<string>, c: char)
    requires |parts| >= 2
    ensures Join(parts, c) == Join(parts[..|parts| - 1], c) + [c] + parts[|parts| - 1]
    decreases |parts|
  {
    if |parts| > 2 {
      JoinLast(parts[1..], c);
      assert parts[1..][..|parts[1..]| - 1] == parts[..|parts| - 1][1..];
    }
  }

  /**
   * The extension holds no dot; without a dot it is the whole name, and with one the name
   * is some text, a dot and the extension.
   */
  lemma ExtensionMeaning(name: string)
    ensures '.' !in Extension(name)
    ensures '.' !in name ==> Extension(name) == name
    ensures '.' in name ==> exists stem :: name == stem + "." + Extension(name)
  {
    var parts := Split(name, '.');
    assert Extension(name) == parts[|parts| - 1];
    SplitSingle(name, '.');
    JoinSplit(name, '.');
    if '.' in name {
      assert |parts| >= 2;
      JoinLast(parts, '.');
      var stem := Join(parts[..|parts| - 1], '.');
      assert name == stem + "." + Extension(name);
    } else {
      assert |parts| == 1 && Join(parts, '.') == parts[0];
    }
  }

  /** The stored name: the time in milliseconds, a dash, the random part, a dot and the extension. */
  function StoredName(now: int, token: string, f: FileInfo): string {
    IntToString(now) + "-" + token + "." + Extension(f.name)
  }

  /** The picker's state. */
  class Picker {
    var uploading: bool
    var preview: Option<string>

    /** The first render: the current image, when there is one, is the preview. */
    constructor (currentImageUrl: Option<string>)
      ensures !uploading
      ensures preview == if Truthy(currentImageUrl) then currentImageUrl else None
    {
      uploading := false;
      preview := if Truthy(currentImageUrl) then currentImageUrl else None;
    }

    /**
     * `handleFileSelect`. No file, or a rejected one, changes nothing (the rejection is
     * alerted). Otherwise the file is stored under `StoredName` (`path`) and on success
     * its public URL goes to the callback (`uploaded`); a failed upload is alerted and
     * clears the preview. The reader's image becomes the preview when it finishes: before
     * the storage answers (`readerFirst`), or after it, overwriting a cleared preview.
     */
    method HandleFileSelect(file: Option<FileInfo>, dataUrl: string, now: int, token: string,
                            uploadFails: bool, publicUrl: string, readerFirst: bool)
      returns (alert: Option<string>, path: Option<string>, uploaded: Option<string>)
      modifies this
      ensures !uploading
      ensures file.None? ==> alert.None? && path.None? && uploaded.None? && preview == old(preview)
      ensures file.Some? && Rejection(file.value).Some? ==>
        (alert == Rejection(file.value) && path.None? && uploaded.None? && preview == old(preview))
      ensures file.Some? && Rejection(file.value).None? ==> path == Some(StoredName(now, token, file.value))
      ensures file.Some? && Rejection(file.value).None? && !uploadFails ==>
        (alert.None? && uploaded == Some(publicUrl) && preview == Some(dataUrl))
      ensures file.Some? && Rejection(file.value).None? && uploadFails ==>
        (alert == Some(UploadFailed) && uploaded.None? && preview == (if readerFirst then None else Some(dataUrl)))
    {
      alert, path, uploaded := None, None, None;
      if file.None? {
        uploading := false;
        return;
      }
      var rejected := Rejection(file.value);
      if rejected.Some? {
        alert := rejected;
        uploading := false;
        return;
      }
      uploading := true;
      if readerFirst {
        preview := Some(dataUrl);
      }
      path := Some(StoredName(now, token, file.value));
      if uploadFails {
        alert := Some(UploadFailed);
        preview := None;
      } else {
        uploaded := Some(publicUrl);
      }
      if !readerFirst {
        preview := Some(dataUrl);
      }
      uploading := false;
    }

    /** `handleRemove`: the preview is cleared and the removal callback, when given, is called. */
    method HandleRemove(hasCallback: bool) returns (notified: bool)
      modifies this
      ensures preview.None? && uploading == old(uploading)
      ensures notified == hasCallback
    {
      preview := None;
      notified := hasCallback;
    }
  }
}
