/** The document uploader's helpers: the checks an upload must pass, the
    extension of a file name, the storage name a blob gets, and the record
    handed back to clients. */
module Uploads {
  import opened Common

  /** The ten content types an upload may declare. */
  const AllowedContentTypes: set<string> := {
    "application/pdf",
    "application/msword",
    "application/vnd.openxmlformats-officedocument.wordprocessingml.document",
    "application/vnd.ms-excel",
    "application/vnd.openxmlformats-officedocument.spreadsheetml.sheet",
    "application/vnd.ms-powerpoint",
    "application/vnd.openxmlformats-officedocument.presentationml.presentation",
    "image/jpeg",
    "image/png",
    "text/plain"
  }

  /** 50 MiB. */
  const MaxFileSize: nat := 50 * 1024 * 1024

  const EmptyFile := "File cannot be empty"
  const TooLarge := "File size exceeds the maximum allowed size of 50MB"
  const Unsupported := "File type not supported. Supported file types: PDF, Word, Excel, PowerPoint, JPEG, PNG, and TXT"

  /** What the check sees of an upload: its size in bytes and its declared
      content type, which may be absent. */
  datatype Upload = Upload(size: nat, contentType: Option<string>)

  /** `validateFile`: the message of the first rule the upload breaks, or
      `None` when it is accepted. */
  function ValidateFile(f: Upload): (r: Option<string>)
    ensures r.None? <==> 0 < f.size <= MaxFileSize && f.contentType.Some? && f.contentType.value in AllowedContentTypes
    ensures f.size == 0 ==> r == Some(EmptyFile)
    ensures f.size > MaxFileSize ==> r == Some(TooLarge)
    ensures 0 < f.size <= MaxFileSize && (f.contentType.None? || f.contentType.value !in AllowedContentTypes) ==>
              r == Some(Unsupported)
  {
    if f.size == 0 then Some(EmptyFile)
    else if f.size > MaxFileSize then Some(TooLarge)
    else if f.contentType.None? || f.contentType.value !in AllowedContentTypes then Some(Unsupported)
    else None
  }

  /** The size limit is inclusive: a file of exactly 50 MiB passes it, one
      byte more does not. */
  lemma SizeLimitInclusive(t: string)
    requires t in AllowedContentTypes
    ensures ValidateFile(Upload(52428800, Some(t))).None?
    ensures ValidateFile(Upload(52428801, Some(t))) == Some(TooLarge)
  {
  }

  /** Index of the last `c` in `s`, as `lastIndexOf`. */
  function LastIndexOf(s: string, c: char): (r: Option<nat>)
    ensures r.None? <==> c !in s
    ensures r.Some? ==> r.value < |s| && s[r.value] == c && c !in s[r.value + 1..]
  {
    if |s| == 0 then None
    else if s[|s| - 1] == c then Some(|s| - 1)
    else
      var r := LastIndexOf(s[..|s| - 1], c);
      assert s == s[..|s| - 1] + [s[|s| - 1]];
      if r.Some? then
        assert s[r.value + 1..] == s[..|s| - 1][r.value + 1..] + [s[|s| - 1]];
        r
      else r
  }

  /** `getFileExtension`: empty for a missing or dot-less name, else the
      lower-cased text after the last dot. */
  function FileExtension(name: Option<string>): (r: string)
    ensures (name.None? || '.' !in name.value) ==> r == ""
    ensures name.Some? && '.' in name.value ==>
              exists k :: 0 <= k < |name.value| && name.value[k] == '.' && '.' !in name.value[k + 1..] &&
                          r == Lower(name.value[k + 1..])
    ensures '.' !in r
  {
    if name.None? then ""
    else
      match LastIndexOf(name.value, '.')
      case None => ""
      case Some(k) =>
        var r := Lower(name.value[k + 1..]);
        assert forall i :: 0 <= i < |r| ==> r[i] != '.';
        r
  }

  /** A name built as base, dot, dot-less extension gives back the
      lower-cased extension, whatever the base holds. */
  lemma ExtensionOfJoinedName(base: string, ext: string)
    requires '.' !in ext
    ensures FileExtension(Some(base + "." + ext)) == Lower(ext)
  {
    var s := base + "." + ext;
    assert s[|base|] == '.';
    assert s[|base| + 1..] == ext;
    var k := LastIndexOf(s, '.').value;
    assert k == |base|;
  }

  /** `generateUniqueBlobName`: "<timestamp>-<first 8 characters of a fresh
      uuid>.<extension>". The clock reading and the uuid are parameters. */
  function BlobName(timestamp: string, uuid: string, originalName: Option<string>): (r: string)
    requires |uuid| >= 8
    ensures StartsWith(r, timestamp + "-" + uuid[..8] + ".")
    ensures r[|timestamp| + 10..] == FileExtension(originalName)
  {
    var r := timestamp + "-" + uuid[..8] + "." + FileExtension(originalName);
    assert r[..|timestamp| + 10] == timestamp + "-" + uuid[..8] + ".";
    r
  }

  /** The blob name ends in a bare dot exactly when the original name has no
      extension. */
  lemma BlobNameBareDot(timestamp: string, uuid: string, originalName: Option<string>)
    requires |uuid| >= 8
    ensures EndsWith(BlobName(timestamp, uuid, originalName), ".") <==> FileExtension(originalName) == ""
  {
    var r := BlobName(timestamp, uuid, originalName);
    var e := FileExtension(originalName);
    assert r == (timestamp + "-" + uuid[..8] + ".") + e;
    if e != "" {
      assert r[|r| - 1] == e[|e| - 1];
      assert e[|e| - 1] in e;
    }
  }

  /** Naming the stored blob keeps the file's extension: reading it back
      from the blob name gives what it was read from the original. */
  lemma BlobNameKeepsExtension(timestamp: string, uuid: string, originalName: Option<string>)
    requires |uuid| >= 8 && '.' !in timestamp && '.' !in uuid[..8]
    ensures FileExtension(Some(BlobName(timestamp, uuid, originalName))) == FileExtension(originalName)
  {
    var e := FileExtension(originalName);
    var base := timestamp + "-" + uuid[..8];
    assert BlobName(timestamp, uuid, originalName) == base + "." + e;
    ExtensionOfJoinedName(base, e);
    if originalName.Some? && '.' in originalName.value {
      var k :| 0 <= k < |originalName.value| && originalName.value[k] == '.' && '.' !in originalName.value[k + 1..] &&
               e == Lower(originalName.value[k + 1..]);
      LowerIdempotent(originalName.value[k + 1..]);
    }
  }

  /** The stored document. */
  datatype Document = Document(id: int, userId: string, userName: string, fileName: string,
                               originalFileName: string, contentType: string, fileSize: int,
                               publicUrl: string, blobName: string, pageCount: Option<int>,
                               fileExtension: string, metadata: Option<string>,
                               uploadDateTime: nat, lastAccessDateTime: nat, active: bool)

  /** The record handed to clients. */
  datatype DocumentView = DocumentView(id: int, userId: string, userName: string, fileName: string,
                                       originalFileName: string, contentType: string, fileSize: int,
                                       publicUrl: string, previewUrl: Option<string>, pageCount: Option<int>,
                                       fileExtension: string, metadata: Option<string>,
                                       uploadDateTime: nat, lastAccessDateTime: nat)

  /** `convertToDTO`: the public fields copied one for one, no preview. */
  function ConvertToView(d: Document): (r: DocumentView)
    ensures r.previewUrl.None?
    ensures r.id == d.id && r.userId == d.userId && r.userName == d.userName && r.fileName == d.fileName
    ensures r.originalFileName == d.originalFileName && r.contentType == d.contentType && r.fileSize == d.fileSize
    ensures r.publicUrl == d.publicUrl && r.pageCount == d.pageCount && r.fileExtension == d.fileExtension
    ensures r.metadata == d.metadata && r.uploadDateTime == d.uploadDateTime
    ensures r.lastAccessDateTime == d.lastAccessDateTime
  {
    DocumentView(d.id, d.userId, d.userName, d.fileName, d.originalFileName, d.contentType, d.fileSize,
                 d.publicUrl, None, d.pageCount, d.fileExtension, d.metadata, d.uploadDateTime,
                 d.lastAccessDateTime)
  }

  /** `convertToDTOWithPreview`. */
  function ConvertToViewWithPreview(d: Document, previewUrl: string): (r: DocumentView)
    ensures r.previewUrl == Some(previewUrl)
    ensures r.(previewUrl := None) == ConvertToView(d)
  {
    ConvertToView(d).(previewUrl := Some(previewUrl))
  }

  /** The view leaves out the storage name and the soft-delete flag: two
      documents that differ only there look the same to clients. */
  lemma ViewHidesStorage(d: Document, blobName: string, active: bool)
    ensures ConvertToView(d.(blobName := blobName, active := active)) == ConvertToView(d)
  {
  }
}
