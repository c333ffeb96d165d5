/**
 * `AWSUploader` (server/services/awsUploader.js): the content type sent
 * with an object, the key a local file is stored under, and the summary of
 * a folder synchronisation.
 *
 * The file system and S3 are parameters: whether the local file exists,
 * the listing of a folder (missing, unreadable, or its entries with the
 * outcome of `fs.stat` for each), and the error S3 answers for an upload,
 * if any.
 */
module AwsUploader {
  import opened Wrappers
  import opened Strings
  import opened Paths
  import opened FileSystem
  import StorageScanner

  const ContentTypes: map<string, string> := map[
    ".mp3" := "audio/mpeg", ".wav" := "audio/wav", ".flac" := "audio/flac", ".aac" := "audio/aac",
    ".mp4" := "video/mp4", ".avi" := "video/x-msvideo", ".mov" := "video/quicktime",
    ".mkv" := "video/x-matroska", ".webm" := "video/webm", ".jpg" := "image/jpeg",
    ".jpeg" := "image/jpeg", ".png" := "image/png", ".gif" := "image/gif", ".pdf" := "application/pdf"]

  const DefaultContentType: string := "application/octet-stream"

  const DefaultS3Folder: string := "uploads"

  /** The table lookup of `getContentType` once the extension is lower-cased. */
  function ContentTypeOf(ext: string): (r: string)
    ensures r != DefaultContentType <==> ext in ContentTypes
    ensures r != ""
  {
    if ext in ContentTypes then ContentTypes[ext] else DefaultContentType
  }

  /** `getContentType(extension)`. */
  function GetContentType(extension: string): (r: string)
    ensures r != DefaultContentType <==> ToLower(extension) in ContentTypes
    ensures ToLower(extension) in ContentTypes ==> r == ContentTypes[ToLower(extension)]
  {
    ContentTypeOf(ToLower(extension))
  }

  /** The case of the extension does not matter. */
  lemma ContentTypeIgnoresCase(extension: string)
    ensures GetContentType(ToLower(extension)) == GetContentType(extension)
  {
    ToLowerIdempotent(extension);
  }

  /** Every extension with a MIME type in the storage scanner has the same content type here. */
  lemma ContentTypesExtendScanner(ext: string)
    requires ext in StorageScanner.MimeTypes
    ensures ext in ContentTypes && ContentTypes[ext] == StorageScanner.MimeTypes[ext]
  {
  }

  /**
   * A file the storage scanner gives a MIME type is uploaded with that same
   * content type.
   */
  lemma ContentTypeAgreesWithScanner(filename: string)
    requires StorageScanner.GetMimeType(filename) != StorageScanner.DefaultMimeType
    ensures GetContentType(ExtName(filename)) == StorageScanner.GetMimeType(filename)
  {
    var ext := StorageScanner.Extension(filename);
    assert ext in StorageScanner.MimeTypes;
    ContentTypesExtendScanner(ext);
  }

  /** The folder `uploadLocalFile` stores under: its argument, `uploads` when omitted. */
  function FolderOrDefault(s3Folder: Option<string>): string {
    if s3Folder.Some? then s3Folder.value else DefaultS3Folder
  }

  /** The key of `uploadLocalFile`: the folder, '/', and the base name of the local path. */
  function S3Key(localRelativePath: string, s3Folder: Option<string>): (key: string)
    ensures |key| > |FolderOrDefault(s3Folder)|
    ensures key[..|FolderOrDefault(s3Folder)| + 1] == FolderOrDefault(s3Folder) + ['/']
    ensures AfterLast(key, '/') == BaseName(localRelativePath)
  {
    var folder := FolderOrDefault(s3Folder);
    var name := BaseName(localRelativePath);
    AfterLastJoin(folder, '/', name);
    folder + ['/'] + name
  }

  /** What an upload answers: the stored key and content type, or an error message. */
  datatype UploadResult = Uploaded(key: string, contentType: string) | UploadFailed(error: string)

  /**
   * `uploadFile(localFilePath, s3Key, options)`: a missing file or an S3
   * error fails; the content type is the one given, or the one of the key's
   * extension when none (or an empty one) is given.
   */
  function UploadFile(localFilePath: string, s3Key: string, contentType: Option<string>,
                      present: bool, s3Error: Option<string>): (r: UploadResult)
    ensures !present ==> r == UploadFailed("Archivo local no encontrado: " + localFilePath)
    ensures present && s3Error.Some? ==> r == UploadFailed(s3Error.value)
    ensures r.Uploaded? <==> present && s3Error.None?
    ensures r.Uploaded? ==> r.key == s3Key
    ensures r.Uploaded? && contentType.Some? && contentType.value != "" ==> r.contentType == contentType.value
    ensures r.Uploaded? && (contentType.None? || contentType.value == "") ==>
      r.contentType == GetContentType(ExtName(s3Key))
  {
    if !present then UploadFailed("Archivo local no encontrado: " + localFilePath)
    else
      var ct := if contentType.Some? && contentType.value != "" then contentType.value
                else GetContentType(ExtName(s3Key));
      if s3Error.Some? then UploadFailed(s3Error.value) else Uploaded(s3Key, ct)
  }

  /**
   * `uploadLocalFile(localRelativePath, s3Folder)`: the file is stored under
   * `S3Key`, with the content type of its own name's extension.
   */
  function UploadLocalFile(localRelativePath: string, s3Folder: Option<string>,
                           present: bool, s3Error: Option<string>): (r: UploadResult)
    ensures !present ==> r == UploadFailed("Archivo local no encontrado: " + localRelativePath)
    ensures present && s3Error.Some? ==> r == UploadFailed(s3Error.value)
    ensures r.Uploaded? <==> present && s3Error.None?
    ensures r.Uploaded? ==> r.key == S3Key(localRelativePath, s3Folder)
    ensures r.Uploaded? ==> r.contentType == GetContentType(ExtName(BaseName(localRelativePath)))
  {
    if !present then UploadFailed("Archivo local no encontrado: " + localRelativePath)
    else
      var fileName := BaseName(localRelativePath);
      var key := S3Key(localRelativePath, s3Folder);
      var contentType := GetContentType(ExtName(fileName));
      UploadFile("storage/" + localRelativePath, key, Some(contentType), present, s3Error)
  }

  /**
   * An uploaded object keeps the file's name as the last segment of its key,
   * and the content type sent is the one `uploadFile` would derive from the
   * key by itself.
   */
  lemma UploadedKeepsName(localRelativePath: string, s3Folder: Option<string>, s3Error: Option<string>)
    requires BaseName(localRelativePath) != ""
    requires UploadLocalFile(localRelativePath, s3Folder, true, s3Error).Uploaded?
    ensures var r := UploadLocalFile(localRelativePath, s3Folder, true, s3Error);
      && BaseName(r.key) == BaseName(localRelativePath)
      && r.contentType == GetContentType(ExtName(r.key))
  {
    var name := BaseName(localRelativePath);
    var folder := FolderOrDefault(s3Folder);
    BaseNameOfJoin(folder, name);
    BaseNameOfPlain(name);
  }

  /** One element of `details`: the file name and the outcome of its upload. */
  datatype Detail = Detail(file: string, result: UploadResult)

  datatype SyncReport =
    | SyncFailed(error: string)
    | Synced(total: nat, successful: nat, failed: nat, details: seq<Detail>)

  /** The error S3 answers for the upload of `file`, if any. */
  function S3ErrorFor(s3Errors: map<string, string>, file: string): Option<string> {
    if file in s3Errors then Some(s3Errors[file]) else None
  }

  /** The detail pushed for a regular file of the folder. */
  function DetailFor(localFolder: string, s3Folder: Option<string>, s3Errors: map<string, string>,
                     file: string): (d: Detail)
    ensures d.file == file
    ensures d.result.Uploaded? <==> file !in s3Errors
  {
    Detail(file, UploadLocalFile(localFolder + "/" + file, s3Folder, true, S3ErrorFor(s3Errors, file)))
  }

  /** The details of the loop of `syncFolderToS3`: one per regular file, in listing order. */
  function Details(localFolder: string, s3Folder: Option<string>, s3Errors: map<string, string>,
                   entries: seq<DirEntry>): seq<Detail>
  {
    if entries == [] then []
    else
      var last := entries[|entries| - 1];
      Details(localFolder, s3Folder, s3Errors, entries[..|entries| - 1])
        + (if last.stat.IsFile? then [DetailFor(localFolder, s3Folder, s3Errors, last.name)] else [])
  }

  /** The message of the first entry whose `fs.stat` threw, if any. */
  function FirstStatError(entries: seq<DirEntry>): (r: Option<string>)
    ensures r.None? <==> forall k :: 0 <= k < |entries| ==> !entries[k].stat.StatFailed?
  {
    if entries == [] then None
    else
      var before := FirstStatError(entries[..|entries| - 1]);
      if before.Some? then before
      else if entries[|entries| - 1].stat.StatFailed? then Some(entries[|entries| - 1].stat.message)
      else None
  }

  function CountSucceeded(details: seq<Detail>): nat {
    if details == [] then 0
    else CountSucceeded(details[..|details| - 1]) + (if details[|details| - 1].result.Uploaded? then 1 else 0)
  }

  function CountFailed(details: seq<Detail>): nat {
    if details == [] then 0
    else CountFailed(details[..|details| - 1]) + (if details[|details| - 1].result.Uploaded? then 0 else 1)
  }

  /** Every detail is counted exactly once, as successful or as failed. */
  lemma {:induction false} SucceededPlusFailed(details: seq<Detail>)
    ensures CountSucceeded(details) + CountFailed(details) == |details|
  {
    if details != [] {
      SucceededPlusFailed(details[..|details| - 1]);
    }
  }

  /** There is at most one detail per directory entry. */
  lemma {:induction false} DetailsBounded(localFolder: string, s3Folder: Option<string>,
                                          s3Errors: map<string, string>, entries: seq<DirEntry>)
    ensures |Details(localFolder, s3Folder, s3Errors, entries)| <= |entries|
  {
    if entries != [] {
      DetailsBounded(localFolder, s3Folder, s3Errors, entries[..|entries| - 1]);
    }
  }

  lemma CountSnoc(details: seq<Detail>, d: Detail)
    ensures CountSucceeded(details + [d]) == CountSucceeded(details) + (if d.result.Uploaded? then 1 else 0)
    ensures CountFailed(details + [d]) == CountFailed(details) + (if d.result.Uploaded? then 0 else 1)
  {
    assert (details + [d])[..|details|] == details;
  }

  /** When S3 rejects nothing, every regular file counts as successful. */
  lemma {:induction false} AllSucceedWithoutS3Errors(localFolder: string, s3Folder: Option<string>,
                                                     entries: seq<DirEntry>)
    ensures var details := Details(localFolder, s3Folder, map[], entries);
      CountSucceeded(details) == |details| && CountFailed(details) == 0
  {
    if entries != [] {
      var init := entries[..|entries| - 1];
      var last := entries[|entries| - 1];
      AllSucceedWithoutS3Errors(localFolder, s3Folder, init);
      var before := Details(localFolder, s3Folder, map[], init);
      if last.stat.IsFile? {
        var d := DetailFor(localFolder, s3Folder, map[], last.name);
        assert Details(localFolder, s3Folder, map[], entries) == before + [d];
        CountSnoc(before, d);
      } else {
        assert Details(localFolder, s3Folder, map[], entries) == before;
      }
    }
  }

  /** The file `name` of the folder is uploaded to `<s3Folder>/<name>`. */
  lemma DetailForKey(localFolder: string, s3Folder: Option<string>, s3Errors: map<string, string>, name: string)
    requires ProperName(name)
    ensures var d := DetailFor(localFolder, s3Folder, s3Errors, name);
      d.result.Uploaded? ==> d.result.key == FolderOrDefault(s3Folder) + "/" + name
  {
    BaseNameOfJoin(localFolder, name);
  }

  /** Every uploaded detail sits at `<folder>/<file>`. */
  predicate KeysUnder(details: seq<Detail>, folder: string) {
    forall k :: 0 <= k < |details| && details[k].result.Uploaded? ==>
      details[k].result.key == folder + "/" + details[k].file
  }

  lemma KeysUnderSnoc(details: seq<Detail>, d: Detail, folder: string)
    requires KeysUnder(details, folder)
    requires d.result.Uploaded? ==> d.result.key == folder + "/" + d.file
    ensures KeysUnder(details + [d], folder)
  {
    var all := details + [d];
    forall k | 0 <= k < |all| && all[k].result.Uploaded?
      ensures all[k].result.key == folder + "/" + all[k].file
    {
      if k < |details| {
        assert all[k] == details[k];
      }
    }
  }

  /** Each uploaded file of a synchronised folder lands at `<s3Folder>/<file name>`. */
  lemma {:induction false} DetailKeys(localFolder: string, s3Folder: Option<string>,
                                      s3Errors: map<string, string>, entries: seq<DirEntry>)
    requires forall k :: 0 <= k < |entries| ==> ProperName(entries[k].name)
    ensures KeysUnder(Details(localFolder, s3Folder, s3Errors, entries), FolderOrDefault(s3Folder))
  {
    if entries != [] {
      var init := entries[..|entries| - 1];
      var last := entries[|entries| - 1];
      DetailKeys(localFolder, s3Folder, s3Errors, init);
      var before := Details(localFolder, s3Folder, s3Errors, init);
      if last.stat.IsFile? {
        var d := DetailFor(localFolder, s3Folder, s3Errors, last.name);
        DetailForKey(localFolder, s3Folder, s3Errors, last.name);
        KeysUnderSnoc(before, d, FolderOrDefault(s3Folder));
        assert Details(localFolder, s3Folder, s3Errors, entries) == before + [d];
      } else {
        assert Details(localFolder, s3Folder, s3Errors, entries) == before;
      }
    }
  }

  /**
   * `syncFolderToS3(localFolder, s3Folder)`: a missing folder, a folder
   * `fs.readdir` cannot read, or an entry `fs.stat` cannot read fails the
   * whole synchronisation; otherwise every regular file is uploaded in
   * listing order and the summary counts the outcomes.
   */
  method SyncFolderToS3(localFolder: string, s3Folder: Option<string>, listing: Listing,
                        s3Errors: map<string, string>)
    returns (r: SyncReport)
    ensures listing.Missing? ==> r == SyncFailed("Carpeta local no encontrada: " + localFolder)
    ensures listing.Unreadable? ==> r == SyncFailed(listing.message)
    ensures listing.Listed? && FirstStatError(listing.entries).Some? ==>
      r == SyncFailed(FirstStatError(listing.entries).value)
    ensures r.Synced? <==> listing.Listed? && FirstStatError(listing.entries).None?
    ensures r.Synced? ==>
      && r.total == |listing.entries|
      && r.details == Details(localFolder, s3Folder, s3Errors, listing.entries)
    ensures r.Synced? ==> r.successful == CountSucceeded(r.details) && r.failed == CountFailed(r.details)
    ensures r.Synced? ==> r.successful + r.failed == |r.details| <= r.total
  {
    if listing.Missing? {
      return SyncFailed("Carpeta local no encontrada: " + localFolder);
    }
    if listing.Unreadable? {
      return SyncFailed(listing.message);
    }
    var entries := listing.entries;
    var results: seq<Detail> := [];
    for i := 0 to |entries|
      invariant results == Details(localFolder, s3Folder, s3Errors, entries[..i])
      invariant FirstStatError(entries[..i]).None?
    {
      DetailsStep(localFolder, s3Folder, s3Errors, entries, i);
      var entry := entries[i];
      match entry.stat {
        case StatFailed(message) =>
          FirstStatErrorPrefix(entries, i + 1);
          return SyncFailed(message);
        case IsDirectory =>
        case IsFile(_) =>
          results := results + [DetailFor(localFolder, s3Folder, s3Errors, entry.name)];
      }
    }
    assert entries[..|entries|] == entries;
    var successful := CountSucceeded(results);
    var failed := CountFailed(results);
    SucceededPlusFailed(results);
    DetailsBounded(localFolder, s3Folder, s3Errors, entries);
    r := Synced(|entries|, successful, failed, results);
  }

  /** One more entry of the listing: at most one more detail, and perhaps a stat error. */
  lemma DetailsStep(localFolder: string, s3Folder: Option<string>, s3Errors: map<string, string>,
                    entries: seq<DirEntry>, i: nat)
    requires i < |entries|
    ensures Details(localFolder, s3Folder, s3Errors, entries[..i + 1])
      == Details(localFolder, s3Folder, s3Errors, entries[..i])
         + (if entries[i].stat.IsFile? then [DetailFor(localFolder, s3Folder, s3Errors, entries[i].name)] else [])
    ensures FirstStatError(entries[..i]).None? ==>
      FirstStatError(entries[..i + 1]) == (if entries[i].stat.StatFailed? then Some(entries[i].stat.message) else None)
  {
    assert entries[..i + 1][..i] == entries[..i];
  }

  /** Once a prefix has a stat error, the whole listing reports that one. */
  lemma {:induction false} FirstStatErrorPrefix(entries: seq<DirEntry>, n: nat)
    requires n <= |entries|
    ensures FirstStatError(entries[..n]).Some? ==> FirstStatError(entries) == FirstStatError(entries[..n])
    decreases |entries| - n
  {
    if n < |entries| {
      FirstStatErrorPrefix(entries, n + 1);
      assert entries[..n + 1][..n] == entries[..n];
    } else {
      assert entries[..n] == entries;
    }
  }
}
