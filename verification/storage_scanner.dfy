/**
 * `StorageScanner` (server/services/storageScanner.js): walks the local
 * storage folders and brings the `mediaFiles` collection in line with what
 * it finds, classifying each file by folder and extension.
 *
 * The collection is a sequence of records in query order; the file system
 * is a map from folder name to that folder's `Listing` (a folder it does
 * not mention is missing).
 */
module StorageScanner {
  import opened Strings
  import opened Paths
  import opened FileKinds
  import opened FileSystem
  import opened Wrappers

  const Folders: seq<string> := ["audio", "video", "converted", "images", "uploads"]

  const ConvertedAudio: set<string> := {".mp3", ".wav", ".flac", ".aac"}
  const ConvertedVideo: set<string> := {".mp4", ".avi", ".mov", ".mkv"}
  const AudioExtensions: set<string> := {".mp3", ".wav", ".flac", ".aac", ".ogg", ".m4a"}
  const VideoExtensions: set<string> := {".mp4", ".avi", ".mov", ".mkv", ".webm", ".flv"}
  const ImageExtensions: set<string> := {".jpg", ".jpeg", ".png", ".gif", ".bmp", ".webp"}

  const MimeTypes: map<string, string> := map[
    ".mp3" := "audio/mpeg", ".wav" := "audio/wav", ".flac" := "audio/flac", ".aac" := "audio/aac",
    ".mp4" := "video/mp4", ".avi" := "video/x-msvideo", ".mov" := "video/quicktime",
    ".mkv" := "video/x-matroska", ".jpg" := "image/jpeg", ".jpeg" := "image/jpeg",
    ".png" := "image/png", ".gif" := "image/gif"]

  const DefaultMimeType: string := "application/octet-stream"

  /** `path.extname(filename).toLowerCase()`. */
  function Extension(filename: string): string {
    ToLower(ExtName(filename))
  }

  /**
   * The decision of `getFileType` once the extension is known: the folder
   * decides for audio, video and images; in converted only eight extensions
   * count; anywhere else the three longer extension lists decide.
   */
  function FileTypeOf(folder: string, ext: string): (r: FileType)
    ensures folder == "audio" ==> r == Audio
    ensures folder == "video" ==> r == Video
    ensures folder == "images" ==> r == Image
    ensures folder == "converted" ==>
      && (r == Audio <==> ext in ConvertedAudio)
      && (r == Video <==> ext in ConvertedVideo)
      && r != Image
    ensures folder !in {"audio", "video", "images", "converted"} ==>
      && (r == Audio <==> ext in AudioExtensions)
      && (r == Video <==> ext in VideoExtensions)
      && (r == Image <==> ext in ImageExtensions)
  {
    if folder == "audio" then Audio
    else if folder == "video" then Video
    else if folder == "images" then Image
    else if folder == "converted" then
      if ext in ConvertedAudio then Audio
      else if ext in ConvertedVideo then Video
      else Other
    else
      if ext in AudioExtensions then Audio
      else if ext in VideoExtensions then Video
      else if ext in ImageExtensions then Image
      else Other
  }

  /** `getFileType(folder, filename)`. */
  function GetFileType(folder: string, filename: string): (r: FileType)
    ensures folder == "audio" ==> r == Audio
    ensures folder == "video" ==> r == Video
    ensures folder == "images" ==> r == Image
  {
    FileTypeOf(folder, Extension(filename))
  }

  /** `mimeTypes[ext] || 'application/octet-stream'`. */
  function MimeTypeOf(ext: string): (r: string)
    ensures r != DefaultMimeType <==> ext in MimeTypes
  {
    if ext in MimeTypes then MimeTypes[ext] else DefaultMimeType
  }

  /** `getMimeType(filename)`. */
  function GetMimeType(filename: string): (r: string)
    ensures r != DefaultMimeType <==> Extension(filename) in MimeTypes
    ensures Extension(filename) in MimeTypes ==> r == MimeTypes[Extension(filename)]
  {
    MimeTypeOf(Extension(filename))
  }

  /** The extension of a name and of its lower-cased form agree. */
  lemma ExtensionIgnoresCase(filename: string)
    ensures Extension(ToLower(filename)) == Extension(filename)
  {
    ExtNameToLower(filename);
    ToLowerIdempotent(ExtName(filename));
  }

  /** Classification ignores the case of the file name. */
  lemma ClassificationIgnoresCase(folder: string, filename: string)
    ensures GetFileType(folder, ToLower(filename)) == GetFileType(folder, filename)
    ensures GetMimeType(ToLower(filename)) == GetMimeType(filename)
  {
    ExtensionIgnoresCase(filename);
  }

  lemma OggClassified()
    ensures FileTypeOf("converted", ".ogg") == Other && FileTypeOf("uploads", ".ogg") == Audio
  {
  }

  /** An .ogg file is audio in uploads but not in converted. */
  lemma OggDependsOnFolder(filename: string)
    requires Extension(filename) == ".ogg"
    ensures GetFileType("converted", filename) == Other
    ensures GetFileType("uploads", filename) == Audio
  {
    OggClassified();
  }

  predicate HasPrefix(s: string, prefix: string) {
    |prefix| <= |s| && s[..|prefix|] == prefix
  }

  /**
   * Outside the type folders, every extension with a MIME type gets the
   * file type its MIME type names.
   */
  lemma MimeTypeAgreesWithFileType(folder: string, ext: string)
    requires folder !in {"audio", "video", "images", "converted"}
    requires ext in MimeTypes
    ensures HasPrefix(MimeTypeOf(ext), Name(FileTypeOf(folder, ext)) + "/")
  {
  }

  datatype ScanStatus = Added | Updated | Unchanged

  /** A `mediaFiles` record, as far as the scanner reads or writes it. */
  datatype StoredFile = StoredFile(id: nat, originalName: string, fileType: FileType, mimeType: string,
                                   size: int, path: string, uploadDate: int, lastModified: int,
                                   scannedAt: int, ownerId: string)

  datatype FileInfo = FileInfo(id: nat, originalName: string, fileType: FileType, mimeType: string,
                               size: int, path: string, uploadDate: int, lastModified: int,
                               scannedAt: int, status: ScanStatus)

  datatype Processed = Processed(info: FileInfo, db: seq<StoredFile>)

  predicate HasPath(db: seq<StoredFile>, path: string) {
    exists j :: 0 <= j < |db| && db[j].path == path
  }

  /** The first record of the query `storageInfo.path == path` (`docs[0]`). */
  function FirstWithPath(db: seq<StoredFile>, path: string): (i: int)
    ensures -1 <= i < |db|
    ensures i >= 0 ==> db[i].path == path && forall j :: 0 <= j < i ==> db[j].path != path
    ensures i == -1 <==> !HasPath(db, path)
  {
    if db == [] then -1
    else if db[0].path == path then 0
    else
      var k := FirstWithPath(db[1..], path);
      assert forall j :: 1 <= j < |db| ==> db[j] == db[1..][j - 1];
      if k == -1 then -1 else k + 1
  }

  /** `fileData`: what `processFile` knows about the file before the query. */
  datatype FileData = FileData(originalName: string, fileType: FileType, mimeType: string, size: int,
                               path: string, uploadDate: int, lastModified: int, scannedAt: int)

  function FileDataOf(folder: string, filename: string, stat: FileStat, now: int): (d: FileData)
    ensures d.path == folder + "/" + filename && d.originalName == filename
    ensures d.size == stat.size && d.lastModified == stat.mtime && d.scannedAt == now
  {
    FileData(filename, GetFileType(folder, filename), GetMimeType(filename), stat.size,
             folder + "/" + filename, stat.birthtime, stat.mtime, now)
  }

  /** The record added for a new file; its id is the next free position. */
  function NewRecord(db: seq<StoredFile>, d: FileData): StoredFile {
    StoredFile(|db|, d.originalName, d.fileType, d.mimeType, d.size, d.path, d.uploadDate,
               d.lastModified, d.scannedAt, "system")
  }

  function InfoOf(id: nat, d: FileData, status: ScanStatus): FileInfo {
    FileInfo(id, d.originalName, d.fileType, d.mimeType, d.size, d.path, d.uploadDate,
             d.lastModified, d.scannedAt, status)
  }

  /**
   * The decision of `processFile`: add a record for a new path; refresh
   * size, lastModified and scannedAt of the first record with the path when
   * size or modification time differ; otherwise leave the collection alone.
   */
  function SyncRecord(db: seq<StoredFile>, d: FileData): (r: Processed)
    ensures r.info.path == d.path && r.info.size == d.size && r.info.lastModified == d.lastModified
    ensures r.info.status == Added <==> !HasPath(db, d.path)
    ensures r.info.status == Added ==> r.db == db + [NewRecord(db, d)]
    ensures var i := FirstWithPath(db, d.path);
      && (r.info.status == Updated <==> i >= 0 && (db[i].size != d.size || db[i].lastModified != d.lastModified))
      && (r.info.status == Updated ==>
            r.db == db[i := db[i].(size := d.size, lastModified := d.lastModified, scannedAt := d.scannedAt)])
      && (r.info.status != Added ==> r.info.id == db[i].id)
    ensures r.info.status == Unchanged ==> r.db == db
  {
    var i := FirstWithPath(db, d.path);
    if i == -1 then
      Processed(InfoOf(|db|, d, Added), db + [NewRecord(db, d)])
    else
      var existing := db[i];
      if existing.size != d.size || existing.lastModified != d.lastModified then
        Processed(InfoOf(existing.id, d, Updated),
                  db[i := existing.(size := d.size, lastModified := d.lastModified, scannedAt := d.scannedAt)])
      else
        Processed(InfoOf(existing.id, d, Unchanged), db)
  }

  /** `processFile(folder, filename, filePath, stats)`. */
  function ProcessFile(db: seq<StoredFile>, folder: string, filename: string, stat: FileStat, now: int): (r: Processed)
    ensures r.info.path == folder + "/" + filename && r.info.size == stat.size
    ensures r.info.status == Added <==> !HasPath(db, folder + "/" + filename)
    ensures HasPath(r.db, folder + "/" + filename)
    ensures forall p :: HasPath(db, p) ==> HasPath(r.db, p)
  {
    SyncKeepsPaths(db, FileDataOf(folder, filename, stat, now));
    SyncRecord(db, FileDataOf(folder, filename, stat, now))
  }

  /** Syncing never loses a path and always leaves the file's path recorded. */
  lemma SyncKeepsPaths(db: seq<StoredFile>, d: FileData)
    ensures var r := SyncRecord(db, d);
      && HasPath(r.db, d.path)
      && (forall p :: HasPath(db, p) ==> HasPath(r.db, p))
      && |r.db| == |db| + (if r.info.status == Added then 1 else 0)
  {
    var r := SyncRecord(db, d);
    if r.info.status == Added {
      assert r.db[|db|].path == d.path;
      forall p | HasPath(db, p) ensures HasPath(r.db, p) {
        var j :| 0 <= j < |db| && db[j].path == p;
        assert r.db[j] == db[j];
      }
    } else {
      var i := FirstWithPath(db, d.path);
      assert r.db[i].path == d.path;
      forall p | HasPath(db, p) ensures HasPath(r.db, p) {
        var j :| 0 <= j < |db| && db[j].path == p;
        assert r.db[j].path == p;
      }
    }
  }

  /** Syncing the same file data twice: the second time reports it unchanged and writes nothing. */
  lemma SyncIdempotent(db: seq<StoredFile>, d: FileData, later: int)
    ensures var once := SyncRecord(db, d);
      var twice := SyncRecord(once.db, d.(scannedAt := later));
      twice.info.status == Unchanged && twice.db == once.db
  {
    var once := SyncRecord(db, d);
    var i := FirstWithPath(db, d.path);
    if i == -1 {
      assert once.db[|db|].path == d.path;
      assert forall j :: 0 <= j < |db| ==> once.db[j] == db[j];
      assert FirstWithPath(once.db, d.path) == |db|;
    } else {
      assert forall j :: 0 <= j < i ==> once.db[j].path == db[j].path;
      assert once.db[i].path == d.path;
      assert HasPath(once.db, d.path);
      assert FirstWithPath(once.db, d.path) == i;
    }
  }

  /** A second scan of an unchanged file reports it unchanged and writes nothing. */
  lemma ProcessFileIdempotent(db: seq<StoredFile>, folder: string, filename: string, stat: FileStat,
                              now: int, later: int)
    ensures var once := ProcessFile(db, folder, filename, stat, now);
      var twice := ProcessFile(once.db, folder, filename, stat, later);
      twice.info.status == Unchanged && twice.db == once.db
  {
    var d := FileDataOf(folder, filename, stat, now);
    SyncIdempotent(db, d, later);
    assert FileDataOf(folder, filename, stat, later) == d.(scannedAt := later);
  }

  datatype ScanResults = ScanResults(scanned: nat, added: nat, updated: nat, errors: nat, files: seq<FileInfo>)

  /** The listing of `folder`; a folder the map does not mention is missing. */
  function ListingOf(listing: map<string, Listing>, folder: string): Listing {
    if folder in listing then listing[folder] else Missing
  }

  /** The entries of a folder paired with it; a missing or unreadable folder contributes none. */
  function FolderEntries(listing: map<string, Listing>, folder: string): (r: seq<(string, DirEntry)>)
    ensures !ListingOf(listing, folder).Listed? ==> r == []
    ensures ListingOf(listing, folder).Listed? ==>
      var entries := ListingOf(listing, folder).entries;
      |r| == |entries| && forall k :: 0 <= k < |r| ==> r[k] == (folder, entries[k])
  {
    match ListingOf(listing, folder)
    case Listed(entries) => seq(|entries|, k requires 0 <= k < |entries| => (folder, entries[k]))
    case _ => []
  }

  /** The position of the first folder `fs.readdir` cannot read, or the number of folders. */
  function FirstUnreadable(listing: map<string, Listing>, folders: seq<string>): (k: nat)
    ensures k <= |folders|
    ensures forall j :: 0 <= j < k ==> !ListingOf(listing, folders[j]).Unreadable?
    ensures k < |folders| ==> ListingOf(listing, folders[k]).Unreadable?
  {
    if folders == [] then 0
    else if ListingOf(listing, folders[0]).Unreadable? then 0
    else FirstUnreadable(listing, folders[1..]) + 1
  }

  lemma AppendPrefixStep<T>(before: seq<T>, items: seq<T>, i: int)
    requires 0 <= i < |items|
    ensures before + items[..i + 1] == (before + items[..i]) + [items[i]]
  {
    assert items[..i + 1] == items[..i] + [items[i]];
  }

  /** The entries of the given folders, in visiting order. */
  function Entries(listing: map<string, Listing>, folders: seq<string>): seq<(string, DirEntry)> {
    if folders == [] then []
    else Entries(listing, folders[..|folders| - 1]) + FolderEntries(listing, folders[|folders| - 1])
  }

  /** The regular files among the entries, as (folder, name). */
  function RegularFiles(entries: seq<(string, DirEntry)>): seq<(string, string)> {
    if entries == [] then []
    else
      var last := entries[|entries| - 1];
      RegularFiles(entries[..|entries| - 1]) + (if last.1.stat.IsFile? then [(last.0, last.1.name)] else [])
  }

  /** The number of entries whose `fs.stat` threw. */
  function StatFailures(entries: seq<(string, DirEntry)>): nat {
    if entries == [] then 0
    else StatFailures(entries[..|entries| - 1]) + (if entries[|entries| - 1].1.stat.StatFailed? then 1 else 0)
  }

  function CountStatus(files: seq<FileInfo>, s: ScanStatus): nat {
    if files == [] then 0
    else CountStatus(files[..|files| - 1], s) + (if files[|files| - 1].status == s then 1 else 0)
  }

  lemma {:induction false} AddedUpdatedBounded(files: seq<FileInfo>)
    ensures CountStatus(files, Added) + CountStatus(files, Updated) <= |files|
  {
    if files != [] {
      AddedUpdatedBounded(files[..|files| - 1]);
    }
  }

  /**
   * What `results` and the collection say once the entries `done` have been
   * visited, starting from the collection `db0`.
   */
  ghost predicate Reports(results: ScanResults, db: seq<StoredFile>, db0: seq<StoredFile>,
                          done: seq<(string, DirEntry)>)
  {
    var files := RegularFiles(done);
    && results.scanned == |files| == |results.files|
    && (forall i :: 0 <= i < |files| ==> results.files[i].path == files[i].0 + "/" + files[i].1)
    && results.added == CountStatus(results.files, Added)
    && results.updated == CountStatus(results.files, Updated)
    && results.errors == StatFailures(done)
    && (forall i :: 0 <= i < |results.files| ==> HasPath(db, results.files[i].path))
    && (forall p :: HasPath(db0, p) ==> HasPath(db, p))
  }

  lemma EntriesSnoc(done: seq<(string, DirEntry)>, x: (string, DirEntry))
    ensures RegularFiles(done + [x]) == RegularFiles(done) + (if x.1.stat.IsFile? then [(x.0, x.1.name)] else [])
    ensures StatFailures(done + [x]) == StatFailures(done) + (if x.1.stat.StatFailed? then 1 else 0)
  {
    assert (done + [x])[..|done|] == done;
  }

  lemma CountStatusSnoc(files: seq<FileInfo>, f: FileInfo, s: ScanStatus)
    ensures CountStatus(files + [f], s) == CountStatus(files, s) + (if f.status == s then 1 else 0)
  {
    assert (files + [f])[..|files|] == files;
  }

  /** One pass of the inner loop of `scanAndSync`. */
  method ScanEntry(results0: ScanResults, db1: seq<StoredFile>, folder: string, entry: DirEntry, now: int,
                   ghost db0: seq<StoredFile>, ghost done: seq<(string, DirEntry)>)
    returns (results: ScanResults, db: seq<StoredFile>)
    requires Reports(results0, db1, db0, done)
    ensures Reports(results, db, db0, done + [(folder, entry)])
  {
    EntriesSnoc(done, (folder, entry));
    results, db := results0, db1;
    match entry.stat {
      case StatFailed(_) =>
        results := results.(errors := results.errors + 1);
      case IsDirectory =>
      case IsFile(stat) =>
        results, db := ScanFile(results0, db1, folder, entry, now, db0, done);
    }
  }

  /** The regular-file branch: process the file and count the outcome. */
  method ScanFile(results0: ScanResults, db1: seq<StoredFile>, folder: string, entry: DirEntry, now: int,
                  ghost db0: seq<StoredFile>, ghost done: seq<(string, DirEntry)>)
    returns (results: ScanResults, db: seq<StoredFile>)
    requires entry.stat.IsFile?
    requires Reports(results0, db1, db0, done)
    ensures Reports(results, db, db0, done + [(folder, entry)])
  {
    var data := FileDataOf(folder, entry.name, entry.stat.stat, now);
    var processed := SyncRecord(db1, data);
    SyncKeepsPaths(db1, data);
    db := processed.db;
    results := Counted(results0, processed.info);
    ReportsAfterFile(results0, db1, db0, done, folder, entry, processed.info, db);
  }

  /** Counting one processed file, as the IsFile branch of the inner loop does. */
  function Counted(results: ScanResults, info: FileInfo): ScanResults {
    results.(scanned := results.scanned + 1, files := results.files + [info],
             added := results.added + (if info.status == Added then 1 else 0),
             updated := results.updated + (if info.status == Updated then 1 else 0))
  }

  lemma ReportsAfterFile(results0: ScanResults, db1: seq<StoredFile>, db0: seq<StoredFile>,
                         done: seq<(string, DirEntry)>, folder: string, entry: DirEntry,
                         info: FileInfo, db2: seq<StoredFile>)
    requires Reports(results0, db1, db0, done)
    requires entry.stat.IsFile? && info.path == folder + "/" + entry.name
    requires HasPath(db2, info.path) && forall p :: HasPath(db1, p) ==> HasPath(db2, p)
    ensures Reports(Counted(results0, info), db2, db0, done + [(folder, entry)])
  {
    var results := Counted(results0, info);
    var files0 := RegularFiles(done);
    var files := RegularFiles(done + [(folder, entry)]);
    EntriesSnoc(done, (folder, entry));
    assert files == files0 + [(folder, entry.name)];
    CountStatusSnoc(results0.files, info, Added);
    CountStatusSnoc(results0.files, info, Updated);
    assert results.scanned == |files| == |results.files|;
    assert results.errors == StatFailures(done + [(folder, entry)]);
    forall i | 0 <= i < |files|
      ensures results.files[i].path == files[i].0 + "/" + files[i].1
    {
      if i < |files0| {
        assert files[i] == files0[i] && results.files[i] == results0.files[i];
      }
    }
    forall i | 0 <= i < |results.files|
      ensures HasPath(db2, results.files[i].path)
    {
      if i < |results0.files| {
        assert results.files[i] == results0.files[i];
        assert HasPath(db1, results0.files[i].path);
      }
    }
  }

  /**
   * `scanAndSync()`: every regular file of every folder is processed in
   * order and the counters report what happened. A folder `fs.readdir`
   * cannot read aborts the scan with its error; the records written for
   * the folders before it stay.
   */
  method ScanAndSync(db0: seq<StoredFile>, listing: map<string, Listing>, now: int)
    returns (r: Result<ScanResults>, db: seq<StoredFile>)
    ensures var k := FirstUnreadable(listing, Folders);
      && (r.Error? <==> k < |Folders|)
      && (k < |Folders| ==> r == Error(ListingOf(listing, Folders[k]).message))
    ensures var files := RegularFiles(Entries(listing, Folders[..FirstUnreadable(listing, Folders)]));
      forall i :: 0 <= i < |files| ==> HasPath(db, files[i].0 + "/" + files[i].1)
    ensures r.Ok? ==>
      var files := RegularFiles(Entries(listing, Folders));
      && r.value.scanned == |files| == |r.value.files|
      && forall i :: 0 <= i < |files| ==> r.value.files[i].path == files[i].0 + "/" + files[i].1
    ensures r.Ok? ==> r.value.added == CountStatus(r.value.files, Added)
    ensures r.Ok? ==> r.value.updated == CountStatus(r.value.files, Updated)
    ensures r.Ok? ==> r.value.added + r.value.updated <= r.value.scanned
    ensures r.Ok? ==> r.value.errors == StatFailures(Entries(listing, Folders))
    ensures r.Ok? ==> forall i :: 0 <= i < |r.value.files| ==> HasPath(db, r.value.files[i].path)
    ensures forall p :: HasPath(db0, p) ==> HasPath(db, p)
  {
    r, db := ScanFolders(db0, listing, Folders, now);
  }

  /**
   * What `scanAndSync` promises, over the folders `folders`: the first
   * unreadable folder's error, if any, is the result; every regular file of
   * the folders visited is recorded; and a complete scan reports every
   * regular file in order with its counters.
   */
  ghost predicate ScanOutcomeOf(r: Result<ScanResults>, db: seq<StoredFile>, db0: seq<StoredFile>,
                                listing: map<string, Listing>, folders: seq<string>)
  {
    && (var k := FirstUnreadable(listing, folders);
        && (r.Error? <==> k < |folders|)
        && (k < |folders| ==> r == Error(ListingOf(listing, folders[k]).message)))
    && (var files := RegularFiles(Entries(listing, folders[..FirstUnreadable(listing, folders)]));
        forall i :: 0 <= i < |files| ==> HasPath(db, files[i].0 + "/" + files[i].1))
    && (r.Ok? ==>
        var files := RegularFiles(Entries(listing, folders));
        && r.value.scanned == |files| == |r.value.files|
        && forall i :: 0 <= i < |files| ==> r.value.files[i].path == files[i].0 + "/" + files[i].1)
    && (r.Ok? ==> r.value.added == CountStatus(r.value.files, Added))
    && (r.Ok? ==> r.value.updated == CountStatus(r.value.files, Updated))
    && (r.Ok? ==> r.value.added + r.value.updated <= r.value.scanned)
    && (r.Ok? ==> r.value.errors == StatFailures(Entries(listing, folders)))
    && (r.Ok? ==> forall i :: 0 <= i < |r.value.files| ==> HasPath(db, r.value.files[i].path))
    && (forall p :: HasPath(db0, p) ==> HasPath(db, p))
  }

  /** The outer loop of `scanAndSync` over the given folders. */
  method ScanFolders(db0: seq<StoredFile>, listing: map<string, Listing>, folders: seq<string>, now: int)
    returns (r: Result<ScanResults>, db: seq<StoredFile>)
    ensures ScanOutcomeOf(r, db, db0, listing, folders)
  {
    var results := ScanResults(0, 0, 0, 0, []);
    db := db0;
    var fi := 0;
    while fi < |folders| && !ListingOf(listing, folders[fi]).Unreadable?
      invariant fi <= |folders|
      invariant Reports(results, db, db0, Entries(listing, folders[..fi]))
      invariant forall j :: 0 <= j < fi ==> !ListingOf(listing, folders[j]).Unreadable?
    {
      EntriesStep(listing, folders, fi);
      results, db := ScanFolder(results, db, listing, folders[fi], now, db0, Entries(listing, folders[..fi]));
      fi := fi + 1;
    }
    r := if fi < |folders| then Error(ListingOf(listing, folders[fi]).message) else Ok(results);
    ScanOutcome(results, db, db0, listing, folders, fi, r);
  }

  /** Where the outer loop of `scanAndSync` stops, the method's outcome is as promised. */
  lemma ScanOutcome(results: ScanResults, db: seq<StoredFile>, db0: seq<StoredFile>, listing: map<string, Listing>,
                    folders: seq<string>, fi: nat, r: Result<ScanResults>)
    requires fi <= |folders|
    requires Reports(results, db, db0, Entries(listing, folders[..fi]))
    requires forall j :: 0 <= j < fi ==> !ListingOf(listing, folders[j]).Unreadable?
    requires fi < |folders| ==> ListingOf(listing, folders[fi]).Unreadable?
    requires r == if fi < |folders| then Error(ListingOf(listing, folders[fi]).message) else Ok(results)
    ensures ScanOutcomeOf(r, db, db0, listing, folders)
  {
    FirstUnreadableAt(listing, folders, fi);
    ReportedFilesRecorded(results, db, db0, Entries(listing, folders[..fi]));
    if fi == |folders| {
      assert folders[..fi] == folders;
      ReportsSay(results, db, db0, Entries(listing, folders));
    }
  }

  lemma EntriesStep(listing: map<string, Listing>, folders: seq<string>, fi: nat)
    requires fi < |folders|
    ensures Entries(listing, folders[..fi + 1]) == Entries(listing, folders[..fi]) + FolderEntries(listing, folders[fi])
  {
    assert folders[..fi + 1][..fi] == folders[..fi];
  }

  /** A position before which every folder is readable, and which is unreadable or the end, is the first unreadable one. */
  lemma FirstUnreadableAt(listing: map<string, Listing>, folders: seq<string>, fi: nat)
    requires fi <= |folders|
    requires forall j :: 0 <= j < fi ==> !ListingOf(listing, folders[j]).Unreadable?
    requires fi < |folders| ==> ListingOf(listing, folders[fi]).Unreadable?
    ensures FirstUnreadable(listing, folders) == fi
  {
  }

  /** The inner loop of `scanAndSync` for one folder: nothing for a missing one, every entry of a listed one, in order. */
  method ScanFolder(results0: ScanResults, db1: seq<StoredFile>, listing: map<string, Listing>, folder: string,
                    now: int, ghost db0: seq<StoredFile>, ghost before: seq<(string, DirEntry)>)
    returns (results: ScanResults, db: seq<StoredFile>)
    requires !ListingOf(listing, folder).Unreadable?
    requires Reports(results0, db1, db0, before)
    ensures Reports(results, db, db0, before + FolderEntries(listing, folder))
  {
    ghost var inFolder := FolderEntries(listing, folder);
    results, db := results0, db1;
    if ListingOf(listing, folder).Missing? {
      assert before + inFolder == before;
      return;
    }
    var entries := ListingOf(listing, folder).entries;
    assert before + inFolder[..0] == before;
    for ei := 0 to |entries|
      invariant Reports(results, db, db0, before + inFolder[..ei])
    {
      ghost var done := before + inFolder[..ei];
      AppendPrefixStep(before, inFolder, ei);
      assert inFolder[ei] == (folder, entries[ei]);
      results, db := ScanEntry(results, db, folder, entries[ei], now, db0, done);
    }
    assert inFolder[..|entries|] == inFolder;
  }

  /** What the report invariant says, once all entries are visited. */
  lemma ReportsSay(results: ScanResults, db: seq<StoredFile>, db0: seq<StoredFile>,
                   done: seq<(string, DirEntry)>)
    requires Reports(results, db, db0, done)
    ensures var files := RegularFiles(done);
      && results.scanned == |files| == |results.files|
      && forall i :: 0 <= i < |files| ==> results.files[i].path == files[i].0 + "/" + files[i].1
    ensures results.added == CountStatus(results.files, Added)
    ensures results.updated == CountStatus(results.files, Updated)
    ensures results.added + results.updated <= results.scanned
    ensures results.errors == StatFailures(done)
    ensures forall i :: 0 <= i < |results.files| ==> HasPath(db, results.files[i].path)
    ensures forall p :: HasPath(db0, p) ==> HasPath(db, p)
  {
    AddedUpdatedBounded(results.files);
  }

  /** Every regular file among the visited entries is recorded in the collection. */
  lemma ReportedFilesRecorded(results: ScanResults, db: seq<StoredFile>, db0: seq<StoredFile>,
                              done: seq<(string, DirEntry)>)
    requires Reports(results, db, db0, done)
    ensures var files := RegularFiles(done);
      forall i :: 0 <= i < |files| ==> HasPath(db, files[i].0 + "/" + files[i].1)
  {
    var files := RegularFiles(done);
    forall i | 0 <= i < |files|
      ensures HasPath(db, files[i].0 + "/" + files[i].1)
    {
      assert results.files[i].path == files[i].0 + "/" + files[i].1;
    }
  }
}
