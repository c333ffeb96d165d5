/**
 * `LocalFileScanner` (server/services/localFileScanner.js): registers the
 * files of the local `audio` and `video` folders for a user, skipping the
 * ones already registered under the same name for that user.
 *
 * The `mediaFiles` collection is a sequence of records in insertion order;
 * a record's id is its position. A folder's `Listing` says whether it
 * exists, whether `fs.readdir` could read it, and what it lists.
 */
module LocalFileScanner {
  import opened Wrappers
  import opened Strings
  import opened FileSystem

  const AudioMimeTypes: map<string, string> := map[
    "mp3" := "audio/mpeg", "wav" := "audio/wav", "flac" := "audio/flac", "ogg" := "audio/ogg",
    "m4a" := "audio/mp4", "aac" := "audio/aac"]

  const VideoMimeTypes: map<string, string> := map[
    "mp4" := "video/mp4", "avi" := "video/x-msvideo", "mkv" := "video/x-matroska",
    "mov" := "video/quicktime", "webm" := "video/webm"]

  const StorageRoot: string := "storage"

  /** `filename.split('.').pop().toLowerCase()`: the whole name when it has no '.'. */
  function Extension(filename: string): (ext: string)
    ensures '.' !in ext && |ext| <= |filename|
    ensures '.' !in filename ==> ext == ToLower(filename)
  {
    ToLower(AfterLast(filename, '.'))
  }

  /**
   * The extension is the lower-cased text after the last '.' of the name:
   * a suffix of the name, lower-cased, preceded by a '.' when the name has one.
   */
  lemma ExtensionIsLastSegment(filename: string)
    ensures var ext := Extension(filename);
      && |ext| <= |filename|
      && ext == ToLower(filename[|filename| - |ext|..])
      && '.' !in filename[|filename| - |ext|..]
      && ('.' in filename ==> filename[|filename| - |ext| - 1] == '.')
  {
    var after := AfterLast(filename, '.');
    assert filename[|filename| - |after|..] == after;
  }

  /**
   * The lookup of `getMimeType` once the extension is known: the table of
   * the file type when there is one and it has the extension, otherwise
   * `fileType/ext`.
   */
  function MimeFor(fileType: string, ext: string): (r: string)
    ensures fileType == "audio" && ext in AudioMimeTypes ==> r == AudioMimeTypes[ext]
    ensures fileType == "video" && ext in VideoMimeTypes ==> r == VideoMimeTypes[ext]
    ensures !(fileType == "audio" && ext in AudioMimeTypes) && !(fileType == "video" && ext in VideoMimeTypes) ==>
      r == fileType + "/" + ext
  {
    if fileType == "audio" && ext in AudioMimeTypes then AudioMimeTypes[ext]
    else if fileType == "video" && ext in VideoMimeTypes then VideoMimeTypes[ext]
    else fileType + "/" + ext
  }

  /** `getMimeType(filename, fileType)`. */
  function GetMimeType(filename: string, fileType: string): (r: string)
    ensures HasPrefix(r, fileType + "/")
    ensures fileType == "audio" && Extension(filename) in AudioMimeTypes ==> r == AudioMimeTypes[Extension(filename)]
    ensures fileType == "video" && Extension(filename) in VideoMimeTypes ==> r == VideoMimeTypes[Extension(filename)]
    ensures !(fileType == "audio" && Extension(filename) in AudioMimeTypes)
            && !(fileType == "video" && Extension(filename) in VideoMimeTypes) ==>
      r == fileType + "/" + Extension(filename)
  {
    MimeTypeNamesFileType(fileType, Extension(filename));
    MimeFor(fileType, Extension(filename))
  }

  predicate HasPrefix(s: string, prefix: string) {
    |prefix| <= |s| && s[..|prefix|] == prefix
  }

  /** Every answer, from a table or not, names the file type as its top-level type. */
  lemma MimeTypeNamesFileType(fileType: string, ext: string)
    ensures HasPrefix(MimeFor(fileType, ext), fileType + "/")
  {
    var r := MimeFor(fileType, ext);
    if fileType == "audio" && ext in AudioMimeTypes {
      assert r[..6] == "audio/";
    } else if fileType == "video" && ext in VideoMimeTypes {
      assert r[..6] == "video/";
    } else {
      assert r[..|fileType| + 1] == fileType + "/";
    }
  }

  /** The case of the file name does not matter. */
  lemma MimeTypeIgnoresCase(filename: string, fileType: string)
    ensures GetMimeType(ToLower(filename), fileType) == GetMimeType(filename, fileType)
  {
    AfterLastToLower(filename, '.');
    ToLowerIdempotent(AfterLast(filename, '.'));
  }

  lemma MimeForExamples()
    ensures MimeFor("video", "mkv") == "video/x-matroska"
    ensures MimeFor("audio", "m4a") == "audio/mp4"
    ensures MimeFor("audio", "mkv") == "audio/mkv"
    ensures MimeFor("image", "png") == "image/png"
  {
  }

  datatype User = User(id: string, email: string)

  /** A `mediaFiles` record as `registerFile` writes it. */
  datatype LocalRecord = LocalRecord(id: nat, fileName: string, ownerId: string, ownerEmail: string,
                                     fileType: string, mimeType: string, size: int, path: string,
                                     url: string, uploadDate: int, lastModified: int)

  /** The query of `registerFile`: a record with this file name and owner exists. */
  predicate IsRegistered(db: seq<LocalRecord>, fileName: string, ownerId: string) {
    exists j :: 0 <= j < |db| && db[j].fileName == fileName && db[j].ownerId == ownerId
  }

  /** `path.join(basePath, type, file)`. */
  function FilePath(fileType: string, filename: string): string {
    StorageRoot + "/" + fileType + "/" + filename
  }

  /** `/api/files/local/<fileType>/<filename>`. */
  function LocalUrl(fileType: string, filename: string): string {
    "/api/files/local/" + fileType + "/" + filename
  }

  datatype Registration = Registration(registered: Option<LocalRecord>, db: seq<LocalRecord>)

  /**
   * `registerFile(filename, filePath, fileType, stat, user)`: nothing when the
   * user already has a file of that name; otherwise the record is added and
   * returned.
   */
  function RegisterFile(db: seq<LocalRecord>, filename: string, fileType: string, stat: FileStat,
                        user: User): (r: Registration)
    ensures r.registered.None? <==> IsRegistered(db, filename, user.id)
    ensures r.registered.None? ==> r.db == db
    ensures r.registered.Some? ==> r.db == db + [r.registered.value]
    ensures r.registered.Some? ==>
      var rec := r.registered.value;
      && rec.id == |db| && rec.fileName == filename && rec.ownerId == user.id && rec.fileType == fileType
      && rec.mimeType == GetMimeType(filename, fileType) && rec.size == stat.size
      && rec.url == LocalUrl(fileType, filename) && rec.path == FilePath(fileType, filename)
  {
    if IsRegistered(db, filename, user.id) then Registration(None, db)
    else
      var rec := LocalRecord(|db|, filename, user.id, user.email, fileType, GetMimeType(filename, fileType),
                             stat.size, FilePath(fileType, filename), LocalUrl(fileType, filename),
                             stat.birthtime, stat.mtime);
      Registration(Some(rec), db + [rec])
  }

  /** Registering the same file again registers nothing and leaves the collection alone. */
  lemma RegisterTwiceSkips(db: seq<LocalRecord>, filename: string, fileType: string, stat: FileStat,
                           stat2: FileStat, user: User)
    ensures var once := RegisterFile(db, filename, fileType, stat, user);
      var twice := RegisterFile(once.db, filename, fileType, stat2, user);
      twice.registered.None? && twice.db == once.db
  {
    var once := RegisterFile(db, filename, fileType, stat, user);
    if once.registered.Some? {
      assert once.db[|db|].fileName == filename;
    }
  }

  /** No user has two records with the same file name. */
  predicate UniqueNames(db: seq<LocalRecord>) {
    forall i, j :: 0 <= i < j < |db| ==> !(db[i].fileName == db[j].fileName && db[i].ownerId == db[j].ownerId)
  }

  lemma RegisterKeepsUnique(db: seq<LocalRecord>, filename: string, fileType: string, stat: FileStat, user: User)
    requires UniqueNames(db)
    ensures UniqueNames(RegisterFile(db, filename, fileType, stat, user).db)
  {
    var r := RegisterFile(db, filename, fileType, stat, user);
    if r.registered.Some? {
      forall i, j | 0 <= i < j < |r.db|
        ensures !(r.db[i].fileName == r.db[j].fileName && r.db[i].ownerId == r.db[j].ownerId)
      {
        if j == |db| {
          assert r.db[i] == db[i];
        } else {
          assert r.db[i] == db[i] && r.db[j] == db[j];
        }
      }
    }
  }

  /** What the loop of `scanDirectory` leaves after the given entries: registered files and the collection. */
  datatype Scan = Scan(registered: seq<LocalRecord>, db: seq<LocalRecord>)

  /** The loop of `scanDirectory` over entries whose `fs.stat` succeeded. */
  function RegisterAll(db: seq<LocalRecord>, fileType: string, user: User, entries: seq<DirEntry>): (s: Scan)
  {
    if entries == [] then Scan([], db)
    else
      var before := RegisterAll(db, fileType, user, entries[..|entries| - 1]);
      var last := entries[|entries| - 1];
      if last.stat.IsFile? then
        var r := RegisterFile(before.db, last.name, fileType, last.stat.stat, user);
        Scan(before.registered + (if r.registered.Some? then [r.registered.value] else []), r.db)
      else before
  }

  /** The position of the first entry `fs.stat` cannot read, `|entries|` when there is none. */
  function StatFailedAt(entries: seq<DirEntry>): (k: nat)
    ensures k <= |entries|
    ensures forall j :: 0 <= j < k ==> !entries[j].stat.StatFailed?
    ensures k < |entries| ==> entries[k].stat.StatFailed?
  {
    if entries == [] then 0
    else if entries[0].stat.StatFailed? then 0
    else
      var k := StatFailedAt(entries[1..]);
      assert forall j :: 1 <= j < |entries| ==> entries[j] == entries[1..][j - 1];
      1 + k
  }

  /**
   * The collection after a scan is the one before with exactly the returned
   * records appended, each for the user and the folder's type at its URL.
   */
  lemma {:induction false} RegisterAllAppends(db: seq<LocalRecord>, fileType: string, user: User,
                                              entries: seq<DirEntry>)
    ensures var s := RegisterAll(db, fileType, user, entries);
      && s.db == db + s.registered
      && |s.registered| <= |entries|
      && forall k :: 0 <= k < |s.registered| ==>
           && s.registered[k].ownerId == user.id && s.registered[k].fileType == fileType
           && s.registered[k].url == LocalUrl(fileType, s.registered[k].fileName)
  {
    if entries != [] {
      var init := entries[..|entries| - 1];
      RegisterAllAppends(db, fileType, user, init);
      var before := RegisterAll(db, fileType, user, init);
      var last := entries[|entries| - 1];
      if last.stat.IsFile? {
        var r := RegisterFile(before.db, last.name, fileType, last.stat.stat, user);
        var s := RegisterAll(db, fileType, user, entries);
        assert s.db == r.db;
        if r.registered.Some? {
          var rec := r.registered.value;
          assert s.registered == before.registered + [rec];
          assert db + (before.registered + [rec]) == before.db + [rec];
          forall k | 0 <= k < |s.registered|
            ensures s.registered[k].ownerId == user.id && s.registered[k].fileType == fileType
            ensures s.registered[k].url == LocalUrl(fileType, s.registered[k].fileName)
          {
            if k < |before.registered| {
              assert s.registered[k] == before.registered[k];
            }
          }
        } else {
          assert s.registered == before.registered;
        }
      }
    }
  }

  /** A scan never gives one user two records of the same name. */
  lemma {:induction false} RegisterAllKeepsUnique(db: seq<LocalRecord>, fileType: string, user: User,
                                                  entries: seq<DirEntry>)
    requires UniqueNames(db)
    ensures UniqueNames(RegisterAll(db, fileType, user, entries).db)
  {
    if entries != [] {
      var init := entries[..|entries| - 1];
      RegisterAllKeepsUnique(db, fileType, user, init);
      var before := RegisterAll(db, fileType, user, init);
      var last := entries[|entries| - 1];
      if last.stat.IsFile? {
        RegisterKeepsUnique(before.db, last.name, fileType, last.stat.stat, user);
      }
    }
  }

  /** Every regular file a scan passes is registered for the user afterwards, new or not. */
  lemma {:induction false} RegisterAllCovers(db: seq<LocalRecord>, fileType: string, user: User,
                                             entries: seq<DirEntry>)
    ensures var s := RegisterAll(db, fileType, user, entries);
      forall j :: 0 <= j < |entries| && entries[j].stat.IsFile? ==> IsRegistered(s.db, entries[j].name, user.id)
  {
    if entries != [] {
      var init := entries[..|entries| - 1];
      RegisterAllCovers(db, fileType, user, init);
      var before := RegisterAll(db, fileType, user, init);
      var after := RegisterAll(db, fileType, user, entries);
      var last := entries[|entries| - 1];
      if last.stat.IsFile? {
        var r := RegisterFile(before.db, last.name, fileType, last.stat.stat, user);
        assert after.db == r.db;
        forall j | 0 <= j < |entries| && entries[j].stat.IsFile?
          ensures IsRegistered(after.db, entries[j].name, user.id)
        {
          if j < |entries| - 1 {
            assert entries[j] == init[j];
            RegisteredStaysRegistered(before.db, after.db, entries[j].name, user.id);
          } else if r.registered.Some? {
            assert after.db[|before.db|] == r.registered.value;
          }
        }
      } else {
        forall j | 0 <= j < |entries| && entries[j].stat.IsFile?
          ensures IsRegistered(after.db, entries[j].name, user.id)
        {
          assert j < |entries| - 1 && entries[j] == init[j];
        }
      }
    }
  }

  /** Appending records keeps every registration. */
  lemma RegisteredStaysRegistered(db: seq<LocalRecord>, more: seq<LocalRecord>, fileName: string, ownerId: string)
    requires |db| <= |more| && more[..|db|] == db
    requires IsRegistered(db, fileName, ownerId)
    ensures IsRegistered(more, fileName, ownerId)
  {
    var j :| 0 <= j < |db| && db[j].fileName == fileName && db[j].ownerId == ownerId;
    assert more[j] == more[..|db|][j];
  }

  lemma ScanStep(db: seq<LocalRecord>, fileType: string, user: User, entries: seq<DirEntry>, i: nat)
    requires i < |entries|
    ensures var before := RegisterAll(db, fileType, user, entries[..i]);
      RegisterAll(db, fileType, user, entries[..i + 1]) ==
        if entries[i].stat.IsFile? then
          var r := RegisterFile(before.db, entries[i].name, fileType, entries[i].stat.stat, user);
          Scan(before.registered + (if r.registered.Some? then [r.registered.value] else []), r.db)
        else before
  {
    assert entries[..i + 1][..i] == entries[..i];
  }

  /** The outcome of `scanDirectory`: its result or error, and the collection afterwards. */
  datatype DirScan = DirScan(result: Result<seq<LocalRecord>>, db: seq<LocalRecord>)

  /**
   * What `scanDirectory` does with a folder listing: nothing for a missing
   * folder; the error of `fs.readdir` for a folder it cannot read;
   * otherwise the entries before the first failing `fs.stat` are
   * registered, and that stat's error, if any, is the result.
   */
  function DirectoryScan(db: seq<LocalRecord>, fileType: string, user: User, listing: Listing): (d: DirScan)
    ensures d.result.Error? <==> Fails(listing)
    ensures listing.Unreadable? ==> d == DirScan(Error(listing.message), db)
    ensures |db| <= |d.db| && d.db[..|db|] == db
    ensures d.result.Ok? ==> Covered(d.db, user, listing)
    ensures d.result.Ok? ==> d.db == db + d.result.value
  {
    match listing
    case Missing => DirScan(Ok([]), db)
    case Unreadable(message) => DirScan(Error(message), db)
    case Listed(entries) =>
      var k := StatFailedAt(entries);
      var s := RegisterAll(db, fileType, user, entries[..k]);
      RegisterAllAppends(db, fileType, user, entries[..k]);
      assert s.db[..|db|] == db;
      if k < |entries| then DirScan(Error(entries[k].stat.message), s.db)
      else
        assert entries[..k] == entries;
        RegisterAllCovers(db, fileType, user, entries);
        DirScan(Ok(s.registered), s.db)
  }

  /**
   * `scanDirectory(type, user)`: a missing folder registers nothing; a
   * folder `fs.readdir` cannot read fails with its error; an entry
   * `fs.stat` cannot read aborts with its error, keeping what was
   * registered before it; otherwise each regular file is registered in
   * listing order and the new records are returned.
   */
  method ScanDirectory(db0: seq<LocalRecord>, fileType: string, user: User, listing: Listing)
    returns (r: Result<seq<LocalRecord>>, db: seq<LocalRecord>)
    ensures listing.Missing? ==> r == Ok([]) && db == db0
    ensures listing.Unreadable? ==> r == Error(listing.message) && db == db0
    ensures listing.Listed? ==>
      var k := StatFailedAt(listing.entries);
      var s := RegisterAll(db0, fileType, user, listing.entries[..k]);
      && db == s.db
      && (k < |listing.entries| ==> r == Error(listing.entries[k].stat.message))
      && (k == |listing.entries| ==> r == Ok(s.registered))
    ensures DirScan(r, db) == DirectoryScan(db0, fileType, user, listing)
  {
    if listing.Missing? {
      return Ok([]), db0;
    }
    if listing.Unreadable? {
      return Error(listing.message), db0;
    }
    var entries := listing.entries;
    var registered: seq<LocalRecord> := [];
    db := db0;
    for i := 0 to |entries|
      invariant Scan(registered, db) == RegisterAll(db0, fileType, user, entries[..i])
      invariant forall j :: 0 <= j < i ==> !entries[j].stat.StatFailed?
    {
      ScanStep(db0, fileType, user, entries, i);
      var entry := entries[i];
      match entry.stat {
        case StatFailed(message) =>
          return Error(message), db;
        case IsDirectory =>
        case IsFile(stat) =>
          var reg := RegisterFile(db, entry.name, fileType, stat, user);
          if reg.registered.Some? {
            registered := registered + [reg.registered.value];
          }
          db := reg.db;
      }
    }
    assert entries[..|entries|] == entries;
    return Ok(registered), db;
  }

  /** Reading the folder, or some entry of it, throws. */
  predicate Fails(listing: Listing) {
    || listing.Unreadable?
    || (listing.Listed? && exists j :: 0 <= j < |listing.entries| && listing.entries[j].stat.StatFailed?)
  }

  /** Every regular file of the listing is registered for the user. */
  predicate Covered(db: seq<LocalRecord>, user: User, listing: Listing) {
    listing.Listed? ==>
      forall j :: 0 <= j < |listing.entries| && listing.entries[j].stat.IsFile? ==>
        IsRegistered(db, listing.entries[j].name, user.id)
  }

  datatype Summary = Summary(audio: seq<LocalRecord>, video: seq<LocalRecord>, total: nat)

  /** What `scanDirectory` does to the collection: appends records, keeping names unique per user. */
  lemma ScanDirectoryAppends(db0: seq<LocalRecord>, fileType: string, user: User, entries: seq<DirEntry>)
    ensures var s := RegisterAll(db0, fileType, user, entries[..StatFailedAt(entries)]);
      && s.db == db0 + s.registered
      && (UniqueNames(db0) ==> UniqueNames(s.db))
      && forall k :: 0 <= k < |s.registered| ==> s.registered[k].fileType == fileType
  {
    var prefix := entries[..StatFailedAt(entries)];
    RegisterAllAppends(db0, fileType, user, prefix);
    if UniqueNames(db0) {
      RegisterAllKeepsUnique(db0, fileType, user, prefix);
    }
  }

  /**
   * `scanAndRegisterFiles(user)`: the audio folder, then the video folder;
   * the total counts both, and a failure of either scan is the result, with
   * the records written before it kept.
   */
  method ScanAndRegisterFiles(db0: seq<LocalRecord>, user: User, audioListing: Listing,
                              videoListing: Listing)
    returns (r: Result<Summary>, db: seq<LocalRecord>)
    ensures r.Ok? ==> r.value.total == |r.value.audio| + |r.value.video|
    ensures r.Ok? ==> db == db0 + r.value.audio + r.value.video
    ensures r.Ok? ==> forall k :: 0 <= k < |r.value.audio| ==> r.value.audio[k].fileType == "audio"
    ensures r.Ok? ==> forall k :: 0 <= k < |r.value.video| ==> r.value.video[k].fileType == "video"
    ensures |db0| <= |db| && db[..|db0|] == db0
    ensures UniqueNames(db0) ==> UniqueNames(db)
    ensures var a := DirectoryScan(db0, "audio", user, audioListing);
      var v := DirectoryScan(a.db, "video", user, videoListing);
      && (a.result.Error? ==> r == Error(a.result.message) && db == a.db)
      && (a.result.Ok? && v.result.Error? ==> r == Error(v.result.message) && db == v.db)
      && (a.result.Ok? && v.result.Ok? ==>
            r == Ok(Summary(a.result.value, v.result.value, |a.result.value| + |v.result.value|)) && db == v.db)
    ensures r.Error? <==> Fails(audioListing) || Fails(videoListing)
    ensures r.Ok? ==> Covered(db, user, audioListing) && Covered(db, user, videoListing)
  {
    var audio, db1 := ScanDirectory(db0, "audio", user, audioListing);
    if audioListing.Listed? {
      ScanDirectoryAppends(db0, "audio", user, audioListing.entries);
    }
    if audio.Error? {
      return Error(audio.message), db1;
    }
    var video, db2 := ScanDirectory(db1, "video", user, videoListing);
    if videoListing.Listed? {
      ScanDirectoryAppends(db1, "video", user, videoListing.entries);
    }
    assert db1[..|db0|] == db0;
    if video.Error? {
      return Error(video.message), db2;
    }
    db := db2;
    r := Ok(Summary(audio.value, video.value, |audio.value| + |video.value|));
  }
}
