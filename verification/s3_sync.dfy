/**
 * `S3Sync` (server/scripts/syncS3Files.js): registers in `mediaFiles` the
 * objects an S3 listing returns, skipping folder keys and keys already
 * registered.
 *
 * The listing is a sequence of keys; `headObject` is a map from key to the
 * metadata S3 answers, a key missing from it being one whose `headObject`
 * failed. The collection is a sequence of records in insertion order.
 */
module S3Sync {
  import opened Wrappers
  import opened Strings
  import opened FileKinds
  import AwsUploader
  import Paths

  const AudioExtensions: set<string> := {".mp3", ".wav", ".flac", ".ogg", ".m4a"}
  const VideoExtensions: set<string> := {".mp4", ".avi", ".mov", ".mkv", ".webm"}
  const ImageExtensions: set<string> := {".jpg", ".jpeg", ".png", ".gif"}

  const DefaultMimeType: string := "application/octet-stream"
  const DefaultOwner: string := "system"

  /** The three lists of `determineFileType`, once the extension is cut out. */
  function TypeOfExtension(ext: string): (t: FileType)
    ensures t == Audio <==> ext in AudioExtensions
    ensures t == Video <==> ext in VideoExtensions
    ensures t == Image <==> ext in ImageExtensions
  {
    if ext in AudioExtensions then Audio
    else if ext in VideoExtensions then Video
    else if ext in ImageExtensions then Image
    else Other
  }

  /**
   * `filename.toLowerCase().substring(filename.lastIndexOf('.'))`: from the
   * last '.' of the whole key, or the whole key when it has none (a negative
   * start counts as 0).
   */
  function KeyExtension(key: string): (ext: string)
    ensures '.' in key ==> |ext| > 0 && ext[0] == '.' && '.' !in ext[1..]
    ensures '.' !in key ==> ext == ToLower(key)
  {
    var i := LastIndexOf(key, '.');
    var lower := ToLower(key);
    if i < 0 then lower
    else
      assert lower[i] == '.';
      assert forall j :: i < j < |key| ==> lower[j] != '.';
      lower[i..]
  }

  /** `determineFileType(filename)`. */
  function DetermineFileType(key: string): (t: FileType)
    ensures t == Audio <==> KeyExtension(key) in AudioExtensions
    ensures t == Video <==> KeyExtension(key) in VideoExtensions
    ensures t == Image <==> KeyExtension(key) in ImageExtensions
  {
    TypeOfExtension(KeyExtension(key))
  }

  /** The case of the key does not matter. */
  lemma FileTypeIgnoresCase(key: string)
    ensures DetermineFileType(ToLower(key)) == DetermineFileType(key)
  {
    LastIndexOfToLower(key, '.');
    ToLowerIdempotent(key);
  }

  /** A key without '.' is never recognised: every listed extension starts with '.'. */
  lemma NoDotIsOther(key: string)
    requires '.' !in key
    ensures DetermineFileType(key) == Other
  {
    assert LastIndexOf(key, '.') < 0;
    var ext := KeyExtension(key);
    assert ext == ToLower(key);
    assert |ext| == 0 || ext[0] == LowerChar(key[0]) != '.';
    assert forall e :: e in AudioExtensions + VideoExtensions + ImageExtensions ==> |e| > 0 && e[0] == '.';
  }

  /** Only what follows the last '.' of the whole key decides, in any case. */
  lemma LastDotDecides(prefix: string, suffix: string)
    requires '.' !in suffix
    ensures DetermineFileType(prefix + "." + suffix) == TypeOfExtension("." + ToLower(suffix))
  {
    var key := prefix + "." + suffix;
    LastIndexOfJoin(prefix, '.', suffix);
    ToLowerSuffix(key, |prefix|);
    assert key[|prefix|..] == "." + suffix;
    ToLowerAppend(".", suffix);
    assert ToLower(".") == ".";
  }

  /** An inner ".mp3" does not make a file audio. */
  lemma InnerDotIgnored()
    ensures DetermineFileType("a.mp3.txt") == Other
  {
    assert "a.mp3" + "." + "txt" == "a.mp3.txt";
    assert ToLower("txt") == "txt";
    assert "." + "txt" == ".txt";
    assert ".txt" !in AudioExtensions && ".txt" !in VideoExtensions && ".txt" !in ImageExtensions;
    LastDotDecides("a.mp3", "txt");
  }

  /** The last extension of a double extension decides. */
  lemma LastExtensionDecides()
    ensures DetermineFileType("x.tar.mp3") == Audio
  {
    assert "x.tar" + "." + "mp3" == "x.tar.mp3";
    assert ToLower("mp3") == "mp3";
    assert "." + "mp3" == ".mp3";
    LastDotDecides("x.tar", "mp3");
  }

  /** `s3Key.split('/').pop()`. */
  function FileName(key: string): (name: string)
    ensures '/' !in name && |name| <= |key| && name == key[|key| - |name|..]
    ensures '/' !in key ==> name == key
  {
    AfterLast(key, '/')
  }

  /** An object the uploader stored is registered under the base name of its local file. */
  lemma UploadedNameSurvives(localRelativePath: string, s3Folder: Option<string>)
    ensures FileName(AwsUploader.S3Key(localRelativePath, s3Folder)) == Paths.BaseName(localRelativePath)
  {
  }

  /** What `headObject` answers for a key. */
  datatype Head = Head(contentType: Option<string>, contentLength: Option<int>)

  /** A `mediaFiles` record as `registerFileInFirebase` writes it. */
  datatype S3Record = S3Record(id: nat, fileName: string, ownerId: string, fileType: FileType,
                               mimeType: string, size: int, path: string)

  /** The query of `registerFileInFirebase`: a record whose `storageInfo.path` is the key. */
  predicate HasPath(db: seq<S3Record>, key: string) {
    exists j :: 0 <= j < |db| && db[j].path == key
  }

  /** The record for a key whose `headObject` answered. */
  function RecordFor(db: seq<S3Record>, key: string, owner: string, head: Head): (rec: S3Record)
    ensures rec.id == |db| && rec.path == key && rec.ownerId == owner
    ensures rec.fileName == FileName(key) && rec.fileType == DetermineFileType(key)
    ensures head.contentType.Some? && head.contentType.value != "" ==> rec.mimeType == head.contentType.value
    ensures head.contentType.None? || head.contentType.value == "" ==> rec.mimeType == DefaultMimeType
    ensures rec.size == (if head.contentLength.Some? then head.contentLength.value else 0)
  {
    var mime := if head.contentType.Some? && head.contentType.value != "" then head.contentType.value
                else DefaultMimeType;
    var size := if head.contentLength.Some? then head.contentLength.value else 0;
    S3Record(|db|, FileName(key), owner, DetermineFileType(key), mime, size, key)
  }

  /**
   * `registerFileInFirebase(s3Key, ownerId)`: a registered key and a key
   * whose `headObject` fails add nothing; otherwise one record is added.
   */
  function RegisterKey(db: seq<S3Record>, key: string, owner: string, heads: map<string, Head>): (r: seq<S3Record>)
    ensures HasPath(db, key) || key !in heads ==> r == db
    ensures !HasPath(db, key) && key in heads ==> r == db + [RecordFor(db, key, owner, heads[key])]
  {
    if HasPath(db, key) then db
    else if key !in heads then db
    else db + [RecordFor(db, key, owner, heads[key])]
  }

  /** The loop of `syncFolder` over the listed keys. */
  function RegisterKeys(db: seq<S3Record>, keys: seq<string>, owner: string, heads: map<string, Head>): seq<S3Record>
  {
    if keys == [] then db
    else
      var before := RegisterKeys(db, keys[..|keys| - 1], owner, heads);
      var key := keys[|keys| - 1];
      if EndsWith(key, "/") then before else RegisterKey(before, key, owner, heads)
  }

  /** The number of listed keys that are not folders. */
  function FileKeyCount(keys: seq<string>): nat {
    if keys == [] then 0
    else FileKeyCount(keys[..|keys| - 1]) + (if EndsWith(keys[|keys| - 1], "/") then 0 else 1)
  }

  /** No two records share a path. */
  predicate UniquePaths(db: seq<S3Record>) {
    forall i, j :: 0 <= i < j < |db| ==> db[i].path != db[j].path
  }

  lemma RegisterKeyKeepsUnique(db: seq<S3Record>, key: string, owner: string, heads: map<string, Head>)
    requires UniquePaths(db)
    ensures UniquePaths(RegisterKey(db, key, owner, heads))
  {
    var r := RegisterKey(db, key, owner, heads);
    if r != db {
      forall i, j | 0 <= i < j < |r| ensures r[i].path != r[j].path {
        assert r[i] == db[i];
        if j < |db| {
          assert r[j] == db[j];
        }
      }
    }
  }

  /** `r` is `db` with records appended. */
  predicate Extends(db: seq<S3Record>, r: seq<S3Record>) {
    |db| <= |r| && forall k :: 0 <= k < |db| ==> r[k] == db[k]
  }

  lemma RegisterKeyExtends(db: seq<S3Record>, key: string, owner: string, heads: map<string, Head>)
    ensures Extends(db, RegisterKey(db, key, owner, heads))
  {
  }

  /** A new key whose metadata S3 answers ends up registered. */
  lemma RegisterKeyRecords(db: seq<S3Record>, key: string, owner: string, heads: map<string, Head>)
    requires key in heads
    ensures HasPath(RegisterKey(db, key, owner, heads), key)
  {
    if !HasPath(db, key) {
      var r := RegisterKey(db, key, owner, heads);
      var rec := RecordFor(db, key, owner, heads[key]);
      assert r[|db|] == rec;
    }
  }

  /** A sync only appends. */
  lemma {:induction false} RegisterKeysExtends(db: seq<S3Record>, keys: seq<string>, owner: string,
                                               heads: map<string, Head>)
    ensures Extends(db, RegisterKeys(db, keys, owner, heads))
  {
    if keys != [] {
      var init := keys[..|keys| - 1];
      var key := keys[|keys| - 1];
      RegisterKeysExtends(db, init, owner, heads);
      if !EndsWith(key, "/") {
        RegisterKeyExtends(RegisterKeys(db, init, owner, heads), key, owner, heads);
      }
    }
  }

  /** A sync never registers a path twice. */
  lemma {:induction false} RegisterKeysUnique(db: seq<S3Record>, keys: seq<string>, owner: string,
                                              heads: map<string, Head>)
    requires UniquePaths(db)
    ensures UniquePaths(RegisterKeys(db, keys, owner, heads))
  {
    if keys != [] {
      var init := keys[..|keys| - 1];
      var key := keys[|keys| - 1];
      RegisterKeysUnique(db, init, owner, heads);
      if !EndsWith(key, "/") {
        RegisterKeyKeepsUnique(RegisterKeys(db, init, owner, heads), key, owner, heads);
      }
    }
  }

  lemma PrefixKeepsPath(db: seq<S3Record>, r: seq<S3Record>, p: string)
    requires Extends(db, r)
    requires HasPath(db, p)
    ensures HasPath(r, p)
  {
    var j :| 0 <= j < |db| && db[j].path == p;
    assert r[j] == db[j];
  }

  /** After a sync, every listed file key whose metadata S3 answers has a record. */
  lemma {:induction false} RegisterKeysCovers(db: seq<S3Record>, keys: seq<string>, owner: string,
                                              heads: map<string, Head>)
    ensures var r := RegisterKeys(db, keys, owner, heads);
      forall k :: 0 <= k < |keys| && !EndsWith(keys[k], "/") && keys[k] in heads ==> HasPath(r, keys[k])
  {
    if keys != [] {
      var init := keys[..|keys| - 1];
      var key := keys[|keys| - 1];
      RegisterKeysCovers(db, init, owner, heads);
      var before := RegisterKeys(db, init, owner, heads);
      var r := RegisterKeys(db, keys, owner, heads);
      if !EndsWith(key, "/") {
        RegisterKeyExtends(before, key, owner, heads);
        if key in heads {
          RegisterKeyRecords(before, key, owner, heads);
        }
      }
      forall k | 0 <= k < |keys| && !EndsWith(keys[k], "/") && keys[k] in heads ensures HasPath(r, keys[k]) {
        if k < |init| {
          assert init[k] == keys[k];
          PrefixKeepsPath(before, r, keys[k]);
        }
      }
    }
  }

  lemma SyncStep(db: seq<S3Record>, keys: seq<string>, owner: string, heads: map<string, Head>, i: nat)
    requires i < |keys|
    ensures RegisterKeys(db, keys[..i + 1], owner, heads) ==
      (if EndsWith(keys[i], "/") then RegisterKeys(db, keys[..i], owner, heads)
       else RegisterKey(RegisterKeys(db, keys[..i], owner, heads), keys[i], owner, heads))
    ensures FileKeyCount(keys[..i + 1]) == FileKeyCount(keys[..i]) + (if EndsWith(keys[i], "/") then 0 else 1)
  {
    assert keys[..i + 1][..i] == keys[..i];
  }

  /**
   * `syncFolder(folderPath, defaultOwner)`: every listed key that is not a
   * folder is offered for registration, and counted, whether or not it was
   * registered already.
   */
  method SyncFolder(db0: seq<S3Record>, keys: seq<string>, defaultOwner: Option<string>, heads: map<string, Head>)
    returns (syncedCount: nat, db: seq<S3Record>)
    ensures syncedCount == FileKeyCount(keys) <= |keys|
    ensures db == RegisterKeys(db0, keys, if defaultOwner.Some? then defaultOwner.value else DefaultOwner, heads)
  {
    var owner := if defaultOwner.Some? then defaultOwner.value else DefaultOwner;
    syncedCount := 0;
    db := db0;
    for i := 0 to |keys|
      invariant db == RegisterKeys(db0, keys[..i], owner, heads)
      invariant syncedCount == FileKeyCount(keys[..i]) <= i
    {
      SyncStep(db0, keys, owner, heads, i);
      var key := keys[i];
      if !EndsWith(key, "/") {
        db := RegisterKey(db, key, owner, heads);
        syncedCount := syncedCount + 1;
      }
    }
    assert keys[..|keys|] == keys;
  }

  /** Syncing the same listing twice adds nothing the second time. */
  lemma {:induction false} SyncTwiceAddsNothing(db: seq<S3Record>, keys: seq<string>, owner: string,
                                                heads: map<string, Head>)
    ensures var once := RegisterKeys(db, keys, owner, heads);
      RegisterKeys(once, keys, owner, heads) == once
  {
    var once := RegisterKeys(db, keys, owner, heads);
    RegisterKeysCovers(db, keys, owner, heads);
    SkipsRegistered(once, keys, keys, owner, heads);
  }

  /** Keys already registered, or without metadata, or folders, add nothing. */
  lemma {:induction false} SkipsRegistered(db: seq<S3Record>, keys: seq<string>, all: seq<string>, owner: string,
                                           heads: map<string, Head>)
    requires forall k :: 0 <= k < |all| && !EndsWith(all[k], "/") && all[k] in heads ==> HasPath(db, all[k])
    requires forall k :: 0 <= k < |keys| ==> keys[k] in all
    ensures RegisterKeys(db, keys, owner, heads) == db
  {
    if keys != [] {
      var init := keys[..|keys| - 1];
      assert forall k :: 0 <= k < |init| ==> init[k] == keys[k];
      SkipsRegistered(db, init, all, owner, heads);
      var key := keys[|keys| - 1];
      assert key in all;
    }
  }
}
