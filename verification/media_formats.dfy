/**
 * The conversion format tables of `MediaConverter` (server/utils/ffmpeg.js):
 * `supportedFormats`, two categories of formats keyed by extension, and
 * the lookups over it.
 */
module MediaFormats {
  import opened Wrappers
  import opened Strings
  import opened Tables

  datatype Format = Format(codec: string, extension: string, mimeType: string)

  type FormatTable = seq<(string, Format)>

  const AudioFormats: FormatTable := [
    ("mp3", Format("libmp3lame", "mp3", "audio/mpeg")),
    ("wav", Format("pcm_s16le", "wav", "audio/wav")),
    ("flac", Format("flac", "flac", "audio/flac")),
    ("aac", Format("aac", "aac", "audio/aac")),
    ("ogg", Format("libvorbis", "ogg", "audio/ogg")),
    ("m4a", Format("aac", "m4a", "audio/mp4"))
  ]

  const VideoFormats: FormatTable := [
    ("mp4", Format("libx264", "mp4", "video/mp4")),
    ("webm", Format("libvpx", "webm", "video/webm")),
    ("avi", Format("mpeg4", "avi", "video/x-msvideo")),
    ("mov", Format("libx264", "mov", "video/quicktime")),
    ("mkv", Format("libx264", "mkv", "video/x-matroska"))
  ]

  /** `supportedFormats`, category by category in declaration order. */
  const SupportedFormats: seq<(string, FormatTable)> := [("audio", AudioFormats), ("video", VideoFormats)]

  /** Every format of every category, in the order the for-in loops visit them. */
  const AllFormats: FormatTable := AudioFormats + VideoFormats

  const DefaultMimeType: string := "application/octet-stream"

  /** The keys of both categories. */
  const FormatKeys: set<string> :=
    {"mp3", "wav", "flac", "aac", "ogg", "m4a", "mp4", "webm", "avi", "mov", "mkv"}

  /** `Object.keys` of each category, in declaration order. */
  lemma CategoryKeys()
    ensures Keys(AudioFormats) == ["mp3", "wav", "flac", "aac", "ogg", "m4a"]
    ensures Keys(VideoFormats) == ["mp4", "webm", "avi", "mov", "mkv"]
  {
  }

  /** A name is a key of some category exactly when it is in FormatKeys. */
  lemma HasKeyIffFormatKey(k: string)
    ensures HasKey(AllFormats, k) <==> k in FormatKeys
  {
    CategoryKeys();
    HasKeyIffInKeys(AllFormats, k);
    KeysAppend(AudioFormats, VideoFormats);
  }

  lemma HasKeyIffInKeys(table: FormatTable, k: string)
    ensures HasKey(table, k) <==> k in Keys(table)
  {
    if HasKey(table, k) {
      var i :| 0 <= i < |table| && table[i].0 == k;
      assert Keys(table)[i] == k;
    }
  }

  lemma KeysAppend(a: FormatTable, b: FormatTable)
    ensures Keys(a + b) == Keys(a) + Keys(b)
  {
    assert forall i :: 0 <= i < |a + b| ==> Keys(a + b)[i] == (Keys(a) + Keys(b))[i];
  }

  /** Every entry's extension is its own key. */
  lemma ExtensionIsKey()
    ensures forall i :: 0 <= i < |AllFormats| ==> AllFormats[i].1.extension == AllFormats[i].0
  {
  }

  /** Within one table no key appears twice. */
  predicate KeysUnique(table: FormatTable) {
    forall i, j :: 0 <= i < j < |table| ==> table[i].0 != table[j].0
  }

  lemma AudioKeysUnique()
    ensures KeysUnique(AudioFormats)
  {
    CategoryKeys();
    var audio := Keys(AudioFormats);
    // the first two letters already tell the keys apart
    var first := ['m', 'w', 'f', 'a', 'o', 'm'];
    var second := ['p', 'a', 'l', 'a', 'g', '4'];
    assert forall i :: 0 <= i < |audio| ==> |audio[i]| >= 2 && audio[i][0] == first[i] && audio[i][1] == second[i];
    assert forall i, j :: 0 <= i < j < |audio| ==> first[i] != first[j] || second[i] != second[j];
  }

  lemma VideoKeysUnique()
    ensures KeysUnique(VideoFormats)
  {
    CategoryKeys();
    var video := Keys(VideoFormats);
    var first := ['m', 'w', 'a', 'm', 'm'];
    var second := ['p', 'e', 'v', 'o', 'k'];
    assert forall i :: 0 <= i < |video| ==> |video[i]| >= 2 && video[i][0] == first[i] && video[i][1] == second[i];
    assert forall i, j :: 0 <= i < j < |video| ==> first[i] != first[j] || second[i] != second[j];
  }

  lemma CategoriesDisjoint()
    ensures forall i, j :: 0 <= i < |AudioFormats| && 0 <= j < |VideoFormats| ==>
      AudioFormats[i].0 != VideoFormats[j].0
  {
    CategoryKeys();
    var audio := Keys(AudioFormats);
    assert forall i :: 0 <= i < |audio| ==> audio[i] in {"mp3", "wav", "flac", "aac", "ogg", "m4a"};
    var video := Keys(VideoFormats);
    assert forall j :: 0 <= j < |video| ==> video[j] in {"mp4", "webm", "avi", "mov", "mkv"};
  }

  /** No key appears twice, within a category or across the two. */
  lemma KeysDistinct()
    ensures KeysUnique(AllFormats)
  {
    AudioKeysUnique();
    VideoKeysUnique();
    CategoriesDisjoint();
    var n := |AudioFormats|;
    forall i, j | 0 <= i < j < |AllFormats| ensures AllFormats[i].0 != AllFormats[j].0 {
      if j < n {
        assert AllFormats[i] == AudioFormats[i] && AllFormats[j] == AudioFormats[j];
      } else if i < n {
        assert AllFormats[i] == AudioFormats[i] && AllFormats[j] == VideoFormats[j - n];
      } else {
        assert AllFormats[i] == VideoFormats[i - n] && AllFormats[j] == VideoFormats[j - n];
      }
    }
  }

  datatype Supported = Category(formats: FormatTable) | Everything(categories: seq<(string, FormatTable)>)

  /**
   * `getSupportedFormats(fileType)`: the table of a known category, and the
   * whole of `supportedFormats` for anything else (including no argument).
   */
  function GetSupportedFormats(fileType: Option<string>): (r: Supported)
    ensures fileType == Some("audio") ==> r == Category(AudioFormats)
    ensures fileType == Some("video") ==> r == Category(VideoFormats)
    ensures fileType != Some("audio") && fileType != Some("video") ==> r == Everything(SupportedFormats)
  {
    match fileType
    case Some("audio") => Category(AudioFormats)
    case Some("video") => Category(VideoFormats)
    case _ => Everything(SupportedFormats)
  }

  /** The first format, in visiting order, whose extension is `extension`. */
  function FindByExtension(table: FormatTable, extension: string): (r: Option<Format>)
    ensures r.Some? ==> r.value.extension == extension
    ensures r.None? <==> forall i :: 0 <= i < |table| ==> table[i].1.extension != extension
  {
    if table == [] then None
    else if table[0].1.extension == extension then Some(table[0].1)
    else
      assert forall i :: 1 <= i < |table| ==> table[i] == table[1..][i - 1];
      FindByExtension(table[1..], extension)
  }

  /** The search stops at the first entry with the extension. */
  lemma {:induction false} FindByExtensionFirst(table: FormatTable, i: int)
    requires 0 <= i < |table|
    requires forall j :: 0 <= j < i ==> table[j].1.extension != table[i].1.extension
    ensures FindByExtension(table, table[i].1.extension) == Some(table[i].1)
  {
    if i > 0 {
      assert forall j :: 1 <= j < |table| ==> table[j] == table[1..][j - 1];
      FindByExtensionFirst(table[1..], i - 1);
    }
  }

  /** `getMimeType(extension)`. */
  function GetMimeType(extension: string): (r: string)
    ensures extension !in FormatKeys ==> r == DefaultMimeType
  {
    ExtensionIsKey();
    HasKeyIffFormatKey(extension);
    match FindByExtension(AllFormats, extension)
    case Some(f) => f.mimeType
    case None => DefaultMimeType
  }

  /** Each of the eleven entries maps its extension to its own MIME type. */
  lemma MimeTypeOfEntry(i: int)
    requires 0 <= i < |AllFormats|
    ensures GetMimeType(AllFormats[i].0) == AllFormats[i].1.mimeType
  {
    ExtensionIsKey();
    KeysDistinct();
    FindByExtensionFirst(AllFormats, i);
  }

  /** `canConvert(from, to)`: both are keys of some category. */
  function CanConvert(fromFormat: string, toFormat: string): (r: bool)
    ensures r <==> fromFormat in FormatKeys && toFormat in FormatKeys
  {
    CategoryKeys();
    var allFormats := Keys(AudioFormats) + Keys(VideoFormats);
    fromFormat in allFormats && toFormat in allFormats
  }

  /** `getFormatConfig(format)`: the first category holding the key wins. */
  function GetFormatConfig(format: string): (r: Option<Format>)
    ensures r.Some? <==> format in FormatKeys
    ensures r.Some? ==> r.value.extension == format && (format, r.value) in AllFormats
  {
    ExtensionIsKey();
    HasKeyIffFormatKey(format);
    LookupAppend(AudioFormats, VideoFormats, format);
    var audio := Lookup(AudioFormats, format);
    if audio.Some? then audio else Lookup(VideoFormats, format)
  }

  /** `canConvert` accepts exactly the pairs for which both configurations exist. */
  lemma CanConvertIffConfigs(fromFormat: string, toFormat: string)
    ensures CanConvert(fromFormat, toFormat) <==>
      GetFormatConfig(fromFormat).Some? && GetFormatConfig(toFormat).Some?
  {
  }

  /** Convertibility ignores direction and category: audio to video is allowed. */
  lemma CanConvertSymmetric(a: string, b: string)
    ensures CanConvert(a, b) == CanConvert(b, a)
  {
  }

  lemma CanConvertExamples()
    ensures CanConvert("mp3", "mp4") && CanConvert("mkv", "ogg")
    ensures !CanConvert("mp3", "png")
  {
    assert "mp3" in FormatKeys && "mp4" in FormatKeys;
    assert "mkv" in FormatKeys && "ogg" in FormatKeys;
    assert "png" !in FormatKeys;
  }

  lemma LookupSkip(table: FormatTable, key: string)
    requires table != [] && table[0].0 != key
    ensures Lookup(table, key) == Lookup(table[1..], key)
  {
    var i := IndexOfKey(table, key);
    var k := IndexOfKey(table[1..], key);
    assert forall j :: 1 <= j < |table| ==> table[j] == table[1..][j - 1];
    if k == -1 {
      assert i == -1;
    } else {
      assert i == k + 1;
    }
  }

  lemma {:induction false} LookupAppend(a: FormatTable, b: FormatTable, key: string)
    ensures Lookup(a + b, key) == if Lookup(a, key).Some? then Lookup(a, key) else Lookup(b, key)
  {
    if a == [] {
      assert a + b == b;
    } else if a[0].0 == key {
      assert (a + b)[0] == a[0];
      assert IndexOfKey(a + b, key) == 0 && IndexOfKey(a, key) == 0;
    } else {
      assert (a + b)[1..] == a[1..] + b;
      LookupSkip(a + b, key);
      LookupSkip(a, key);
      LookupAppend(a[1..], b, key);
    }
  }

  lemma {:induction false} LookupFirst(table: FormatTable, i: int)
    requires 0 <= i < |table|
    requires forall j :: 0 <= j < i ==> table[j].0 != table[i].0
    ensures Lookup(table, table[i].0) == Some(table[i].1)
  {
    if i > 0 {
      LookupSkip(table, table[i].0);
      assert forall j :: 1 <= j < |table| ==> table[j] == table[1..][j - 1];
      LookupFirst(table[1..], i - 1);
    }
  }

  /**
   * Round trip: the MIME type found by a format's extension is the one its
   * configuration carries.
   */
  lemma MimeTypeOfConfig(format: string)
    requires GetFormatConfig(format).Some?
    ensures GetMimeType(GetFormatConfig(format).value.extension) == GetFormatConfig(format).value.mimeType
  {
    var c := GetFormatConfig(format).value;
    LookupAppend(AudioFormats, VideoFormats, format);
    var i :| 0 <= i < |AllFormats| && AllFormats[i] == (format, c);
    KeysDistinct();
    LookupFirst(AllFormats, i);
    MimeTypeOfEntry(i);
  }

  /** Some values of `getMimeType`: table hits and misses. */
  lemma MimeTypeExamples()
    ensures GetMimeType("mp3") == "audio/mpeg" && GetMimeType("m4a") == "audio/mp4"
    ensures GetMimeType("mkv") == "video/x-matroska"
    ensures GetMimeType(".mp3") == DefaultMimeType && GetMimeType("MP3") == DefaultMimeType
  {
    MimeTypeOfEntry(0);
    MimeTypeOfEntry(5);
    MimeTypeOfEntry(10);
  }

  datatype FrontendOption = FrontendOption(value: string, labelText: string, description: string, recommended: bool)

  datatype FrontendFormats = Options(options: seq<FrontendOption>) | KeyLists(audio: seq<string>, video: seq<string>)

  const Recommended: seq<string> := ["mp3", "mp4", "webm", "flac"]

  function OptionFor(format: string): (o: FrontendOption)
    ensures o.value == format && o.labelText == ToUpper(format)
    ensures o.description == "Convertir a formato " + o.labelText
    ensures o.recommended <==> format in Recommended
  {
    FrontendOption(format, ToUpper(format), "Convertir a formato " + ToUpper(format), format in Recommended)
  }

  /**
   * `getFormatsForFrontend(fileType)`: one option per key of a known
   * category, in table order; otherwise the key lists of both categories.
   */
  function GetFormatsForFrontend(fileType: Option<string>): (r: FrontendFormats)
    ensures GetSupportedFormats(fileType).Category? ==>
      var table := GetSupportedFormats(fileType).formats;
      && r.Options? && |r.options| == |table|
      && forall i :: 0 <= i < |table| ==> r.options[i] == OptionFor(table[i].0)
    ensures GetSupportedFormats(fileType).Everything? ==>
      r == KeyLists(Keys(AudioFormats), Keys(VideoFormats))
  {
    match GetSupportedFormats(fileType)
    case Category(table) =>
      var keys := Keys(table);
      Options(seq(|keys|, i requires 0 <= i < |keys| => OptionFor(keys[i])))
    case Everything(_) => KeyLists(Keys(AudioFormats), Keys(VideoFormats))
  }

  /** Every format offered to the frontend can be converted to and from. */
  lemma FrontendOptionsConvertible(fileType: Option<string>, i: int)
    requires GetFormatsForFrontend(fileType).Options?
    requires 0 <= i < |GetFormatsForFrontend(fileType).options|
    ensures GetFormatsForFrontend(fileType).options[i].value in FormatKeys
  {
    CategoryKeys();
    var table := GetSupportedFormats(fileType).formats;
    assert table[i].0 == Keys(table)[i];
  }
}
