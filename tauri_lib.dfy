/**
 * The desktop back end's commands: the MIME type of a file extension, the
 * "Artist - Title" reading of a file stem, the audio-file listing of a
 * folder, and the persisted configuration (API key, playlist, current
 * song index).
 */
module TauriLib {
  import opened Wrappers
  import opened Text
  import Sorting
  import Json

  // ---------------------------------------------------------------------------
  // get_mime_type
  // ---------------------------------------------------------------------------

  /** The MIME type of every extension the table does not list. */
  const DefaultMime: string := "audio/mpeg"

  /** The seven known extensions and their MIME types. */
  const MimeTable: map<string, string> := map[
    "mp3" := "audio/mpeg", "wav" := "audio/wav", "ogg" := "audio/ogg", "flac" := "audio/flac",
    "m4a" := "audio/mp4", "aac" := "audio/aac", "wma" := "audio/x-ms-wma"]

  /** The MIME type of a file extension, matched case-insensitively. */
  function GetMimeType(extension: string): string
  {
    var e := Lower(extension);
    if e in MimeTable then MimeTable[e] else DefaultMime
  }

  /**
   * The extension is matched without regard to case: a listed extension in
   * any case gives its MIME type, and every other extension gives the default.
   */
  lemma GetMimeTypeCases(extension: string)
    ensures GetMimeType(Upper(extension)) == GetMimeType(extension)
    ensures GetMimeType(Lower(extension)) == GetMimeType(extension)
    ensures Lower(extension) in MimeTable ==> GetMimeType(extension) == MimeTable[Lower(extension)]
    ensures Lower(extension) !in MimeTable ==> GetMimeType(extension) == DefaultMime
  {
    LowerOfCase(extension);
  }

  /** Every MIME type given is an audio type. */
  lemma GetMimeTypeIsAudio(extension: string)
    ensures |GetMimeType(extension)| > 6 && GetMimeType(extension)[..6] == "audio/"
  {
  }

  // ---------------------------------------------------------------------------
  // get_file_info: "Artist - Title"
  // ---------------------------------------------------------------------------

  /**
   * The (artist, title) read from a file stem: split at the first " - ",
   * both sides trimmed; a first part made only of digits (a track number,
   * or nothing) gives "Unknown Artist"; a stem without the separator is the
   * title, by "Unknown Artist".
   */
  function ParseFileStem(stem: string): (string, string)
  {
    match Find(stem, Dash)
    case Some(idx) =>
      var first := Trim(Rust, stem[..idx]);
      var second := Trim(Rust, stem[idx + |Dash|..]);
      if AllDigits(first) then (UnknownArtist, second) else (first, second)
    case None => (UnknownArtist, stem)
  }

  /**
   * With a separator at `i` (its first occurrence), the stem is the part
   * before it, the separator and the part after it; the title is the part
   * after it trimmed, and the artist the part before it trimmed unless that
   * is all digits.
   */
  lemma ParseFileStemSplit(stem: string, i: nat)
    requires Find(stem, Dash) == Some(i)
    ensures stem == stem[..i] + Dash + stem[i + |Dash|..]
    ensures !Contains(stem[..i], Dash)
    ensures ParseFileStem(stem).1 == Trim(Rust, stem[i + |Dash|..])
    ensures AllDigits(Trim(Rust, stem[..i])) ==> ParseFileStem(stem).0 == UnknownArtist
    ensures !AllDigits(Trim(Rust, stem[..i])) ==> ParseFileStem(stem).0 == Trim(Rust, stem[..i])
  {
    FindSplits(stem, Dash, i);
    ContainsIff(stem[..i], Dash);
    if Contains(stem[..i], Dash) {
      var j :| OccursAt(stem[..i], Dash, j);
      assert stem[j..j + |Dash|] == stem[..i][j..j + |Dash|];
      assert OccursAt(stem, Dash, j) && j < i;
      assert false;
    }
  }

  /** A stem without the separator is the title, by "Unknown Artist". */
  lemma ParseFileStemWhole(stem: string)
    requires !Contains(stem, Dash)
    ensures ParseFileStem(stem) == (UnknownArtist, stem)
  {
  }

  /**
   * The artist is "Unknown Artist" or a non-empty name with no whitespace at
   * either end that is not a number.
   */
  lemma ParseFileStemArtist(stem: string)
    ensures var a := ParseFileStem(stem).0;
      a == UnknownArtist || (a != [] && !AllDigits(a) && !IsRustSpace(a[0]) && !IsRustSpace(a[|a| - 1]))
  {
    match Find(stem, Dash)
    case Some(idx) =>
      TrimHasNoOuterSpace(Rust, stem[..idx]);
    case None =>
  }

  // ---------------------------------------------------------------------------
  // open_folder_dialog: the audio files of a folder
  // ---------------------------------------------------------------------------

  /** The extensions the folder listing keeps. */
  const AudioExtensions: seq<string> := ["mp3", "wav", "ogg", "flac", "m4a", "aac", "wma"]

  /**
   * Rust `Path::extension` of a directory entry: the text after the last
   * dot of the file name, and none when the name has no dot or only a
   * leading one.
   */
  function PathExtension(path: string): (r: Option<string>)
    ensures r.Some? ==> forall j :: 0 <= j < |r.value| ==> r.value[j] != '.'
  {
    var name := BaseName(path);
    match LastIndexOf(name, '.')
    case None => None
    case Some(p) => if p == 0 then None else Some(name[p + 1..])
  }

  /** An entry the listing keeps: its extension, lower-cased, is an audio extension. */
  predicate IsAudioPath(path: string) {
    var e := PathExtension(path);
    e.Some? && Lower(e.value) in AudioExtensions
  }

  /** The entries with an audio extension, in directory order. */
  function AudioEntries(entries: seq<string>): (r: seq<string>)
    ensures forall j :: 0 <= j < |r| ==> IsAudioPath(r[j])
  {
    if entries == [] then []
    else AudioEntries(entries[..|entries| - 1])
         + if IsAudioPath(entries[|entries| - 1]) then [entries[|entries| - 1]] else []
  }

  function Identity(s: string): string { s }

  /** The folder listing: the audio entries, sorted. */
  function FolderListing(entries: seq<string>): seq<string>
  {
    Sorting.SortBy(AudioEntries(entries), Identity)
  }

  /** Each entry is kept as often as it occurs when it is an audio file, and dropped otherwise. */
  lemma {:induction false} AudioEntriesCount(entries: seq<string>)
    ensures forall x :: multiset(AudioEntries(entries))[x] == if IsAudioPath(x) then multiset(entries)[x] else 0
    decreases |entries|
  {
    if entries != [] {
      var init := entries[..|entries| - 1];
      AudioEntriesCount(init);
      assert entries == init + [entries[|entries| - 1]];
    }
  }

  /**
   * The listing holds exactly the entries with an audio extension, each as
   * often as the directory does, in sorted order.
   */
  lemma FolderListingSpec(entries: seq<string>)
    ensures Sorting.SortedBy(FolderListing(entries), Identity)
    ensures forall x :: multiset(FolderListing(entries))[x] == if IsAudioPath(x) then multiset(entries)[x] else 0
    ensures forall x :: x in FolderListing(entries) <==> x in entries && IsAudioPath(x)
  {
    var kept := AudioEntries(entries);
    Sorting.SortBySorted(kept, Identity);
    Sorting.SortByPermutes(kept, Identity);
    AudioEntriesCount(entries);
    forall x ensures x in FolderListing(entries) <==> x in entries && IsAudioPath(x) {
      assert x in FolderListing(entries) <==> x in multiset(FolderListing(entries));
      assert x in entries <==> x in multiset(entries);
    }
  }

  /** Every extension the listing keeps has its own MIME type. */
  lemma AudioExtensionsHaveMime()
    ensures forall e :: e in AudioExtensions ==> e in MimeTable
  {
  }

  // ---------------------------------------------------------------------------
  // The persisted configuration
  // ---------------------------------------------------------------------------

  /** Rust `i32`. */
  newtype int32 = x: int | -0x8000_0000 <= x < 0x8000_0000

  /** `AppConfig`: each field may be absent from the configuration file. */
  datatype AppConfig = AppConfig(apiKey: Option<string>, playlist: Option<seq<Json.Value>>,
                                 currentSongIndex: Option<int32>)

  /** What a missing or unreadable configuration file decodes to. */
  const DefaultConfig: AppConfig := AppConfig(None, None, None)

  /** The configuration file, as the commands read and rewrite it. */
  class ConfigStore {
    var config: AppConfig

    /** A store without a configuration file. */
    constructor()
      ensures config == DefaultConfig
    {
      config := DefaultConfig;
    }

    /** `get_api_key`: the key, or "" when none is set. */
    method GetApiKey() returns (key: string)
      ensures config.apiKey.Some? ==> key == config.apiKey.value
      ensures config.apiKey.None? ==> key == ""
    {
      key := config.apiKey.GetOr("");
    }

    /** `has_api_key`. */
    method HasApiKey() returns (has: bool)
      ensures has <==> config.apiKey.Some?
    {
      has := config.apiKey.Some?;
    }

    /** `get_playlist`: the saved items, or none when none are saved. */
    method GetPlaylist() returns (items: seq<Json.Value>)
      ensures config.playlist.Some? ==> items == config.playlist.value
      ensures config.playlist.None? ==> items == []
    {
      items := config.playlist.GetOr([]);
    }

    /** `get_current_index`: the saved index, or -1 when none is saved. */
    method GetCurrentIndex() returns (index: int32)
      ensures config.currentSongIndex.Some? ==> index == config.currentSongIndex.value
      ensures config.currentSongIndex.None? ==> index == -1
    {
      index := config.currentSongIndex.GetOr(-1);
    }

    /**
     * Writes `next` back to the file; `writeError` is what the file system
     * reports (nothing when the write succeeds), and a failed write leaves
     * the file as it was.
     */
    method Save(next: AppConfig, writeError: Option<string>) returns (r: Result<bool, string>)
      modifies this
      ensures writeError.None? ==> r == Success(true) && config == next
      ensures writeError.Some? ==> r == Failure(writeError.value) && config == old(config)
    {
      if writeError.Some? {
        return Failure(writeError.value);
      }
      config := next;
      r := Success(true);
    }

    /** `set_api_key`: only the API key changes. */
    method SetApiKey(apiKey: string, writeError: Option<string>) returns (r: Result<bool, string>)
      modifies this
      ensures writeError.None? ==> r == Success(true) && config == old(config).(apiKey := Some(apiKey))
      ensures writeError.Some? ==> r == Failure(writeError.value) && config == old(config)
    {
      var next := config.(apiKey := Some(apiKey));
      r := Save(next, writeError);
    }

    /** `save_playlist`: only the playlist changes. */
    method SavePlaylist(items: seq<Json.Value>, writeError: Option<string>) returns (r: Result<bool, string>)
      modifies this
      ensures writeError.None? ==> r == Success(true) && config == old(config).(playlist := Some(items))
      ensures writeError.Some? ==> r == Failure(writeError.value) && config == old(config)
    {
      var next := config.(playlist := Some(items));
      r := Save(next, writeError);
    }

    /** `save_current_index`: only the current song index changes. */
    method SaveCurrentIndex(index: int32, writeError: Option<string>) returns (r: Result<bool, string>)
      modifies this
      ensures writeError.None? ==> r == Success(true) && config == old(config).(currentSongIndex := Some(index))
      ensures writeError.Some? ==> r == Failure(writeError.value) && config == old(config)
    {
      var next := config.(currentSongIndex := Some(index));
      r := Save(next, writeError);
    }
  }

  /**
   * Each save touches its own field only: two stores holding the same file
   * end up the same after successful saves of all three fields applied in
   * opposite orders.
   */
  method SavesCommute(a: ConfigStore, b: ConfigStore, key: string, items: seq<Json.Value>, index: int32)
    requires a != b && a.config == b.config
    modifies a, b
    ensures a.config == b.config
    ensures a.config == old(a.config).(apiKey := Some(key), playlist := Some(items), currentSongIndex := Some(index))
  {
    var r := a.SetApiKey(key, None);
    r := a.SavePlaylist(items, None);
    r := a.SaveCurrentIndex(index, None);
    r := b.SaveCurrentIndex(index, None);
    r := b.SavePlaylist(items, None);
    r := b.SetApiKey(key, None);
  }
}
