/**
 * The desktop (Electron) main process: the configuration handlers over the
 * JSON configuration file, the MIME type of a file read for playback, and
 * the title and artist read off a file name with the expression
 * `/^(.+?)\s*-\s*(.+)$/`, merged with the tags of the file when it has any.
 */
module ElectronMain {
  import opened Wrappers
  import opened Text
  import Json
  import MetadataService
  import TauriLib

  // ---------------------------------------------------------------------------
  // The configuration file
  // ---------------------------------------------------------------------------

  /** The configuration object, key by key. */
  type Config = map<string, Json.Value>

  const ApiKeyField: string := "apiKey"
  const PlaylistField: string := "playlist"
  const CurrentSongIndexField: string := "currentSongIndex"

  /** `getConfig`: the parsed file, or the empty object when it is missing or does not parse. */
  function LoadConfig(file: Option<Config>): Config
  {
    file.GetOr(map[])
  }

  /** `get-api-key`: the key when it is truthy, "" otherwise. */
  function GetApiKey(c: Config): Json.Value
  {
    if ApiKeyField in c && Json.Truthy(c[ApiKeyField]) then c[ApiKeyField] else Json.JString("")
  }

  /** `has-api-key`: whether the key is truthy. */
  predicate HasApiKey(c: Config) {
    ApiKeyField in c && Json.Truthy(c[ApiKeyField])
  }

  /** `get-playlist`: the playlist when it is truthy, the empty array otherwise. */
  function GetPlaylist(c: Config): Json.Value
  {
    if PlaylistField in c && Json.Truthy(c[PlaylistField]) then c[PlaylistField] else Json.JArray([])
  }

  /** `get-current-index`: the index unless it is missing or null (`??`, not `||`), -1 otherwise. */
  function GetCurrentIndex(c: Config): Json.Value
  {
    if CurrentSongIndexField in c && c[CurrentSongIndexField] != Json.JNull then c[CurrentSongIndexField]
    else Json.JNumber(-1)
  }

  /**
   * The configuration file: its parsed contents, or nothing when it is
   * missing or does not parse.
   */
  class ConfigFile {
    var file: Option<Config>

    /** A first start: there is no configuration file yet. */
    constructor()
      ensures file.None?
    {
      file := None;
    }

    /**
     * A setter handler: reads the configuration, sets one key and writes it
     * back. A failed write is swallowed, so the handler answers `true`
     * either way; an unreadable file is replaced by the one key.
     */
    method SetField(key: string, value: Json.Value, writeFails: bool) returns (ok: bool)
      modifies this
      ensures ok
      ensures writeFails ==> file == old(file)
      ensures !writeFails ==> file == Some(LoadConfig(old(file))[key := value])
    {
      var config := LoadConfig(file);
      config := config[key := value];
      if !writeFails {
        file := Some(config);
      }
      ok := true;
    }

    /** `set-api-key`. */
    method SetApiKey(apiKey: Json.Value, writeFails: bool) returns (ok: bool)
      modifies this
      ensures ok
      ensures writeFails ==> file == old(file)
      ensures !writeFails ==> file == Some(LoadConfig(old(file))[ApiKeyField := apiKey])
    {
      ok := SetField(ApiKeyField, apiKey, writeFails);
    }

    /** `save-playlist`. */
    method SavePlaylist(filePaths: Json.Value, writeFails: bool) returns (ok: bool)
      modifies this
      ensures ok
      ensures writeFails ==> file == old(file)
      ensures !writeFails ==> file == Some(LoadConfig(old(file))[PlaylistField := filePaths])
    {
      ok := SetField(PlaylistField, filePaths, writeFails);
    }

    /** `save-current-index`. */
    method SaveCurrentIndex(index: Json.Value, writeFails: bool) returns (ok: bool)
      modifies this
      ensures ok
      ensures writeFails ==> file == old(file)
      ensures !writeFails ==> file == Some(LoadConfig(old(file))[CurrentSongIndexField := index])
    {
      ok := SetField(CurrentSongIndexField, index, writeFails);
    }
  }

  /**
   * What a getter answers after its setter: the key when truthy (the index
   * unless null, so a saved 0 comes back as 0), and the default otherwise.
   */
  lemma SetThenGet(c: Config, v: Json.Value)
    ensures GetApiKey(c[ApiKeyField := v]) == if Json.Truthy(v) then v else Json.JString("")
    ensures HasApiKey(c[ApiKeyField := v]) <==> Json.Truthy(v)
    ensures GetPlaylist(c[PlaylistField := v]) == if Json.Truthy(v) then v else Json.JArray([])
    ensures GetCurrentIndex(c[CurrentSongIndexField := v]) == if v == Json.JNull then Json.JNumber(-1) else v
  {
  }

  /** Each setter's key is read by its own getters only. */
  lemma SettersIndependent(c: Config, v: Json.Value)
    ensures GetPlaylist(c[ApiKeyField := v]) == GetPlaylist(c)
    ensures GetCurrentIndex(c[ApiKeyField := v]) == GetCurrentIndex(c)
    ensures GetApiKey(c[PlaylistField := v]) == GetApiKey(c) && HasApiKey(c[PlaylistField := v]) == HasApiKey(c)
    ensures GetCurrentIndex(c[PlaylistField := v]) == GetCurrentIndex(c)
    ensures GetApiKey(c[CurrentSongIndexField := v]) == GetApiKey(c)
    ensures HasApiKey(c[CurrentSongIndexField := v]) == HasApiKey(c)
    ensures GetPlaylist(c[CurrentSongIndexField := v]) == GetPlaylist(c)
  {
  }

  /** Without a readable file every getter answers its default. */
  lemma EmptyConfigDefaults()
    ensures GetApiKey(LoadConfig(None)) == Json.JString("") && !HasApiKey(LoadConfig(None))
    ensures GetPlaylist(LoadConfig(None)) == Json.JArray([])
    ensures GetCurrentIndex(LoadConfig(None)) == Json.JNumber(-1)
  {
  }

  // ---------------------------------------------------------------------------
  // read-file-buffer: the MIME type
  // ---------------------------------------------------------------------------

  /**
   * Node's `path.extname` on a '/'-separated path: the base name from its
   * last dot on, and "" when the name has no dot, only a leading one, or is
   * "..".
   */
  function ExtName(path: string): (ext: string)
    ensures ext == [] || (ext[0] == '.' && forall j :: 1 <= j < |ext| ==> ext[j] != '.' && ext[j] != '/')
  {
    var name := BaseName(path);
    match LastIndexOf(name, '.')
    case None => ""
    case Some(p) => if p == 0 || name == ".." then "" else name[p..]
  }

  /** The MIME types by lower-cased extension, dot included. */
  const MimeTypes: map<string, string> := map[
    ".mp3" := "audio/mpeg", ".wav" := "audio/wav", ".ogg" := "audio/ogg", ".flac" := "audio/flac",
    ".m4a" := "audio/mp4", ".aac" := "audio/aac", ".wma" := "audio/x-ms-wma"]

  /** The MIME type of a file read for playback, from its lower-cased extension. */
  function MimeTypeOf(path: string): string
  {
    MimeTypeOfExt(ExtName(path))
  }

  /** `mimeTypes[ext.toLowerCase()] || "audio/mpeg"`. */
  function MimeTypeOfExt(ext: string): string
  {
    var e := Lower(ext);
    if e in MimeTypes then MimeTypes[e] else TauriLib.DefaultMime
  }

  /** The table is the desktop Rust back end's table with a dot in front of each key. */
  lemma MimeTypesDotted(e: string)
    ensures ("." + e in MimeTypes) <==> e in TauriLib.MimeTable
    ensures e in TauriLib.MimeTable ==> MimeTypes["." + e] == TauriLib.MimeTable[e]
  {
    if e in TauriLib.MimeTable {
      DottedKeyListed(e);
    }
    if "." + e in MimeTypes {
      ListedKeyDotted(e);
    }
  }

  /** Each key of the Rust table, with a dot in front, is a key of this one, for the same type. */
  lemma DottedKeyListed(e: string)
    requires e in TauriLib.MimeTable
    ensures "." + e in MimeTypes && MimeTypes["." + e] == TauriLib.MimeTable[e]
  {
    var k := "." + e;
    if e == "mp3" {
      assert k == ".mp3";
    } else if e == "wav" {
      assert k == ".wav";
    } else if e == "ogg" {
      assert k == ".ogg";
    } else if e == "flac" {
      assert k == ".flac";
    } else if e == "m4a" {
      assert k == ".m4a";
    } else if e == "aac" {
      assert k == ".aac";
    } else {
      assert k == ".wma";
    }
  }

  /** Each key of this table is a key of the Rust table with a dot in front. */
  lemma ListedKeyDotted(e: string)
    requires "." + e in MimeTypes
    ensures e in TauriLib.MimeTable
  {
    var k := "." + e;
    assert e == k[1..];
    if k == ".mp3" {
      assert k[1..] == "mp3";
    } else if k == ".wav" {
      assert k[1..] == "wav";
    } else if k == ".ogg" {
      assert k[1..] == "ogg";
    } else if k == ".flac" {
      assert k[1..] == "flac";
    } else if k == ".m4a" {
      assert k[1..] == "m4a";
    } else if k == ".aac" {
      assert k[1..] == "aac";
    } else {
      assert k[1..] == "wma";
    }
  }

  /**
   * The extension is matched without regard to case: a listed one gives its
   * type, anything else "audio/mpeg".
   */
  lemma MimeTypeCases(path: string)
    ensures Lower(ExtName(path)) in MimeTypes ==> MimeTypeOf(path) == MimeTypes[Lower(ExtName(path))]
    ensures Lower(ExtName(path)) !in MimeTypes ==> MimeTypeOf(path) == "audio/mpeg"
    ensures ExtName(path) == [] ==> MimeTypeOf(path) == "audio/mpeg"
  {
  }

  /** Without an extension both desktop back ends fall back to "audio/mpeg". */
  lemma NoExtensionMime()
    ensures Lower([]) == [] && [] !in MimeTypes
    ensures TauriLib.GetMimeType("mp3") == TauriLib.DefaultMime && TauriLib.GetMimeType([]) == TauriLib.DefaultMime
  {
    assert Lower("mp3") == "mp3";
  }

  /**
   * Both desktop back ends give a file the same MIME type: the Rust one
   * looks its extension up without the dot and takes "mp3" when it has none.
   */
  lemma MimeTypesAgree(path: string)
    ensures MimeTypeOf(path) == TauriLib.GetMimeType(TauriLib.PathExtension(path).GetOr("mp3"))
  {
    ExtNameIsDottedExtension(path);
    if ExtName(path) == [] {
      NoExtensionMime();
    } else {
      MimeTypeOfDotted(TauriLib.PathExtension(path).value);
    }
  }

  /** The extension `.e` has the Rust back end's MIME type of `e`. */
  lemma MimeTypeOfDotted(e: string)
    ensures MimeTypeOfExt("." + e) == TauriLib.GetMimeType(e)
  {
    assert Lower("." + e) == "." + Lower(e);
    MimeTypesDotted(Lower(e));
  }

  /**
   * Node's extension is the Rust one with a dot in front; where Node has
   * none, Rust has none or an empty one.
   */
  lemma ExtNameIsDottedExtension(path: string)
    ensures ExtName(path) == [] ==> TauriLib.PathExtension(path).None? || TauriLib.PathExtension(path) == Some([])
    ensures ExtName(path) != [] ==> TauriLib.PathExtension(path).Some? && ExtName(path) == "." + TauriLib.PathExtension(path).value
  {
    var name := BaseName(path);
    match LastIndexOf(name, '.')
    case None =>
    case Some(p) =>
      if p != 0 && name == ".." {
        assert name[p + 1..] == [];
      } else if p != 0 {
        assert name[p..] == "." + name[p + 1..];
      }
  }

  // ---------------------------------------------------------------------------
  // get-file-info and extract-metadata: `/^(.+?)\s*-\s*(.+)$/`
  // ---------------------------------------------------------------------------

  /** The length of the run of `\s` characters of `s` starting at `i`. */
  function SpaceRun(s: string, i: nat): (n: nat)
    requires i <= |s|
    ensures i + n <= |s|
    ensures forall j :: i <= j < i + n ==> IsJsSpace(s[j])
    ensures i + n == |s| || !IsJsSpace(s[i + n])
    decreases |s| - i
  {
    if i < |s| && IsJsSpace(s[i]) then 1 + SpaceRun(s, i + 1) else 0
  }

  /**
   * `\s*(.+)$` from `start`, where the `m` characters from `start` are
   * spaces that `\s*` took greedily: it gives characters back, one at a
   * time, until the rest is non-empty and crosses no line terminator.
   */
  function RestGroup(s: string, start: nat, m: nat): Option<string>
    requires start + m <= |s|
    decreases m
  {
    if start + m < |s| && NoLineTerminator(s[start + m..]) then Some(s[start + m..])
    else if m == 0 then None
    else RestGroup(s, start, m - 1)
  }

  /**
   * The second group is a non-empty suffix on one line that starts at most
   * `m` characters after `start`, and there is one whenever the text from
   * `start` is non-empty and on one line.
   */
  lemma {:induction false} RestGroupSpec(s: string, start: nat, m: nat)
    requires start + m <= |s|
    ensures var r := RestGroup(s, start, m); r.Some? ==>
      && 1 <= |r.value| <= |s| - start && |s| - |r.value| <= start + m
      && r.value == s[|s| - |r.value|..] && NoLineTerminator(r.value)
    ensures start < |s| && NoLineTerminator(s[start..]) ==> RestGroup(s, start, m).Some?
    decreases m
  {
    if !(start + m < |s| && NoLineTerminator(s[start + m..])) && m > 0 {
      RestGroupSpec(s, start, m - 1);
    }
  }

  /** `\s*-\s*(.+)$` after a first group that ends at `end`: the second group, if it matches. */
  function AfterFirst(s: string, end: nat): Option<string>
    requires end <= |s|
  {
    var q := end + SpaceRun(s, end);
    if q < |s| && s[q] == '-' then RestGroup(s, q + 1, SpaceRun(s, q + 1)) else None
  }

  /**
   * The lazy `(.+?)`: the first group `s[..end]` grows one character at a
   * time, never over a line terminator, until the rest of the expression
   * matches after it.
   */
  function LazyMatch(s: string, end: nat): Option<(string, string)>
    requires 1 <= end
    decreases |s| + 1 - end
  {
    if end > |s| || IsLineTerminator(s[end - 1]) then None
    else match AfterFirst(s, end)
      case Some(second) => Some((s[..end], second))
      case None => LazyMatch(s, end + 1)
  }

  /** `s.match(/^(.+?)\s*-\s*(.+)$/)`: the two groups, or nothing. */
  function DashMatch(s: string): Option<(string, string)>
  {
    LazyMatch(s, 1)
  }

  /** The first '-' at or after `i` with a character after it. */
  function InnerDashFrom(s: string, i: nat): (r: Option<nat>)
    ensures r.Some? ==>
      && i <= r.value && r.value + 1 < |s| && s[r.value] == '-'
      && forall j :: i <= j < r.value ==> s[j] != '-'
    ensures r.None? ==> forall j :: i <= j && j + 1 < |s| ==> s[j] != '-'
    decreases |s| - i
  {
    if i + 1 >= |s| then None else if s[i] == '-' then Some(i) else InnerDashFrom(s, i + 1)
  }

  /** The first '-' with a character on either side of it. */
  function InnerDash(s: string): Option<nat>
  {
    InnerDashFrom(s, 1)
  }

  /** A first group followed by spaces and a dash is followed by the second group after that dash. */
  lemma AfterFirstAtDash(s: string, end: nat, q: nat)
    requires end <= q < |s| && s[q] == '-'
    requires forall j :: end <= j < q ==> IsJsSpace(s[j])
    ensures AfterFirst(s, end) == RestGroup(s, q + 1, SpaceRun(s, q + 1))
  {
    SpaceRunStops(s, end, q);
  }

  /** A run of spaces ends at the first character that is not one. */
  lemma {:induction false} SpaceRunStops(s: string, i: nat, q: nat)
    requires i <= q < |s| && !IsJsSpace(s[q])
    requires forall j :: i <= j < q ==> IsJsSpace(s[j])
    ensures SpaceRun(s, i) == q - i
    decreases q - i
  {
    if i < q {
      SpaceRunStops(s, i + 1, q);
    }
  }

  /** The second group differs from the text after the dash by leading spaces only. */
  lemma RestGroupTrim(s: string, start: nat, m: nat)
    requires start + m <= |s|
    requires forall j :: start <= j < start + m ==> IsJsSpace(s[j])
    ensures RestGroup(s, start, m).Some? ==> Trim(Js, RestGroup(s, start, m).value) == Trim(Js, s[start..])
  {
    RestGroupSpec(s, start, m);
    if RestGroup(s, start, m).Some? {
      var second := RestGroup(s, start, m).value;
      var k := |s| - |second| - start;
      assert s[start..][k..] == second;
      TrimSkipsLeadingSpaces(Js, s[start..], k);
    }
  }

  /** Without an inner dash, no first group is followed by a match. */
  lemma {:induction false} LazyMatchNone(s: string, end: nat)
    requires 1 <= end
    requires InnerDash(s).None?
    ensures LazyMatch(s, end).None?
    decreases |s| + 1 - end
  {
    if end <= |s| && !IsLineTerminator(s[end - 1]) {
      var q := end + SpaceRun(s, end);
      if q < |s| && s[q] == '-' {
        assert q + 1 == |s|;
        assert SpaceRun(s, q + 1) == 0;
      }
      LazyMatchNone(s, end + 1);
    }
  }

  /**
   * A first group ending where only spaces separate it from a dash that
   * starts a second group on one line: the expression matches there.
   */
  lemma LazyMatchAtDash(s: string, end: nat, q: nat)
    requires 1 <= end <= q && q + 1 < |s| && s[q] == '-'
    requires forall j :: end <= j < q ==> IsJsSpace(s[j])
    requires !IsLineTerminator(s[end - 1]) && NoLineTerminator(s[q + 1..])
    ensures LazyMatch(s, end).Some? && LazyMatch(s, end).value.0 == s[..end]
    ensures Trim(Js, LazyMatch(s, end).value.1) == Trim(Js, s[q + 1..])
  {
    AfterFirstAtDash(s, end, q);
    RestGroupAfterDash(s, q);
    LazyMatchFound(s, end, RestGroup(s, q + 1, SpaceRun(s, q + 1)).value);
  }

  /** After a dash followed by text on one line, the second group is that text less leading spaces. */
  lemma RestGroupAfterDash(s: string, q: nat)
    requires q + 1 < |s| && NoLineTerminator(s[q + 1..])
    ensures RestGroup(s, q + 1, SpaceRun(s, q + 1)).Some?
    ensures Trim(Js, RestGroup(s, q + 1, SpaceRun(s, q + 1)).value) == Trim(Js, s[q + 1..])
  {
    RestGroupSpec(s, q + 1, SpaceRun(s, q + 1));
    RestGroupTrim(s, q + 1, SpaceRun(s, q + 1));
  }

  /** The lazy group stops at the first end after which the rest matches. */
  lemma LazyMatchFound(s: string, end: nat, second: string)
    requires 1 <= end <= |s| && !IsLineTerminator(s[end - 1])
    requires AfterFirst(s, end) == Some(second)
    ensures LazyMatch(s, end) == Some((s[..end], second))
  {
  }

  /** The lazy group grows past an end after which the rest does not match. */
  lemma LazyMatchGrows(s: string, end: nat)
    requires 1 <= end <= |s| && !IsLineTerminator(s[end - 1])
    requires AfterFirst(s, end).None?
    ensures LazyMatch(s, end) == LazyMatch(s, end + 1)
  {
  }

  /** A first group followed by a non-space before any dash is not followed by a match. */
  lemma AfterFirstBeforeDash(s: string, end: nat, j: nat, q: nat)
    requires end <= j < q <= |s| && !IsJsSpace(s[j])
    requires forall k :: end <= k < q ==> s[k] != '-'
    ensures AfterFirst(s, end).None?
  {
    assert end + SpaceRun(s, end) <= j;
  }

  /**
   * Before the first inner dash, on a line, the first group is the text up
   * to that dash less the spaces in front of it, and the second group is
   * the text after it less some leading spaces.
   */
  lemma {:induction false} LazyMatchDash(s: string, end: nat, q: nat)
    requires q + 1 < |s| && s[q] == '-' && forall j :: 1 <= j < q ==> s[j] != '-'
    requires NoLineTerminator(s[..q]) && NoLineTerminator(s[q + 1..])
    requires 1 <= end <= q
    ensures LazyMatch(s, end).Some?
    ensures var g := LazyMatch(s, end).value;
      end <= |g.0| <= q && g.0 == s[..|g.0|] && (forall j :: |g.0| <= j < q ==> IsJsSpace(s[j]))
      && Trim(Js, g.1) == Trim(Js, s[q + 1..])
    decreases q - end
  {
    assert !IsLineTerminator(s[end - 1]) by {
      assert s[..q][end - 1] == s[end - 1];
    }
    if forall j :: end <= j < q ==> IsJsSpace(s[j]) {
      LazyMatchAtDash(s, end, q);
    } else {
      var j :| end <= j < q && !IsJsSpace(s[j]);
      AfterFirstBeforeDash(s, end, j, q);
      LazyMatchGrows(s, end);
      LazyMatchDash(s, end + 1, q);
    }
  }

  /** The first group differs from the text before the dash by trailing spaces only. */
  lemma FirstGroupTrim(s: string, first: string, q: nat)
    requires |first| <= q <= |s| && first == s[..|first|]
    requires forall j :: |first| <= j < q ==> IsJsSpace(s[j])
    ensures Trim(Js, first) == Trim(Js, s[..q])
  {
    assert s[..q] == first + s[|first|..q];
    TrimSkipsTrailingSpaces(Js, first, s[|first|..q]);
  }

  /**
   * On a name without line terminators the expression matches exactly when
   * there is an inner dash, and then it splits at the first one: the
   * trimmed groups are the trimmed text before and after it.
   */
  lemma DashMatchSplits(s: string)
    requires NoLineTerminator(s)
    ensures DashMatch(s).None? <==> InnerDash(s).None?
    ensures InnerDash(s).Some? ==> var q := InnerDash(s).value;
      DashMatch(s).Some?
      && Trim(Js, DashMatch(s).value.0) == Trim(Js, s[..q])
      && Trim(Js, DashMatch(s).value.1) == Trim(Js, s[q + 1..])
  {
    if InnerDash(s).None? {
      LazyMatchNone(s, 1);
    } else {
      DashMatchAt(s, InnerDash(s).value);
    }
  }

  /** At the first inner dash `q` of a name on one line, the trimmed groups are the trimmed text around `q`. */
  lemma DashMatchAt(s: string, q: nat)
    requires NoLineTerminator(s) && InnerDash(s) == Some(q)
    ensures DashMatch(s).Some?
    ensures Trim(Js, DashMatch(s).value.0) == Trim(Js, s[..q])
    ensures Trim(Js, DashMatch(s).value.1) == Trim(Js, s[q + 1..])
  {
    NoLineTerminatorSlices(s, q);
    LazyMatchDash(s, 1, q);
    FirstGroupTrim(s, LazyMatch(s, 1).value.0, q);
  }

  /** Both sides of a position of a text on one line are on one line. */
  lemma NoLineTerminatorSlices(s: string, q: nat)
    requires NoLineTerminator(s) && q < |s|
    ensures NoLineTerminator(s[..q]) && NoLineTerminator(s[q + 1..])
  {
    var after := s[q + 1..];
    forall i | 0 <= i < |after| ensures !IsLineTerminator(after[i]) {
      assert after[i] == s[q + 1 + i];
    }
  }

  /** The (title, artist) read off a base name: `defaultTitle` and `defaultArtist`. */
  function NameDefaults(base: string): (string, string)
  {
    match DashMatch(base)
    case None => (base, UnknownArtist)
    case Some(groups) =>
      var first := Trim(Js, groups.0);
      var second := Trim(Js, groups.1);
      if IsNumber(first) then (second, UnknownArtist) else (second, first)
  }

  /**
   * A name on one line with an inner dash gives the trimmed text after the
   * first one as the title and the trimmed text before it as the artist,
   * unless that is a track number, which gives "Unknown Artist"; a name
   * without one is the title, by "Unknown Artist".
   */
  lemma NameDefaultsCases(base: string)
    requires NoLineTerminator(base)
    ensures InnerDash(base).None? ==> NameDefaults(base) == (base, UnknownArtist)
    ensures InnerDash(base).Some? ==> var q := InnerDash(base).value;
      var first := Trim(Js, base[..q]);
      NameDefaults(base) == (Trim(Js, base[q + 1..]), if IsNumber(first) then UnknownArtist else first)
  {
    DashMatchSplits(base);
  }

  /** A non-empty word: no dash and no whitespace of either language. */
  predicate Word(w: string) {
    w != [] && forall i :: 0 <= i < |w| ==> w[i] != '-' && !IsJsSpace(w[i]) && !IsRustSpace(w[i])
  }

  /** A name on one line that neither starts nor ends with whitespace. */
  predicate Unpadded(y: string) {
    y != [] && NoLineTerminator(y) && !IsJsSpace(y[0]) && !IsJsSpace(y[|y| - 1])
  }

  /** A word, a hyphen and the rest: the rest is the title and the word the artist. */
  lemma SplitsAtHyphen(x: string, y: string)
    requires Word(x) && !AllDigits(x) && Unpadded(y)
    ensures NameDefaults(x + "-" + y) == (y, x)
  {
    var s := x + "-" + y;
    assert s[..|x|] == x && s[|x| + 1..] == y;
    assert NoLineTerminator(s) by {
      forall i | 0 <= i < |s| ensures !IsLineTerminator(s[i]) {
        if i < |x| {
          assert s[i] == x[i];
        } else if i > |x| {
          assert s[i] == y[i - |x| - 1];
        }
      }
    }
    assert InnerDash(s) == Some(|x|) by {
      assert s[|x|] == '-' && |x| + 1 < |s|;
      forall j | 1 <= j < |x| ensures s[j] != '-' {
        assert s[j] == x[j];
      }
    }
    NameDefaultsCases(s);
    TrimOfUnpadded(Js, x);
    TrimOfUnpadded(Js, y);
  }

  /** Text without spaces, " - " and the rest: the Rust back end's artist and title. */
  lemma SplitsAtDash(x: string, y: string)
    requires x != [] && !AllDigits(x) && forall i :: 0 <= i < |x| ==> !IsRustSpace(x[i])
    requires y != [] && !IsRustSpace(y[0]) && !IsRustSpace(y[|y| - 1])
    ensures TauriLib.ParseFileStem(x + Dash + y) == (x, y)
  {
    var s := x + Dash + y;
    assert s[..|x|] == x && s[|x| + |Dash|..] == y;
    DashAfterUnspaced(x, y);
    TauriLib.ParseFileStemSplit(s, |x|);
    TrimOfUnpadded(Rust, x);
    TrimOfUnpadded(Rust, y);
  }

  /** The first " - " after text without spaces is the one right after it. */
  lemma DashAfterUnspaced(x: string, y: string)
    requires forall i :: 0 <= i < |x| ==> !IsRustSpace(x[i])
    ensures Find(x + Dash + y, Dash) == Some(|x|)
  {
    var s := x + Dash + y;
    assert OccursAt(s, Dash, |x|);
    forall j | 0 <= j < |x| ensures !OccursAt(s, Dash, j) {
      assert s[j] == x[j];
    }
  }

  /**
   * A hyphen in the artist's name splits the name there: "a-b - c" is the
   * song "b - c" by "a", where the Rust back end's " - " split reads it as
   * "c" by "a-b".
   */
  lemma HyphenatedArtist(a: string, b: string, c: string)
    requires Word(a) && Word(b) && Word(c) && !AllDigits(a)
    ensures NameDefaults(a + "-" + b + " - " + c) == (b + " - " + c, a)
    ensures TauriLib.ParseFileStem(a + "-" + b + " - " + c) == (a + "-" + b, c)
  {
    assert a + "-" + b + " - " + c == a + "-" + (b + Dash + c);
    WordsAroundDash(b, c);
    SplitsAtHyphen(a, b + Dash + c);
    WordsAroundHyphen(a, b);
    SplitsAtDash(a + "-" + b, c);
  }

  /** Two words around " - " make an unpadded name on one line. */
  lemma WordsAroundDash(b: string, c: string)
    requires Word(b) && Word(c)
    ensures Unpadded(b + Dash + c)
  {
    var rest := b + Dash + c;
    assert rest[0] == b[0] && rest[|rest| - 1] == c[|c| - 1];
    forall i | 0 <= i < |rest| ensures !IsLineTerminator(rest[i]) {
      if i < |b| {
        assert rest[i] == b[i];
      } else if i >= |b| + 3 {
        assert rest[i] == c[i - |b| - 3];
      }
    }
  }

  /** Two words around a hyphen have no whitespace and are not a number. */
  lemma WordsAroundHyphen(a: string, b: string)
    requires Word(a) && Word(b)
    ensures var artist := a + "-" + b;
      !AllDigits(artist) && forall i :: 0 <= i < |artist| ==> !IsRustSpace(artist[i])
  {
    var artist := a + "-" + b;
    assert artist[|a|] == '-';
    forall i | 0 <= i < |artist| ensures !IsRustSpace(artist[i]) {
      if i < |a| {
        assert artist[i] == a[i];
      } else if i > |a| {
        assert artist[i] == b[i - |a| - 1];
      }
    }
  }

  /** What `get-file-info` answers. */
  datatype FileInfo = FileInfo(title: string, artist: string, name: string, size: Option<nat>)

  /**
   * `get-file-info` of `path`; `size` is what `fs.statSync` reports, and
   * nothing when it throws, which gives the name without its extension as
   * the title and no size.
   */
  function GetFileInfo(path: string, size: Option<nat>): (info: FileInfo)
    ensures info.name == BaseName(path) && info.size == size
    ensures size.None? ==> info.title == StripJsExtension(BaseName(path)) && info.artist == UnknownArtist
    ensures size.Some? ==> (info.title, info.artist) == NameDefaults(StripJsExtension(BaseName(path)))
  {
    var name := BaseName(path);
    var base := StripJsExtension(name);
    match size
    case None => FileInfo(base, UnknownArtist, name, None)
    case Some(n) =>
      var (title, artist) := NameDefaults(base);
      FileInfo(title, artist, name, Some(n))
  }

  /** The embedded picture of a file: its format and its data, base64-encoded. */
  datatype Picture = Picture(format: string, base64: string)

  /** The tags `jsmediatags` reads from a file; each may be missing. */
  datatype Tags = Tags(title: Option<string>, artist: Option<string>, album: Option<string>, picture: Option<Picture>)

  /** The data URL of a cover picture. */
  function CoverUrl(p: Picture): string
  {
    "data:" + p.format + ";base64," + p.base64
  }

  /**
   * `extract-metadata` of `path`; `read` is what the tag reader reports:
   * the tags on success, nothing on error.
   */
  function ExtractMetadata(path: string, read: Option<Tags>): MetadataService.SongMetadata
  {
    var (defaultTitle, defaultArtist) := NameDefaults(StripJsExtension(BaseName(path)));
    match read
    case Some(tags) =>
      MetadataService.SongMetadata(
        OrDefault(tags.title, defaultTitle), OrDefault(tags.artist, defaultArtist),
        OrDefault(tags.album, UnknownAlbum),
        match tags.picture case Some(p) => Some(CoverUrl(p)) case None => None)
    case None => MetadataService.SongMetadata(defaultTitle, defaultArtist, UnknownAlbum, None)
  }

  /**
   * Each tag is used when it is a non-empty string, and otherwise the
   * value read off the file name, or "Unknown Album"; the cover is the
   * picture's data URL. A failed read gives the name's values and no cover.
   */
  lemma ExtractMetadataMerges(path: string, read: Option<Tags>)
    ensures var (title, artist) := NameDefaults(StripJsExtension(BaseName(path)));
      var m := ExtractMetadata(path, read);
      && (read.None? ==> m == MetadataService.SongMetadata(title, artist, UnknownAlbum, None))
      && (read.Some? ==> var t := read.value;
            && m.title == (if t.title.Some? && t.title.value != "" then t.title.value else title)
            && m.artist == (if t.artist.Some? && t.artist.value != "" then t.artist.value else artist)
            && m.album == (if t.album.Some? && t.album.value != "" then t.album.value else UnknownAlbum)
            && (t.picture.None? <==> m.cover.None?)
            && (t.picture.Some? ==> m.cover == Some(CoverUrl(t.picture.value))))
  {
  }

  /** A file without usable tags gets what a failed read gives, which is what `get-file-info` reads. */
  lemma ExtractMetadataFallback(path: string, size: nat)
    ensures ExtractMetadata(path, Some(Tags(None, Some(""), None, None))) == ExtractMetadata(path, None)
    ensures var info := GetFileInfo(path, Some(size)); var m := ExtractMetadata(path, None);
      m.title == info.title && m.artist == info.artist
  {
  }

  /** The cover URL names the picture's format and carries its data after the base64 marker. */
  lemma CoverUrlParts(p: Picture)
    ensures var u := CoverUrl(p);
      u[..5] == "data:" && u[5..5 + |p.format|] == p.format
      && u[5 + |p.format|..] == ";base64," + p.base64
  {
  }
}
