/**
 * The web build's metadata reader: it has no tag parser, so it reads the
 * title and artist off the file name ("Artist - Title" or "01 - Title"),
 * upper-cased, with no album and no cover.
 */
module MetadataService {
  import opened Wrappers
  import opened Text

  /** The metadata the player shows for a song. */
  datatype SongMetadata = SongMetadata(title: string, artist: string, album: string, cover: Option<string>)

  /** The artist this reader gives when the name has none. */
  const UpperUnknownArtist: string := "UNKNOWN ARTIST"

  /** The base name (the extension dropped) split at every '-', each part trimmed. */
  function Parts(name: string): (parts: seq<string>)
    ensures |parts| >= 1
  {
    var pieces := Split(StripJsExtension(name), "-");
    seq(|pieces|, j requires 0 <= j < |pieces| => Trim(Js, pieces[j]))
  }

  /** The metadata chosen from the trimmed parts of a base name. */
  function FromParts(parts: seq<string>): SongMetadata
    requires |parts| >= 1
  {
    var second := if |parts| > 1 then parts[1] else "";
    var title := Upper(if second != "" then second else parts[0]);
    var artist := Upper(if second != "" then parts[0] else UpperUnknownArtist);
    if IsNumber(parts[0]) && second != "" then
      SongMetadata(Upper(second), UpperUnknownArtist, UnknownAlbum, None)
    else
      SongMetadata(title, artist, UnknownAlbum, None)
  }

  /** `extractMetadata` of a file named `name`. */
  function ExtractMetadata(name: string): SongMetadata
  {
    FromParts(Parts(name))
  }

  /**
   * The first part is the base name up to its first '-' (all of it when it
   * has none), trimmed; the second, when there is one, is the text after
   * that '-' up to the next one, trimmed.
   */
  lemma PartsOf(name: string)
    ensures var base := StripJsExtension(name);
      && (Find(base, "-").None? ==> Parts(name) == [Trim(Js, base)])
      && (Find(base, "-").Some? ==>
            var i := Find(base, "-").value;
            |Parts(name)| >= 2 && Parts(name)[0] == Trim(Js, base[..i])
            && Parts(name)[1] == Trim(Js, Split(base[i + 1..], "-")[0]))
  {
    var base := StripJsExtension(name);
    var pieces := Split(base, "-");
    SplitHead(base, "-");
    match Find(base, "-")
    case None =>
    case Some(i) =>
      assert pieces == [base[..i]] + Split(base[i + 1..], "-");
  }

  /**
   * With a non-empty second part, the title is that part and the artist the
   * first part, unless the first part is a track number, which gives
   * "UNKNOWN ARTIST"; otherwise the title is the first part and the artist
   * "UNKNOWN ARTIST". Everything is upper-cased.
   */
  lemma FromPartsCases(parts: seq<string>)
    requires |parts| >= 1
    ensures var m := FromParts(parts);
      && (|parts| > 1 && parts[1] != "" ==>
            m.title == Upper(parts[1])
            && m.artist == if IsNumber(parts[0]) then UpperUnknownArtist else Upper(parts[0]))
      && (|parts| == 1 || parts[1] == "" ==> m.title == Upper(parts[0]) && m.artist == UpperUnknownArtist)
  {
    assert Upper(UpperUnknownArtist) == UpperUnknownArtist;
  }

  /** Parts after the second are ignored: parts that agree on the first two give the same metadata. */
  lemma FromPartsFirstTwo(p: seq<string>, q: seq<string>)
    requires |p| >= 2 && |q| >= 2 && p[0] == q[0] && p[1] == q[1]
    ensures FromParts(p) == FromParts(q)
  {
  }

  /** The title and artist are upper case; the album is "Unknown Album" and there is no cover. */
  lemma FromPartsShape(parts: seq<string>)
    requires |parts| >= 1
    ensures IsUpperCase(FromParts(parts).title) && IsUpperCase(FromParts(parts).artist)
    ensures FromParts(parts).album == UnknownAlbum && FromParts(parts).cover.None?
  {
    UpperIsUpperCase(parts[0]);
    if |parts| > 1 {
      UpperIsUpperCase(parts[1]);
    }
    UpperIsUpperCase(UpperUnknownArtist);
  }

  /** Every file name gets upper-case title and artist, "Unknown Album" and no cover. */
  lemma ExtractMetadataShape(name: string)
    ensures IsUpperCase(ExtractMetadata(name).title) && IsUpperCase(ExtractMetadata(name).artist)
    ensures ExtractMetadata(name).album == UnknownAlbum && ExtractMetadata(name).cover.None?
  {
    FromPartsShape(Parts(name));
  }
}
