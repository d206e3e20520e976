/**
 * The library views of app/hooks/useLibrary.ts: `toTitleCase`, and the
 * `albums` and `artists` lists computed from the playlist.
 *
 * Both lists are built by one pass over the playlist that fills a map in
 * insertion order (a JavaScript `Map`), then sorted by name. Here the pass
 * is a method with a loop over a `seq` of keys and a `map` of records,
 * proved equal to a reference definition: for each key, in order of first
 * appearance, the record made from the indices of all items with that key.
 */
module UseLibrary {

  import opened Wrappers
  import opened Text
  import Sorting

  // ---------------------------------------------------------------------------
  // toTitleCase
  // ---------------------------------------------------------------------------

  /**
   * `s.slice(i).replace(/\w\S*\/g, txt => upper(txt[0]) + lower(txt.slice(1)))`,
   * outside a word: a `\w` character starts a word and is upper-cased, any
   * other character is kept.
   */
  function TitleFrom(s: string, i: nat): (r: string)
    requires i <= |s|
    ensures |r| == |s| - i
    decreases |s| - i, 0
  {
    if i == |s| then []
    else if IsWordChar(s[i]) then [UpperChar(s[i])] + LowerRun(s, i + 1)
    else [s[i]] + TitleFrom(s, i + 1)
  }

  /**
   * The same replacement inside a word: `\S*` runs on, lower-cased, up to
   * the next whitespace, where the scan outside words resumes.
   */
  function LowerRun(s: string, k: nat): (r: string)
    requires k <= |s|
    ensures |r| == |s| - k
    decreases |s| - k, 1
  {
    if k == |s| then []
    else if IsJsSpace(s[k]) then TitleFrom(s, k)
    else [LowerChar(s[k])] + LowerRun(s, k + 1)
  }

  /** `toTitleCase(str)`. */
  function TitleCase(s: string): string {
    TitleFrom(s, 0)
  }

  /** Position `j` lies inside a word that began before it. */
  predicate InWord(s: string, j: nat)
    requires j < |s|
    decreases j
  {
    j > 0 && !IsJsSpace(s[j]) && (IsWordChar(s[j - 1]) || InWord(s, j - 1))
  }

  /** Reference definition: what title-casing makes of the character at `j`. */
  function TitleCaseChar(s: string, j: nat): char
    requires j < |s|
  {
    if InWord(s, j) then LowerChar(s[j])
    else if IsWordChar(s[j]) then UpperChar(s[j])
    else s[j]
  }

  /** The character before `k` starts or continues a word. */
  predicate WordBefore(s: string, k: nat)
    requires k <= |s|
  {
    k > 0 && (IsWordChar(s[k - 1]) || InWord(s, k - 1))
  }

  /** Outside a word, title-casing from `i` changes each character as the reference definition says. */
  lemma {:induction false} TitleFromAt(s: string, i: nat, j: nat)
    requires i <= j < |s| && !InWord(s, i)
    ensures TitleFrom(s, i)[j - i] == TitleCaseChar(s, j)
    decreases |s| - i, 0
  {
    if j > i {
      var t := TitleFrom(s, i);
      if IsWordChar(s[i]) {
        assert t == [UpperChar(s[i])] + LowerRun(s, i + 1);
        assert WordBefore(s, i + 1);
        LowerRunAt(s, i + 1, j);
      } else {
        assert t == [s[i]] + TitleFrom(s, i + 1);
        assert !InWord(s, i + 1);
        TitleFromAt(s, i + 1, j);
      }
    }
  }

  /** Inside a word, title-casing from `k` changes each character as the reference definition says. */
  lemma {:induction false} LowerRunAt(s: string, k: nat, j: nat)
    requires k <= j < |s| && WordBefore(s, k)
    ensures LowerRun(s, k)[j - k] == TitleCaseChar(s, j)
    decreases |s| - k, 1
  {
    if IsJsSpace(s[k]) {
      assert LowerRun(s, k) == TitleFrom(s, k);
      assert !InWord(s, k);
      TitleFromAt(s, k, j);
    } else if j > k {
      assert LowerRun(s, k) == [LowerChar(s[k])] + LowerRun(s, k + 1);
      assert InWord(s, k);
      assert WordBefore(s, k + 1);
      LowerRunAt(s, k + 1, j);
    }
  }

  /** Title-casing changes each character as the reference definition says, and nothing else. */
  lemma TitleCaseAt(s: string, j: nat)
    requires j < |s|
    ensures |TitleCase(s)| == |s| && TitleCase(s)[j] == TitleCaseChar(s, j)
  {
    TitleFromAt(s, 0, j);
  }

  /** Case mapping keeps whether a character is a word character or whitespace. */
  lemma CaseKeepsClasses(c: char)
    ensures IsWordChar(UpperChar(c)) == IsWordChar(c) && IsWordChar(LowerChar(c)) == IsWordChar(c)
    ensures IsJsSpace(UpperChar(c)) == IsJsSpace(c) && IsJsSpace(LowerChar(c)) == IsJsSpace(c)
  {
  }

  lemma {:induction false} InWordOfTitleCase(s: string, j: nat)
    requires j < |s|
    ensures |TitleCase(s)| == |s| && InWord(TitleCase(s), j) == InWord(s, j)
    decreases j
  {
    var t := TitleCase(s);
    TitleCaseAt(s, j);
    CaseKeepsClasses(s[j]);
    if j > 0 {
      TitleCaseAt(s, j - 1);
      CaseKeepsClasses(s[j - 1]);
      InWordOfTitleCase(s, j - 1);
    }
  }

  /** Title-casing twice is title-casing once. */
  lemma TitleCaseIdempotent(s: string)
    ensures TitleCase(TitleCase(s)) == TitleCase(s)
  {
    var t := TitleCase(s);
    if |s| > 0 {
      TitleCaseAt(s, 0);
    }
    forall j | 0 <= j < |t| ensures TitleCase(t)[j] == t[j] {
      TitleCaseAt(s, j);
      TitleCaseAt(t, j);
      InWordOfTitleCase(s, j);
      CaseKeepsClasses(s[j]);
    }
    if |s| > 0 {
      TitleCaseAt(t, 0);
    }
  }

  /** Title-casing only changes letter case. */
  lemma TitleCaseLower(s: string)
    ensures Lower(TitleCase(s)) == Lower(s)
  {
    if |s| > 0 {
      TitleCaseAt(s, 0);
    }
    forall j | 0 <= j < |s| ensures Lower(TitleCase(s))[j] == Lower(s)[j] {
      TitleCaseAt(s, j);
    }
  }

  /** No ASCII letters. */
  predicate NoLetters(s: string) {
    forall j :: 0 <= j < |s| ==> !('a' <= s[j] <= 'z') && !('A' <= s[j] <= 'Z')
  }

  /** Text without ASCII letters is left as it is. */
  lemma TitleCaseNoLetters(s: string)
    requires NoLetters(s)
    ensures TitleCase(s) == s
  {
    if |s| > 0 {
      TitleCaseAt(s, 0);
    }
    forall j | 0 <= j < |s| ensures TitleCase(s)[j] == s[j] {
      TitleCaseAt(s, j);
    }
  }

  // ---------------------------------------------------------------------------
  // Playlist items and the grouping they share
  // ---------------------------------------------------------------------------

  /** The cached metadata fields of a playlist entry that the player and the library views read; each may be missing. */
  datatype Metadata = Metadata(title: Option<string>, artist: Option<string>, album: Option<string>, cover: Option<string>)

  /** A playlist entry; only some entries carry metadata. */
  datatype Item = Item(name: string, metadata: Option<Metadata>)

  /** The title-cased album name, "Unknown Album" when there is none. */
  function AlbumName(m: Metadata): string {
    TitleCase(OrDefault(m.album, UnknownAlbum))
  }

  /** The title-cased artist name, "Unknown Artist" when there is none. */
  function ArtistName(m: Metadata): string {
    TitleCase(OrDefault(m.artist, UnknownArtist))
  }

  /** Item `i` has metadata, and its metadata has key `k`. */
  predicate HasKey<K(==,!new)>(items: seq<Item>, i: nat, keyOf: Metadata -> K, k: K)
    requires i < |items|
  {
    items[i].metadata.Some? && keyOf(items[i].metadata.value) == k
  }

  /** Every index is an item that has metadata. */
  predicate Tracks(items: seq<Item>, idx: seq<nat>) {
    forall j :: 0 <= j < |idx| ==> idx[j] < |items| && items[idx[j]].metadata.Some?
  }

  /** The indices below `n`, in increasing order, of the items with key `k`. */
  function IndicesWith<K(==,!new)>(items: seq<Item>, n: nat, keyOf: Metadata -> K, k: K): (r: seq<nat>)
    requires n <= |items|
    ensures Tracks(items, r)
  {
    if n == 0 then []
    else
      var r0 := IndicesWith(items, n - 1, keyOf, k);
      if HasKey(items, n - 1, keyOf, k) then r0 + [n - 1] else r0
  }

  /** The indices are exactly those below `n` of the items with key `k`, strictly increasing. */
  lemma {:induction false} IndicesWithSpec<K(!new)>(items: seq<Item>, n: nat, keyOf: Metadata -> K, k: K)
    requires n <= |items|
    ensures forall j :: 0 <= j < |IndicesWith(items, n, keyOf, k)| ==>
      IndicesWith(items, n, keyOf, k)[j] < n && HasKey(items, IndicesWith(items, n, keyOf, k)[j], keyOf, k)
    ensures forall i, j :: 0 <= i < j < |IndicesWith(items, n, keyOf, k)| ==>
      IndicesWith(items, n, keyOf, k)[i] < IndicesWith(items, n, keyOf, k)[j]
    ensures forall i :: 0 <= i < n && HasKey(items, i, keyOf, k) ==> i in IndicesWith(items, n, keyOf, k)
    decreases n
  {
    if n > 0 {
      IndicesWithSpec(items, n - 1, keyOf, k);
    }
  }

  lemma IndicesWithStep<K(!new)>(items: seq<Item>, n: nat, keyOf: Metadata -> K, k: K)
    requires n < |items|
    ensures IndicesWith(items, n + 1, keyOf, k) ==
      if HasKey(items, n, keyOf, k) then IndicesWith(items, n, keyOf, k) + [n] else IndicesWith(items, n, keyOf, k)
  {
  }

  /** The keys of the first `n` items, in order of first appearance. */
  function KeysOf<K(==,!new)>(items: seq<Item>, n: nat, keyOf: Metadata -> K): (ks: seq<K>)
    requires n <= |items|
    ensures forall k :: k in ks ==> IndicesWith(items, n, keyOf, k) != []
  {
    if n == 0 then []
    else
      var ks0 := KeysOf(items, n - 1, keyOf);
      match items[n - 1].metadata
      case Some(m) => if keyOf(m) in ks0 then ks0 else ks0 + [keyOf(m)]
      case None => ks0
  }

  /** A key is listed exactly when some item has it. */
  lemma {:induction false} KeysOfSpec<K(!new)>(items: seq<Item>, n: nat, keyOf: Metadata -> K)
    requires n <= |items|
    ensures forall k :: k in KeysOf(items, n, keyOf) <==> IndicesWith(items, n, keyOf, k) != []
    decreases n
  {
    if n > 0 {
      KeysOfSpec(items, n - 1, keyOf);
    }
  }

  lemma KeysOfAbsent<K(!new)>(items: seq<Item>, n: nat, keyOf: Metadata -> K, k: K)
    requires n <= |items| && k !in KeysOf(items, n, keyOf)
    ensures IndicesWith(items, n, keyOf, k) == []
  {
    KeysOfSpec(items, n, keyOf);
  }

  /** No key is listed twice. */
  lemma {:induction false} KeysOfDistinct<K(!new)>(items: seq<Item>, n: nat, keyOf: Metadata -> K)
    requires n <= |items|
    ensures forall i, j :: 0 <= i < j < |KeysOf(items, n, keyOf)| ==> KeysOf(items, n, keyOf)[i] != KeysOf(items, n, keyOf)[j]
    decreases n
  {
    if n > 0 {
      KeysOfDistinct(items, n - 1, keyOf);
    }
  }

  /** The key of every item with metadata is listed. */
  lemma {:induction false} KeysOfCover<K(!new)>(items: seq<Item>, n: nat, keyOf: Metadata -> K)
    requires n <= |items|
    ensures forall i :: 0 <= i < n && items[i].metadata.Some? ==> keyOf(items[i].metadata.value) in KeysOf(items, n, keyOf)
    decreases n
  {
    if n > 0 {
      KeysOfCover(items, n - 1, keyOf);
    }
  }

  /** Number of items among the first `n` that have metadata. */
  function WithMetadata(items: seq<Item>, n: nat): nat
    requires n <= |items|
  {
    if n == 0 then 0
    else WithMetadata(items, n - 1) + if items[n - 1].metadata.Some? then 1 else 0
  }

  /** How often `k` occurs in `ks`. */
  function Occurrences<K(==,!new)>(ks: seq<K>, k: K): nat {
    if ks == [] then 0
    else Occurrences(ks[..|ks| - 1], k) + if ks[|ks| - 1] == k then 1 else 0
  }

  lemma {:induction false} OccurrencesOfDistinct<K(!new)>(ks: seq<K>, k: K)
    requires forall i, j :: 0 <= i < j < |ks| ==> ks[i] != ks[j]
    ensures Occurrences(ks, k) == if k in ks then 1 else 0
    decreases |ks|
  {
    if ks != [] {
      var init := ks[..|ks| - 1];
      OccurrencesOfDistinct(init, k);
      assert ks == init + [ks[|ks| - 1]];
    }
  }

  /** Total number of indices, below `n`, of the items with a key in `ks`. */
  function IndexTotal<K(==,!new)>(items: seq<Item>, n: nat, keyOf: Metadata -> K, ks: seq<K>): nat
    requires n <= |items|
  {
    if ks == [] then 0
    else IndexTotal(items, n, keyOf, ks[..|ks| - 1]) + |IndicesWith(items, n, keyOf, ks[|ks| - 1])|
  }

  lemma {:induction false} IndexTotalStep<K(!new)>(items: seq<Item>, n: nat, keyOf: Metadata -> K, ks: seq<K>)
    requires 0 < n <= |items|
    ensures IndexTotal(items, n, keyOf, ks) == IndexTotal(items, n - 1, keyOf, ks) +
      match items[n - 1].metadata
      case Some(m) => Occurrences(ks, keyOf(m))
      case None => 0
    decreases |ks|
  {
    if ks != [] {
      IndexTotalStep(items, n, keyOf, ks[..|ks| - 1]);
    }
  }

  /** With distinct keys covering the first `n` items, the index total counts every item with metadata once. */
  lemma {:induction false} IndexTotalCounts<K(!new)>(items: seq<Item>, n: nat, keyOf: Metadata -> K, ks: seq<K>)
    requires n <= |items|
    requires forall i, j :: 0 <= i < j < |ks| ==> ks[i] != ks[j]
    requires forall i :: 0 <= i < n && items[i].metadata.Some? ==> keyOf(items[i].metadata.value) in ks
    ensures IndexTotal(items, n, keyOf, ks) == WithMetadata(items, n)
    decreases n
  {
    if n == 0 {
      IndexTotalEmpty(items, keyOf, ks);
    } else {
      IndexTotalStep(items, n, keyOf, ks);
      IndexTotalCounts(items, n - 1, keyOf, ks);
      if items[n - 1].metadata.Some? {
        OccurrencesOfDistinct(ks, keyOf(items[n - 1].metadata.value));
      }
    }
  }

  lemma {:induction false} IndexTotalEmpty<K(!new)>(items: seq<Item>, keyOf: Metadata -> K, ks: seq<K>)
    ensures IndexTotal(items, 0, keyOf, ks) == 0
    decreases |ks|
  {
    if ks != [] {
      IndexTotalEmpty(items, keyOf, ks[..|ks| - 1]);
    }
  }

  // ---------------------------------------------------------------------------
  // albums
  // ---------------------------------------------------------------------------

  /** `AlbumInfo`. */
  datatype Album = Album(name: string, artist: string, cover: Option<string>, trackIndices: seq<nat>)

  function AlbumTitle(a: Album): string { a.name }

  function TrackCount(a: Album): nat { |a.trackIndices| }

  /** The album of the tracks `idx`: name, artist and cover come from the first track. */
  function AlbumOf(items: seq<Item>, idx: seq<nat>): (a: Album)
    requires idx != [] && Tracks(items, idx)
    ensures a.trackIndices == idx
  {
    var m := items[idx[0]].metadata.value;
    Album(AlbumName(m), ArtistName(m), m.cover, idx)
  }

  lemma AlbumOfAppend(items: seq<Item>, idx: seq<nat>, i: nat)
    requires idx != [] && Tracks(items, idx) && i < |items| && items[i].metadata.Some?
    ensures Tracks(items, idx + [i])
    ensures AlbumOf(items, idx + [i]) == AlbumOf(items, idx).(trackIndices := idx + [i])
  {
    assert (idx + [i])[0] == idx[0];
  }

  /** The albums of the keys `ks`, in the order of `ks`. */
  function AlbumList<K(==,!new)>(items: seq<Item>, keyOf: Metadata -> K, ks: seq<K>): (r: seq<Album>)
    requires forall k :: k in ks ==> IndicesWith(items, |items|, keyOf, k) != []
    ensures |r| == |ks|
  {
    seq(|ks|, j requires 0 <= j < |ks| => AlbumOf(items, IndicesWith(items, |items|, keyOf, ks[j])))
  }

  /**
   * Reference definition of the `albums` list: one album per key, in order
   * of first appearance, then stably sorted by name.
   */
  function AlbumsBy<K(==,!new)>(items: seq<Item>, keyOf: Metadata -> K): seq<Album> {
    Sorting.SortBy(AlbumList(items, keyOf, KeysOf(items, |items|, keyOf)), AlbumTitle)
  }

  /** The key written in the source: `${albumName}__${artistName}`. */
  function JoinedKey(m: Metadata): string {
    AlbumName(m) + "__" + ArtistName(m)
  }

  /** The key the grouping means: the (album, artist) pair. */
  function PairKey(m: Metadata): (string, string) {
    (AlbumName(m), ArtistName(m))
  }

  /** The albums grouped by the (album, artist) pair. */
  function Albums(items: seq<Item>): seq<Album> {
    AlbumsBy(items, PairKey)
  }

  /** The albums grouped by the joined string key, as the source computes them. */
  function AlbumsAsWritten(items: seq<Item>): seq<Album> {
    AlbumsBy(items, JoinedKey)
  }

  /** `groups` holds, for each key of `keys`, the album of the first `n` items with that key. */
  ghost predicate AlbumsCollected<K(!new)>(items: seq<Item>, n: nat, keyOf: Metadata -> K, keys: seq<K>, groups: map<K, Album>)
    requires n <= |items|
  {
    && keys == KeysOf(items, n, keyOf)
    && (forall k :: k in groups <==> k in keys)
    && (forall k :: k in groups ==>
          IndicesWith(items, n, keyOf, k) != [] && groups[k] == AlbumOf(items, IndicesWith(items, n, keyOf, k)))
  }

  /** An item without metadata leaves the collected albums as they are. */
  lemma AlbumsCollectedSkip<K(!new)>(items: seq<Item>, idx: nat, keyOf: Metadata -> K, keys: seq<K>, groups: map<K, Album>)
    requires idx < |items| && items[idx].metadata.None?
    requires AlbumsCollected(items, idx, keyOf, keys, groups)
    ensures AlbumsCollected(items, idx + 1, keyOf, keys, groups)
  {
    forall k | k in groups ensures IndicesWith(items, idx + 1, keyOf, k) == IndicesWith(items, idx, keyOf, k) {
      IndicesWithStep(items, idx, keyOf, k);
    }
  }

  /** A track of an album already recorded is pushed onto its tracks. */
  lemma AlbumsCollectedPush<K(!new)>(items: seq<Item>, idx: nat, keyOf: Metadata -> K, keys: seq<K>, groups: map<K, Album>)
    requires idx < |items| && items[idx].metadata.Some?
    requires keyOf(items[idx].metadata.value) in groups
    requires AlbumsCollected(items, idx, keyOf, keys, groups)
    ensures var k := keyOf(items[idx].metadata.value);
      AlbumsCollected(items, idx + 1, keyOf, keys, groups[k := groups[k].(trackIndices := groups[k].trackIndices + [idx])])
  {
    var k := keyOf(items[idx].metadata.value);
    var groups' := groups[k := groups[k].(trackIndices := groups[k].trackIndices + [idx])];
    forall k' | k' in groups'
      ensures IndicesWith(items, idx + 1, keyOf, k') != []
      ensures groups'[k'] == AlbumOf(items, IndicesWith(items, idx + 1, keyOf, k'))
    {
      IndicesWithStep(items, idx, keyOf, k');
      if k' == k {
        var before := IndicesWith(items, idx, keyOf, k);
        assert HasKey(items, idx, keyOf, k);
        AlbumOfAppend(items, before, idx);
        assert groups[k].trackIndices == before;
      }
    }
  }

  /** The first track of a new album records it with that one track. */
  lemma AlbumsCollectedNew<K(!new)>(items: seq<Item>, idx: nat, keyOf: Metadata -> K, keys: seq<K>, groups: map<K, Album>)
    requires idx < |items| && items[idx].metadata.Some?
    requires keyOf(items[idx].metadata.value) !in groups
    requires AlbumsCollected(items, idx, keyOf, keys, groups)
    ensures var m := items[idx].metadata.value; var k := keyOf(m);
      AlbumsCollected(items, idx + 1, keyOf, keys + [k], groups[k := Album(AlbumName(m), ArtistName(m), m.cover, [idx])])
  {
    var m := items[idx].metadata.value;
    var k := keyOf(m);
    var groups' := groups[k := Album(AlbumName(m), ArtistName(m), m.cover, [idx])];
    forall k' | k' in groups'
      ensures IndicesWith(items, idx + 1, keyOf, k') != []
      ensures groups'[k'] == AlbumOf(items, IndicesWith(items, idx + 1, keyOf, k'))
    {
      IndicesWithStep(items, idx, keyOf, k');
      if k' == k {
        KeysOfAbsent(items, idx, keyOf, k);
      }
    }
  }

  /** The `forEach` callback of the `albums` computation, for item `idx`. */
  method AddAlbumTrack<K(==,!new)>(items: seq<Item>, idx: nat, keyOf: Metadata -> K, keys: seq<K>, groups: map<K, Album>)
    returns (keys': seq<K>, groups': map<K, Album>)
    requires idx < |items| && AlbumsCollected(items, idx, keyOf, keys, groups)
    ensures AlbumsCollected(items, idx + 1, keyOf, keys', groups')
  {
    keys', groups' := keys, groups;
    match items[idx].metadata {
      case None =>
        AlbumsCollectedSkip(items, idx, keyOf, keys, groups);
      case Some(m) =>
        var k := keyOf(m);
        if k in groups {
          groups' := groups[k := groups[k].(trackIndices := groups[k].trackIndices + [idx])];
          AlbumsCollectedPush(items, idx, keyOf, keys, groups);
        } else {
          keys' := keys + [k];
          groups' := groups[k := Album(AlbumName(m), ArtistName(m), m.cover, [idx])];
          AlbumsCollectedNew(items, idx, keyOf, keys, groups);
        }
    }
  }

  /**
   * The `forEach` pass of the `albums` computation: it fills `groups` (the
   * source's `albumMap`), and `keys` records the map's insertion order.
   */
  method CollectAlbums<K(==,!new)>(items: seq<Item>, keyOf: Metadata -> K) returns (keys: seq<K>, groups: map<K, Album>)
    ensures keys == KeysOf(items, |items|, keyOf)
    ensures forall k :: k in groups <==> k in keys
    ensures forall k :: k in groups ==> groups[k] == AlbumOf(items, IndicesWith(items, |items|, keyOf, k))
  {
    keys := [];
    groups := map[];
    for idx := 0 to |items|
      invariant AlbumsCollected(items, idx, keyOf, keys, groups)
    {
      keys, groups := AddAlbumTrack(items, idx, keyOf, keys, groups);
    }
  }

  /** `Array.from(albumMap.values())`: the albums in the map's insertion order. */
  method AlbumValues<K(==,!new)>(items: seq<Item>, keyOf: Metadata -> K, keys: seq<K>, groups: map<K, Album>)
    returns (values: seq<Album>)
    requires forall k :: k in keys ==> IndicesWith(items, |items|, keyOf, k) != []
    requires forall k :: k in keys ==> k in groups && groups[k] == AlbumOf(items, IndicesWith(items, |items|, keyOf, k))
    ensures values == AlbumList(items, keyOf, keys)
  {
    values := [];
    for i := 0 to |keys|
      invariant |values| == i
      invariant forall j :: 0 <= j < i ==> values[j] == groups[keys[j]]
    {
      values := values + [groups[keys[i]]];
    }
  }

  /** The `albums` computation: the pass, then the map's values sorted by name. */
  method GroupAlbums<K(==,!new)>(items: seq<Item>, keyOf: Metadata -> K) returns (albums: seq<Album>)
    ensures albums == AlbumsBy(items, keyOf)
  {
    var keys, groups := CollectAlbums(items, keyOf);
    var values := AlbumValues(items, keyOf, keys, groups);
    albums := Sorting.SortBy(values, AlbumTitle);
  }

  /** The album holding key `k`'s items is the album of its first track. */
  lemma AlbumOfKey<K(!new)>(items: seq<Item>, keyOf: Metadata -> K, k: K, a: Album)
    requires IndicesWith(items, |items|, keyOf, k) != []
    requires a == AlbumOf(items, IndicesWith(items, |items|, keyOf, k))
    ensures a.trackIndices != [] && Tracks(items, a.trackIndices)
    ensures keyOf(items[a.trackIndices[0]].metadata.value) == k
    ensures forall i, j :: 0 <= i < j < |a.trackIndices| ==> a.trackIndices[i] < a.trackIndices[j]
    ensures forall i :: 0 <= i < |items| ==> (i in a.trackIndices <==> HasKey(items, i, keyOf, k))
  {
    IndicesWithSpec(items, |items|, keyOf, k);
  }

  /**
   * Each album holds, in increasing order, the indices of exactly the items
   * sharing the key of its first track, and takes its name, artist and
   * cover from that first track.
   */
  lemma {:induction false} AlbumsByAlbum<K(!new)>(items: seq<Item>, keyOf: Metadata -> K, a: Album)
    requires a in AlbumsBy(items, keyOf)
    ensures a.trackIndices != [] && Tracks(items, a.trackIndices)
    ensures a == AlbumOf(items, a.trackIndices)
    ensures a.trackIndices == IndicesWith(items, |items|, keyOf, keyOf(items[a.trackIndices[0]].metadata.value))
    ensures forall i, j :: 0 <= i < j < |a.trackIndices| ==> a.trackIndices[i] < a.trackIndices[j]
    ensures forall i :: 0 <= i < |items| ==>
      (i in a.trackIndices <==> HasKey(items, i, keyOf, keyOf(items[a.trackIndices[0]].metadata.value)))
  {
    var ks := KeysOf(items, |items|, keyOf);
    Sorting.SortByElements(AlbumList(items, keyOf, ks), AlbumTitle);
    var j :| 0 <= j < |ks| && AlbumList(items, keyOf, ks)[j] == a;
    AlbumOfKey(items, keyOf, ks[j], a);
  }

  /** An item is in some album exactly when it has metadata, and then in only one. */
  lemma AlbumsByPartition<K(!new)>(items: seq<Item>, keyOf: Metadata -> K, i: nat)
    requires i < |items|
    ensures items[i].metadata.Some? <==> exists a :: a in AlbumsBy(items, keyOf) && i in a.trackIndices
    ensures forall a, b ::
      a in AlbumsBy(items, keyOf) && b in AlbumsBy(items, keyOf) && i in a.trackIndices && i in b.trackIndices ==> a == b
  {
    var ks := KeysOf(items, |items|, keyOf);
    var r := AlbumsBy(items, keyOf);
    Sorting.SortByElements(AlbumList(items, keyOf, ks), AlbumTitle);
    if items[i].metadata.Some? {
      var k := keyOf(items[i].metadata.value);
      assert HasKey(items, i, keyOf, k);
      IndicesWithSpec(items, |items|, keyOf, k);
      assert i in IndicesWith(items, |items|, keyOf, k);
      KeysOfSpec(items, |items|, keyOf);
      var j :| 0 <= j < |ks| && ks[j] == k;
      var a := AlbumList(items, keyOf, ks)[j];
      assert a in r && i in a.trackIndices;
    }
    forall a | a in r && i in a.trackIndices ensures items[i].metadata.Some? {
      AlbumsByAlbum(items, keyOf, a);
    }
    forall a, b | a in r && b in r && i in a.trackIndices && i in b.trackIndices ensures a == b {
      AlbumsByAlbum(items, keyOf, a);
      AlbumsByAlbum(items, keyOf, b);
    }
  }

  /** The albums come sorted by name. */
  lemma AlbumsBySorted<K(!new)>(items: seq<Item>, keyOf: Metadata -> K)
    ensures Sorting.SortedBy(AlbumsBy(items, keyOf), AlbumTitle)
  {
    Sorting.SortBySorted(AlbumList(items, keyOf, KeysOf(items, |items|, keyOf)), AlbumTitle);
  }

  lemma {:induction false} AlbumListTotal<K(!new)>(items: seq<Item>, keyOf: Metadata -> K, ks: seq<K>)
    requires forall k :: k in ks ==> IndicesWith(items, |items|, keyOf, k) != []
    ensures Sorting.SumBy(AlbumList(items, keyOf, ks), TrackCount) == IndexTotal(items, |items|, keyOf, ks)
    decreases |ks|
  {
    if ks != [] {
      var init := ks[..|ks| - 1];
      assert forall k :: k in init ==> k in ks;
      AlbumListTotal(items, keyOf, init);
      var r := AlbumList(items, keyOf, ks);
      assert r[..|r| - 1] == AlbumList(items, keyOf, init);
    }
  }

  /** Across all albums, the number of track indices is the number of items with metadata. */
  lemma AlbumsByTotal<K(!new)>(items: seq<Item>, keyOf: Metadata -> K)
    ensures Sorting.SumBy(AlbumsBy(items, keyOf), TrackCount) == WithMetadata(items, |items|)
  {
    var ks := KeysOf(items, |items|, keyOf);
    Sorting.SortBySum(AlbumList(items, keyOf, ks), AlbumTitle, TrackCount);
    AlbumListTotal(items, keyOf, ks);
    KeysOfDistinct(items, |items|, keyOf);
    KeysOfCover(items, |items|, keyOf);
    IndexTotalCounts(items, |items|, keyOf, ks);
  }

  /** Grouped by the (album, artist) pair, every track of an album has that album's name and artist. */
  lemma AlbumsMatchTracks(items: seq<Item>, a: Album, i: nat)
    requires a in Albums(items) && i in a.trackIndices
    ensures i < |items| && items[i].metadata.Some?
    ensures AlbumName(items[i].metadata.value) == a.name && ArtistName(items[i].metadata.value) == a.artist
  {
    AlbumsByAlbum(items, PairKey, a);
  }

  lemma NoLettersJoin(a: string, b: string)
    requires NoLetters(a) && NoLetters(b)
    ensures NoLetters(a + "__" + b)
  {
    var t := a + "__" + b;
    forall j | 0 <= j < |t| ensures !('a' <= t[j] <= 'z') && !('A' <= t[j] <= 'Z') {
      if j < |a| {
        assert t[j] == a[j];
      } else if j >= |a| + 2 {
        assert t[j] == b[j - |a| - 2];
      }
    }
  }

  /** Album `p__q` by `r`, and album `p` by `q__r`, have the same joined key but different pairs. */
  lemma {:induction false} JoinedKeyCollides(p: string, q: string, r: string)
    requires p != "" && q != "" && r != "" && NoLetters(p) && NoLetters(q) && NoLetters(r)
    ensures var m1 := Metadata(None, Some(r), Some(p + "__" + q), None);
      var m2 := Metadata(None, Some(q + "__" + r), Some(p), None);
      && JoinedKey(m1) == JoinedKey(m2)
      && PairKey(m1) != PairKey(m2)
      && ArtistName(m1) == r && ArtistName(m2) == q + "__" + r
  {
    NoLettersJoin(p, q);
    NoLettersJoin(q, r);
    TitleCaseNoLetters(p);
    TitleCaseNoLetters(r);
    TitleCaseNoLetters(p + "__" + q);
    TitleCaseNoLetters(q + "__" + r);
    assert (p + "__" + q) + "__" + r == p + "__" + (q + "__" + r);
    assert |p + "__" + q| != |p|;
  }

  /** Two items with the same joined key end up in one album, named after the first. */
  lemma {:induction false} SharedKeyOneAlbum(n1: string, m1: Metadata, n2: string, m2: Metadata)
    requires JoinedKey(m1) == JoinedKey(m2)
    ensures var items := [Item(n1, Some(m1)), Item(n2, Some(m2))];
      AlbumsAsWritten(items) == [Album(AlbumName(m1), ArtistName(m1), m1.cover, [0, 1])]
  {
    var items := [Item(n1, Some(m1)), Item(n2, Some(m2))];
    var k := JoinedKey(m1);
    assert KeysOf(items, 1, JoinedKey) == [k];
    assert KeysOf(items, 2, JoinedKey) == [k];
    assert IndicesWith(items, 1, JoinedKey, k) == [0];
    assert IndicesWith(items, 2, JoinedKey, k) == [0, 1];
    var l := AlbumList(items, JoinedKey, [k]);
    assert l == [Album(AlbumName(m1), ArtistName(m1), m1.cover, [0, 1])];
    assert l[..0] == [];
    assert Sorting.SortBy(l, AlbumTitle) == Sorting.Insert(l[0], Sorting.SortBy([], AlbumTitle), AlbumTitle);
    assert AlbumsAsWritten(items) == Sorting.SortBy(l, AlbumTitle);
  }

  /**
   * The joined key is not injective: the second item below is filed under an
   * album whose artist is not its own.
   */
  lemma AlbumKeyCollision(p: string, q: string, r: string)
    requires p != "" && q != "" && r != "" && NoLetters(p) && NoLetters(q) && NoLetters(r)
    ensures var m1 := Metadata(None, Some(r), Some(p + "__" + q), None);
      var m2 := Metadata(None, Some(q + "__" + r), Some(p), None);
      var items := [Item("a", Some(m1)), Item("b", Some(m2))];
      && |AlbumsAsWritten(items)| == 1
      && 1 in AlbumsAsWritten(items)[0].trackIndices
      && AlbumsAsWritten(items)[0].artist != ArtistName(m2)
  {
    var m1 := Metadata(None, Some(r), Some(p + "__" + q), None);
    var m2 := Metadata(None, Some(q + "__" + r), Some(p), None);
    JoinedKeyCollides(p, q, r);
    SharedKeyOneAlbum("a", m1, "b", m2);
    assert |q + "__" + r| != |r|;
  }

  // ---------------------------------------------------------------------------
  // artists
  // ---------------------------------------------------------------------------

  /** `ArtistInfo`. */
  datatype Artist = Artist(name: string, cover: Option<string>, trackIndices: seq<nat>, albumCount: nat)

  function ArtistTitle(a: Artist): string { a.name }

  function ArtistTrackCount(a: Artist): nat { |a.trackIndices| }

  /** The title-cased album names of the tracks `idx` (the source's `artistAlbums` entry). */
  function AlbumNames(items: seq<Item>, idx: seq<nat>): (r: set<string>)
    requires Tracks(items, idx)
  {
    if idx == [] then {}
    else AlbumNames(items, idx[..|idx| - 1]) + {AlbumName(items[idx[|idx| - 1]].metadata.value)}
  }

  /** The album name of the track at position `j` of `idx`. */
  function TrackAlbum(items: seq<Item>, idx: seq<nat>, j: nat): string
    requires Tracks(items, idx) && j < |idx|
  {
    AlbumName(items[idx[j]].metadata.value)
  }

  /** Every track's album name is among `AlbumNames`. */
  lemma {:induction false} AlbumNamesHas(items: seq<Item>, idx: seq<nat>, j: nat)
    requires Tracks(items, idx) && j < |idx|
    ensures TrackAlbum(items, idx, j) in AlbumNames(items, idx)
    decreases |idx|
  {
    var init := idx[..|idx| - 1];
    if j < |init| {
      AlbumNamesHas(items, init, j);
      assert TrackAlbum(items, init, j) == TrackAlbum(items, idx, j);
    }
  }

  /** Every member of `AlbumNames` is some track's album name. */
  lemma {:induction false} AlbumNamesOnly(items: seq<Item>, idx: seq<nat>, x: string)
    requires Tracks(items, idx) && x in AlbumNames(items, idx)
    ensures exists j :: 0 <= j < |idx| && TrackAlbum(items, idx, j) == x
    decreases |idx|
  {
    var init := idx[..|idx| - 1];
    if x in AlbumNames(items, init) {
      AlbumNamesOnly(items, init, x);
      var j :| 0 <= j < |init| && TrackAlbum(items, init, j) == x;
      assert TrackAlbum(items, idx, j) == x;
    } else {
      assert TrackAlbum(items, idx, |idx| - 1) == x;
    }
  }

  lemma AlbumNamesAppend(items: seq<Item>, idx: seq<nat>, i: nat)
    requires Tracks(items, idx) && i < |items| && items[i].metadata.Some?
    ensures Tracks(items, idx + [i])
    ensures AlbumNames(items, idx + [i]) == AlbumNames(items, idx) + {AlbumName(items[i].metadata.value)}
  {
    assert (idx + [i])[..|idx|] == idx;
  }

  /** `artistAlbums.get(name)?.size || 1`. */
  function AlbumCount(items: seq<Item>, idx: seq<nat>): nat
    requires Tracks(items, idx)
  {
    var c := |AlbumNames(items, idx)|;
    if c == 0 then 1 else c
  }

  /** The artist of the tracks `idx` as first recorded, with `albumCount: 1`. */
  function PendingArtist(items: seq<Item>, idx: seq<nat>): (a: Artist)
    requires idx != [] && Tracks(items, idx)
    ensures a.trackIndices == idx
  {
    var m := items[idx[0]].metadata.value;
    Artist(ArtistName(m), m.cover, idx, 1)
  }

  /** The artist of the tracks `idx`, with its album count filled in. */
  function ArtistOf(items: seq<Item>, idx: seq<nat>): (a: Artist)
    requires idx != [] && Tracks(items, idx)
    ensures a.trackIndices == idx
  {
    PendingArtist(items, idx).(albumCount := AlbumCount(items, idx))
  }

  /** The artists of the names `ks`, in the order of `ks`. */
  function ArtistList(items: seq<Item>, ks: seq<string>): (r: seq<Artist>)
    requires forall k :: k in ks ==> IndicesWith(items, |items|, ArtistName, k) != []
    ensures |r| == |ks|
  {
    seq(|ks|, j requires 0 <= j < |ks| => ArtistOf(items, IndicesWith(items, |items|, ArtistName, ks[j])))
  }

  /**
   * Reference definition of the `artists` list: one artist per title-cased
   * artist name, in order of first appearance, then stably sorted by name.
   */
  function Artists(items: seq<Item>): seq<Artist> {
    Sorting.SortBy(ArtistList(items, KeysOf(items, |items|, ArtistName)), ArtistTitle)
  }

  /**
   * After the first `n` items, `artistMap` holds each artist as first
   * recorded and `artistAlbums` the album names of its tracks so far.
   */
  ghost predicate ArtistsCollected(items: seq<Item>, n: nat, keys: seq<string>,
                                   artistMap: map<string, Artist>, artistAlbums: map<string, set<string>>)
    requires n <= |items|
  {
    && keys == KeysOf(items, n, ArtistName)
    && (forall k :: k in artistMap <==> k in keys)
    && (forall k :: k in artistAlbums <==> k in keys)
    && (forall k :: k in artistMap ==> ArtistEntry(items, n, k, artistMap[k], artistAlbums[k]))
  }

  /** The entry for artist `k` after the first `n` items: as first recorded, and its album names so far. */
  ghost predicate ArtistEntry(items: seq<Item>, n: nat, k: string, a: Artist, albums: set<string>)
    requires n <= |items|
  {
    && IndicesWith(items, n, ArtistName, k) != []
    && a == PendingArtist(items, IndicesWith(items, n, ArtistName, k))
    && albums == AlbumNames(items, IndicesWith(items, n, ArtistName, k))
  }

  lemma PendingArtistAppend(items: seq<Item>, idx: seq<nat>, i: nat)
    requires idx != [] && Tracks(items, idx) && i < |items| && items[i].metadata.Some?
    ensures Tracks(items, idx + [i])
    ensures PendingArtist(items, idx + [i]) == PendingArtist(items, idx).(trackIndices := idx + [i])
  {
    assert (idx + [i])[0] == idx[0];
  }

  /** An entry whose artist item `idx` does not have stays as it is. */
  lemma ArtistEntryKept(items: seq<Item>, idx: nat, k: string, a: Artist, albums: set<string>)
    requires idx < |items| && !HasKey(items, idx, ArtistName, k)
    requires ArtistEntry(items, idx, k, a, albums)
    ensures ArtistEntry(items, idx + 1, k, a, albums)
  {
    IndicesWithStep(items, idx, ArtistName, k);
  }

  /** The entry of the artist of item `idx` gains that track and its album name. */
  lemma ArtistEntryPush(items: seq<Item>, idx: nat, k: string, a: Artist, albums: set<string>)
    requires idx < |items| && HasKey(items, idx, ArtistName, k)
    requires ArtistEntry(items, idx, k, a, albums)
    ensures ArtistEntry(items, idx + 1, k, a.(trackIndices := a.trackIndices + [idx]),
                        albums + {AlbumName(items[idx].metadata.value)})
  {
    var before := IndicesWith(items, idx, ArtistName, k);
    IndicesWithStep(items, idx, ArtistName, k);
    PendingArtistAppend(items, before, idx);
    AlbumNamesAppend(items, before, idx);
  }

  /** An item without metadata leaves the collected artists as they are. */
  lemma ArtistsCollectedSkip(items: seq<Item>, idx: nat, keys: seq<string>,
                             artistMap: map<string, Artist>, artistAlbums: map<string, set<string>>)
    requires idx < |items| && items[idx].metadata.None?
    requires ArtistsCollected(items, idx, keys, artistMap, artistAlbums)
    ensures ArtistsCollected(items, idx + 1, keys, artistMap, artistAlbums)
  {
    forall k | k in artistMap ensures ArtistEntry(items, idx + 1, k, artistMap[k], artistAlbums[k]) {
      ArtistEntryKept(items, idx, k, artistMap[k], artistAlbums[k]);
    }
  }

  /** A track of an artist already recorded is pushed onto its tracks, its album name into its set. */
  lemma ArtistsCollectedPush(items: seq<Item>, idx: nat, m: Metadata, keys: seq<string>,
                             artistMap: map<string, Artist>, artistAlbums: map<string, set<string>>)
    requires idx < |items| && items[idx].metadata == Some(m)
    requires ArtistName(m) in artistMap
    requires ArtistsCollected(items, idx, keys, artistMap, artistAlbums)
    ensures ArtistsCollected(items, idx + 1, keys,
      artistMap[ArtistName(m) := artistMap[ArtistName(m)].(trackIndices := artistMap[ArtistName(m)].trackIndices + [idx])],
      artistAlbums[ArtistName(m) := artistAlbums[ArtistName(m)] + {AlbumName(m)}])
  {
    var name := ArtistName(m);
    var a, albums := artistMap[name], artistAlbums[name];
    var artistMap' := artistMap[name := a.(trackIndices := a.trackIndices + [idx])];
    var artistAlbums' := artistAlbums[name := albums + {AlbumName(m)}];
    assert KeysOf(items, idx + 1, ArtistName) == keys;
    ArtistEntryPush(items, idx, name, a, albums);
    forall k | k in artistMap' && k != name ensures ArtistEntry(items, idx + 1, k, artistMap'[k], artistAlbums'[k]) {
      ArtistEntryKept(items, idx, k, artistMap[k], artistAlbums[k]);
    }
  }

  /** The first track of an artist not yet listed makes its entry: that one track and its album name. */
  lemma ArtistEntryNew(items: seq<Item>, idx: nat, m: Metadata)
    requires idx < |items| && items[idx].metadata == Some(m)
    requires ArtistName(m) !in KeysOf(items, idx, ArtistName)
    ensures ArtistEntry(items, idx + 1, ArtistName(m), Artist(ArtistName(m), m.cover, [idx], 1), {AlbumName(m)})
  {
    var k := ArtistName(m);
    IndicesWithStep(items, idx, ArtistName, k);
    KeysOfAbsent(items, idx, ArtistName, k);
    assert IndicesWith(items, idx + 1, ArtistName, k) == [idx];
    AlbumNamesAppend(items, [], idx);
    assert [] + [idx] == [idx];
  }

  /** The first track of a new artist records it with one track and one album name. */
  lemma ArtistsCollectedNew(items: seq<Item>, idx: nat, m: Metadata, keys: seq<string>,
                            artistMap: map<string, Artist>, artistAlbums: map<string, set<string>>)
    requires idx < |items| && items[idx].metadata == Some(m)
    requires ArtistName(m) !in artistMap
    requires ArtistsCollected(items, idx, keys, artistMap, artistAlbums)
    ensures ArtistsCollected(items, idx + 1, keys + [ArtistName(m)],
      artistMap[ArtistName(m) := Artist(ArtistName(m), m.cover, [idx], 1)],
      artistAlbums[ArtistName(m) := {AlbumName(m)}])
  {
    var name := ArtistName(m);
    var artistMap' := artistMap[name := Artist(name, m.cover, [idx], 1)];
    var artistAlbums' := artistAlbums[name := {AlbumName(m)}];
    forall k | k in artistMap' ensures ArtistEntry(items, idx + 1, k, artistMap'[k], artistAlbums'[k]) {
      if k == name {
        ArtistEntryNew(items, idx, m);
      } else {
        ArtistEntryKept(items, idx, k, artistMap[k], artistAlbums[k]);
      }
    }
  }

  /** The `forEach` callback of the `artists` computation, for item `idx`. */
  method AddArtistTrack(items: seq<Item>, idx: nat, keys: seq<string>,
                        artistMap: map<string, Artist>, artistAlbums: map<string, set<string>>)
    returns (keys': seq<string>, artistMap': map<string, Artist>, artistAlbums': map<string, set<string>>)
    requires idx < |items| && ArtistsCollected(items, idx, keys, artistMap, artistAlbums)
    ensures ArtistsCollected(items, idx + 1, keys', artistMap', artistAlbums')
  {
    keys', artistMap', artistAlbums' := keys, artistMap, artistAlbums;
    match items[idx].metadata {
      case None =>
        ArtistsCollectedSkip(items, idx, keys, artistMap, artistAlbums);
      case Some(m) =>
        var name := ArtistName(m);
        if name in artistMap {
          artistMap' := artistMap[name := artistMap[name].(trackIndices := artistMap[name].trackIndices + [idx])];
          artistAlbums' := artistAlbums[name := artistAlbums[name] + {AlbumName(m)}];
          ArtistsCollectedPush(items, idx, m, keys, artistMap, artistAlbums);
        } else {
          keys' := keys + [name];
          artistMap' := artistMap[name := Artist(name, m.cover, [idx], 1)];
          artistAlbums' := artistAlbums[name := {AlbumName(m)}];
          ArtistsCollectedNew(items, idx, m, keys, artistMap, artistAlbums);
        }
    }
  }

  /** The `forEach` pass of the `artists` computation. */
  method CollectArtists(items: seq<Item>)
    returns (keys: seq<string>, artistMap: map<string, Artist>, artistAlbums: map<string, set<string>>)
    ensures ArtistsCollected(items, |items|, keys, artistMap, artistAlbums)
  {
    keys, artistMap, artistAlbums := [], map[], map[];
    for idx := 0 to |items|
      invariant ArtistsCollected(items, idx, keys, artistMap, artistAlbums)
    {
      keys, artistMap, artistAlbums := AddArtistTrack(items, idx, keys, artistMap, artistAlbums);
    }
  }

  /** A collected entry with its album count filled in: the size of its album-name set, or 1. */
  function WithAlbumCount(a: Artist, albums: set<string>): (r: Artist)
    ensures r.albumCount >= 1
    ensures r.name == a.name && r.cover == a.cover && r.trackIndices == a.trackIndices
  {
    a.(albumCount := if |albums| == 0 then 1 else |albums|)
  }

  /** Filling in the album count of a collected entry gives the artist of its tracks. */
  lemma ArtistEntryCounted(items: seq<Item>, k: string, a: Artist, albums: set<string>)
    requires ArtistEntry(items, |items|, k, a, albums)
    ensures WithAlbumCount(a, albums) == ArtistOf(items, IndicesWith(items, |items|, ArtistName, k))
  {
  }

  /**
   * What the album-count pass needs from the collected entries: the names are
   * distinct, and counting an entry's albums gives the artist of its tracks.
   */
  lemma CollectedCounts(items: seq<Item>, keys: seq<string>,
                        artistMap: map<string, Artist>, artistAlbums: map<string, set<string>>)
    requires ArtistsCollected(items, |items|, keys, artistMap, artistAlbums)
    ensures forall k :: k in artistMap <==> k in keys
    ensures forall k :: k in artistAlbums <==> k in keys
    ensures forall j :: 0 <= j < |keys| ==> keys[j] !in keys[..j]
    ensures forall k :: k in keys ==> IndicesWith(items, |items|, ArtistName, k) != []
    ensures forall k :: k in keys ==>
      WithAlbumCount(artistMap[k], artistAlbums[k]) == ArtistOf(items, IndicesWith(items, |items|, ArtistName, k))
  {
    KeysOfDistinct(items, |items|, ArtistName);
    forall k | k in keys
      ensures WithAlbumCount(artistMap[k], artistAlbums[k]) == ArtistOf(items, IndicesWith(items, |items|, ArtistName, k))
    {
      ArtistEntryCounted(items, k, artistMap[k], artistAlbums[k]);
    }
  }

  /**
   * "Update album count": each artist's `albumCount` becomes the size of its
   * album-name set, or 1; nothing else about the artists changes.
   */
  method UpdateAlbumCounts(keys: seq<string>, artistMap: map<string, Artist>, artistAlbums: map<string, set<string>>)
    returns (counted: map<string, Artist>)
    requires forall k :: k in keys ==> k in artistMap && k in artistAlbums
    requires forall k :: k in artistMap ==> k in keys
    requires forall j :: 0 <= j < |keys| ==> keys[j] !in keys[..j]
    ensures forall k :: k in counted <==> k in keys
    ensures forall k :: k in counted ==> counted[k] == WithAlbumCount(artistMap[k], artistAlbums[k])
  {
    counted := artistMap;
    for i := 0 to |keys|
      invariant forall k :: k in counted <==> k in keys
      invariant forall k :: k in keys[..i] ==> counted[k] == WithAlbumCount(artistMap[k], artistAlbums[k])
      invariant forall k :: k in keys && k !in keys[..i] ==> counted[k] == artistMap[k]
    {
      var name := keys[i];
      assert keys[..i + 1] == keys[..i] + [name];
      assert name !in keys[..i];
      var count := |artistAlbums[name]|;
      if count == 0 {
        count := 1;
      }
      counted := counted[name := counted[name].(albumCount := count)];
    }
    assert keys[..|keys|] == keys;
  }

  /** `Array.from(artistMap.values())`: the artists in the map's insertion order. */
  method ArtistValues(items: seq<Item>, keys: seq<string>, counted: map<string, Artist>) returns (values: seq<Artist>)
    requires forall k :: k in keys ==> IndicesWith(items, |items|, ArtistName, k) != []
    requires forall k :: k in keys ==> k in counted && counted[k] == ArtistOf(items, IndicesWith(items, |items|, ArtistName, k))
    ensures values == ArtistList(items, keys)
  {
    values := [];
    for i := 0 to |keys|
      invariant |values| == i
      invariant forall j :: 0 <= j < i ==> values[j] == counted[keys[j]]
    {
      values := values + [counted[keys[i]]];
    }
  }

  /** The `artists` computation: the pass, the album counts, then the values sorted by name. */
  method GroupArtists(items: seq<Item>) returns (artists: seq<Artist>)
    ensures artists == Artists(items)
  {
    var keys, artistMap, artistAlbums := CollectArtists(items);
    CollectedCounts(items, keys, artistMap, artistAlbums);
    var counted := UpdateAlbumCounts(keys, artistMap, artistAlbums);
    var values := ArtistValues(items, keys, counted);
    artists := Sorting.SortBy(values, ArtistTitle);
  }

  /**
   * Each artist holds, in increasing order, the indices of exactly the items
   * whose title-cased artist name is its name; it takes its cover from the
   * first of them, and its album count is the number of distinct album
   * names among them, at least 1.
   */
  lemma {:induction false} ArtistsArtist(items: seq<Item>, a: Artist)
    requires a in Artists(items)
    ensures a.trackIndices != [] && Tracks(items, a.trackIndices)
    ensures a == ArtistOf(items, a.trackIndices)
    ensures a.trackIndices == IndicesWith(items, |items|, ArtistName, a.name)
    ensures a.name == ArtistName(items[a.trackIndices[0]].metadata.value)
    ensures a.cover == items[a.trackIndices[0]].metadata.value.cover
    ensures forall i, j :: 0 <= i < j < |a.trackIndices| ==> a.trackIndices[i] < a.trackIndices[j]
    ensures forall i :: 0 <= i < |items| ==> (i in a.trackIndices <==> HasKey(items, i, ArtistName, a.name))
    ensures a.albumCount == |AlbumNames(items, a.trackIndices)| >= 1
  {
    var ks := KeysOf(items, |items|, ArtistName);
    Sorting.SortByElements(ArtistList(items, ks), ArtistTitle);
    var j :| 0 <= j < |ks| && ArtistList(items, ks)[j] == a;
    var idx := IndicesWith(items, |items|, ArtistName, ks[j]);
    IndicesWithSpec(items, |items|, ArtistName, ks[j]);
    AlbumNamesHas(items, idx, 0);
  }

  /** The album names counted for an artist are exactly those of the items by that artist. */
  lemma ArtistAlbumNames(items: seq<Item>, a: Artist, x: string)
    requires a in Artists(items)
    ensures a.trackIndices != [] && Tracks(items, a.trackIndices)
    ensures x in AlbumNames(items, a.trackIndices) <==>
      exists i :: 0 <= i < |items| && HasKey(items, i, ArtistName, a.name) && AlbumName(items[i].metadata.value) == x
  {
    ArtistsArtist(items, a);
    var idx := a.trackIndices;
    if x in AlbumNames(items, idx) {
      AlbumNamesOnly(items, idx, x);
      var j :| 0 <= j < |idx| && TrackAlbum(items, idx, j) == x;
      assert idx[j] in idx;
      assert HasKey(items, idx[j], ArtistName, a.name);
    }
    if exists i :: 0 <= i < |items| && HasKey(items, i, ArtistName, a.name) && AlbumName(items[i].metadata.value) == x {
      var i :| 0 <= i < |items| && HasKey(items, i, ArtistName, a.name) && AlbumName(items[i].metadata.value) == x;
      assert i in idx;
      var j :| 0 <= j < |idx| && idx[j] == i;
      AlbumNamesHas(items, idx, j);
    }
  }

  /** An item is in some artist exactly when it has metadata, and then in only one. */
  lemma ArtistsPartition(items: seq<Item>, i: nat)
    requires i < |items|
    ensures items[i].metadata.Some? <==> exists a :: a in Artists(items) && i in a.trackIndices
    ensures forall a, b :: a in Artists(items) && b in Artists(items) && i in a.trackIndices && i in b.trackIndices ==> a == b
  {
    var ks := KeysOf(items, |items|, ArtistName);
    var r := Artists(items);
    Sorting.SortByElements(ArtistList(items, ks), ArtistTitle);
    if items[i].metadata.Some? {
      var k := ArtistName(items[i].metadata.value);
      assert HasKey(items, i, ArtistName, k);
      IndicesWithSpec(items, |items|, ArtistName, k);
      KeysOfSpec(items, |items|, ArtistName);
      var j :| 0 <= j < |ks| && ks[j] == k;
      var a := ArtistList(items, ks)[j];
      assert a in r && i in a.trackIndices;
    }
    forall a | a in r && i in a.trackIndices ensures items[i].metadata.Some? {
      ArtistsArtist(items, a);
    }
    forall a, b | a in r && b in r && i in a.trackIndices && i in b.trackIndices ensures a == b {
      ArtistsArtist(items, a);
      ArtistsArtist(items, b);
    }
  }

  /** No two artists share a name. */
  lemma ArtistsNamesUnique(items: seq<Item>, a: Artist, b: Artist)
    requires a in Artists(items) && b in Artists(items) && a.name == b.name
    ensures a == b
  {
    ArtistsArtist(items, a);
    ArtistsArtist(items, b);
  }

  /** The artists come sorted by name. */
  lemma ArtistsSorted(items: seq<Item>)
    ensures Sorting.SortedBy(Artists(items), ArtistTitle)
  {
    Sorting.SortBySorted(ArtistList(items, KeysOf(items, |items|, ArtistName)), ArtistTitle);
  }

  lemma {:induction false} ArtistListTotal(items: seq<Item>, ks: seq<string>)
    requires forall k :: k in ks ==> IndicesWith(items, |items|, ArtistName, k) != []
    ensures Sorting.SumBy(ArtistList(items, ks), ArtistTrackCount) == IndexTotal(items, |items|, ArtistName, ks)
    decreases |ks|
  {
    if ks != [] {
      var init := ks[..|ks| - 1];
      assert forall k :: k in init ==> k in ks;
      ArtistListTotal(items, init);
      var r := ArtistList(items, ks);
      assert r[..|r| - 1] == ArtistList(items, init);
    }
  }

  /** Across all artists, the number of track indices is the number of items with metadata. */
  lemma ArtistsTotal(items: seq<Item>)
    ensures Sorting.SumBy(Artists(items), ArtistTrackCount) == WithMetadata(items, |items|)
  {
    var ks := KeysOf(items, |items|, ArtistName);
    Sorting.SortBySum(ArtistList(items, ks), ArtistTitle, ArtistTrackCount);
    ArtistListTotal(items, ks);
    KeysOfDistinct(items, |items|, ArtistName);
    KeysOfCover(items, |items|, ArtistName);
    IndexTotalCounts(items, |items|, ArtistName, ks);
  }
}
