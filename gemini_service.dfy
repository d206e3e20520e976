/**
 * The lyrics helpers of services/geminiService.ts that run without the
 * network: `cleanSearchTerm` (the search text sent to the lyrics service),
 * `parsePlainLyrics` (LRC timestamp stripping) and `findBestMatch` (scoring
 * the search results against the wanted title and artist).
 *
 * The regular expressions of these functions are modelled by one scanner,
 * `ReplaceAll`, over a small `Pattern` type whose `MatchAt` gives the length
 * of the match the expression finds at a position (alternatives tried in
 * order, lazy and greedy quantifiers resolved as JavaScript resolves them).
 */
module GeminiService {

  import opened Wrappers
  import opened Text
  import Json

  // ---------------------------------------------------------------------------
  // Regular expressions
  // ---------------------------------------------------------------------------

  /** The expressions the three functions use; none of them can match the empty string. */
  datatype Pattern =
    | Brackets      // /\(.*?\)|\[.*?\]/g
    | Featuring     // /feat\.?|ft\.?|featuring/gi
    | Suffixes      // /official|music|video|audio|lyrics|mv/gi
    | Spaces        // /\s+/g
    | TimeTag       // /\[\d{2}:\d{2}[.:]\d{0,3}\]/g
    | ShortTimeTag  // /\[\d{2}:\d{2}\]/g

  /** `.*?` followed by `close`, from position `k`: the first `close` before any line terminator. */
  function LazyClose(s: string, k: nat, close: char): (r: Option<nat>)
    requires k <= |s|
    ensures r.Some? ==> k <= r.value < |s| && s[r.value] == close
    ensures r.Some? ==> forall j :: k <= j < r.value ==> s[j] != close && !IsLineTerminator(s[j])
    decreases |s| - k
  {
    if k == |s| then None
    else if s[k] == close then Some(k)
    else if IsLineTerminator(s[k]) then None
    else LazyClose(s, k + 1, close)
  }

  /** `w` (lowercase) occurs at `i` when letters are compared without case, as the `i` flag does for ASCII. */
  predicate WordAt(s: string, i: nat, w: string) {
    i + |w| <= |s| && forall k :: 0 <= k < |w| ==> LowerChar(s[i + k]) == w[k]
  }

  /** Length of a word, plus one when a `.` follows it (`\.?` is greedy). */
  function WithDot(s: string, i: nat, n: nat): nat {
    if i + n < |s| && s[i + n] == '.' then n + 1 else n
  }

  /** The first of `words` that occurs at `i`, as a match length. */
  function FirstWord(s: string, i: nat, words: seq<string>): (r: Option<nat>)
    ensures r.Some? ==> exists w :: w in words && WordAt(s, i, w) && r.value == |w|
    ensures r.None? ==> forall w :: w in words ==> !WordAt(s, i, w)
  {
    if words == [] then None
    else if WordAt(s, i, words[0]) then Some(|words[0]|)
    else FirstWord(s, i, words[1..])
  }

  /** Number of consecutive characters from `i` satisfying `\s`. */
  function SpaceRun(s: string, i: nat): (n: nat)
    requires i <= |s|
    ensures i + n <= |s|
    ensures forall j :: i <= j < i + n ==> IsJsSpace(s[j])
    ensures i + n < |s| ==> !IsJsSpace(s[i + n])
    decreases |s| - i
  {
    if i == |s| || !IsJsSpace(s[i]) then 0 else 1 + SpaceRun(s, i + 1)
  }

  /** Number of consecutive decimal digits from `i`. */
  function DigitRun(s: string, i: nat): (n: nat)
    requires i <= |s|
    ensures i + n <= |s|
    ensures forall j :: i <= j < i + n ==> IsDigit(s[j])
    ensures i + n < |s| ==> !IsDigit(s[i + n])
    decreases |s| - i
  {
    if i == |s| || !IsDigit(s[i]) then 0 else 1 + DigitRun(s, i + 1)
  }

  /** `[mm:ss` at `i`: a bracket, two digits, a colon and two digits. */
  predicate ClockAt(s: string, i: nat) {
    i + 6 <= |s| && s[i] == '[' && IsDigit(s[i + 1]) && IsDigit(s[i + 2]) && s[i + 3] == ':'
    && IsDigit(s[i + 4]) && IsDigit(s[i + 5])
  }

  /** The length of the match of `p` at position `i`, if there is one. */
  function MatchAt(p: Pattern, s: string, i: nat): (r: Option<nat>)
    requires i < |s|
    ensures r.Some? ==> 0 < r.value && i + r.value <= |s|
  {
    match p
    case Brackets =>
      if s[i] == '(' then
        match LazyClose(s, i + 1, ')') case None => None case Some(j) => Some(j + 1 - i)
      else if s[i] == '[' then
        match LazyClose(s, i + 1, ']') case None => None case Some(j) => Some(j + 1 - i)
      else None
    case Featuring =>
      if WordAt(s, i, "feat") then Some(WithDot(s, i, 4))
      else if WordAt(s, i, "ft") then Some(WithDot(s, i, 2))
      else if WordAt(s, i, "featuring") then Some(9)
      else None
    case Suffixes =>
      FirstWord(s, i, ["official", "music", "video", "audio", "lyrics", "mv"])
    case Spaces =>
      var n := SpaceRun(s, i);
      if n == 0 then None else Some(n)
    case TimeTag =>
      if ClockAt(s, i) && i + 6 < |s| && (s[i + 6] == '.' || s[i + 6] == ':') then
        var k := DigitRun(s, i + 7);
        if k <= 3 && i + 7 + k < |s| && s[i + 7 + k] == ']' then Some(8 + k) else None
      else None
    case ShortTimeTag =>
      if ClockAt(s, i) && i + 6 < |s| && s[i + 6] == ']' then Some(7) else None
  }

  /**
   * `s.slice(i).replace(p, rep)` with the global flag: at each position the
   * match found there is replaced and scanning resumes after it; otherwise
   * the character is kept.
   */
  function ReplaceAll(p: Pattern, s: string, rep: string, i: nat): string
    requires i <= |s|
    decreases |s| - i
  {
    if i == |s| then []
    else match MatchAt(p, s, i)
      case Some(n) => rep + ReplaceAll(p, s, rep, i + n)
      case None => [s[i]] + ReplaceAll(p, s, rep, i + 1)
  }

  /** Where the expression matches nowhere, the text is left as it is. */
  lemma {:induction false} ReplaceAllNoMatch(p: Pattern, s: string, rep: string, i: nat)
    requires i <= |s|
    requires forall j :: i <= j < |s| ==> MatchAt(p, s, j).None?
    ensures ReplaceAll(p, s, rep, i) == s[i..]
    decreases |s| - i
  {
    if i < |s| {
      ReplaceAllNoMatch(p, s, rep, i + 1);
      assert s[i..] == [s[i]] + s[i + 1..];
    }
  }

  /** A timestamp tag starts with `[`, so text without one keeps its tags' places untouched. */
  lemma TagsNeedBracket(s: string, j: nat)
    requires j < |s| && s[j] != '['
    ensures MatchAt(TimeTag, s, j).None? && MatchAt(ShortTimeTag, s, j).None?
  {
  }

  /** `featuring` can never be matched as a whole: its first four letters match `feat` first. */
  lemma FeaturingShadowed(s: string, i: nat)
    requires i < |s| && WordAt(s, i, "featuring")
    ensures WordAt(s, i, "feat") && MatchAt(Featuring, s, i) == Some(4)
  {
    assert forall k :: 0 <= k < 4 ==> "feat"[k] == "featuring"[k];
    assert LowerChar(s[i + 4]) == "featuring"[4];
  }

  // ---------------------------------------------------------------------------
  // cleanSearchTerm
  // ---------------------------------------------------------------------------

  /** `/\s+/g` replaced by one space. */
  function CollapseSpaces(s: string): string {
    ReplaceAll(Spaces, s, " ", 0)
  }

  /** `cleanSearchTerm(term)`. */
  function CleanSearchTerm(term: string): string {
    var a := ReplaceAll(Brackets, term, "", 0);
    var b := ReplaceAll(Featuring, a, "", 0);
    var c := ReplaceAll(Suffixes, b, "", 0);
    Trim(Js, CollapseSpaces(c))
  }

  /** No two neighbouring characters are both whitespace. */
  predicate NoDoubleSpace(s: string) {
    forall j :: 0 <= j < |s| - 1 ==> !(IsJsSpace(s[j]) && IsJsSpace(s[j + 1]))
  }

  /** The only whitespace character is the plain space. */
  predicate OnlyPlainSpaces(s: string) {
    forall j :: 0 <= j < |s| ==> IsJsSpace(s[j]) ==> s[j] == ' '
  }

  lemma {:induction false} CollapseFrom(s: string, i: nat)
    requires i <= |s|
    ensures var r := ReplaceAll(Spaces, s, " ", i);
      NoDoubleSpace(r) && OnlyPlainSpaces(r)
      && (i < |s| && !IsJsSpace(s[i]) ==> r != [] && r[0] == s[i])
    decreases |s| - i
  {
    if i < |s| {
      var n := SpaceRun(s, i);
      if n == 0 {
        CollapseFrom(s, i + 1);
      } else {
        CollapseFrom(s, i + n);
        var rest := ReplaceAll(Spaces, s, " ", i + n);
        assert rest == [] || !IsJsSpace(rest[0]);
        var r := " " + rest;
        assert ReplaceAll(Spaces, s, " ", i) == r;
        assert forall j :: 1 <= j < |r| ==> r[j] == rest[j - 1];
      }
    }
  }

  /** After collapsing, whitespace comes one plain space at a time. */
  lemma CollapseSpacesShape(s: string)
    ensures NoDoubleSpace(CollapseSpaces(s)) && OnlyPlainSpaces(CollapseSpaces(s))
  {
    CollapseFrom(s, 0);
  }

  /**
   * The cleaned term has no leading or trailing whitespace, no run of two
   * whitespace characters, and no whitespace other than the plain space.
   */
  lemma CleanSearchTermShape(term: string)
    ensures var r := CleanSearchTerm(term);
      (r == [] || (!IsJsSpace(r[0]) && !IsJsSpace(r[|r| - 1])))
      && NoDoubleSpace(r) && OnlyPlainSpaces(r)
  {
    var a := ReplaceAll(Brackets, term, "", 0);
    var b := ReplaceAll(Featuring, a, "", 0);
    var c := ReplaceAll(Suffixes, b, "", 0);
    CollapseSpacesShape(c);
    TrimKeepsSpacing(CollapseSpaces(c));
  }

  /** Trimming keeps single plain spaces single and plain, and leaves none at the ends. */
  lemma TrimKeepsSpacing(d: string)
    requires NoDoubleSpace(d) && OnlyPlainSpaces(d)
    ensures var r := Trim(Js, d);
      (r == [] || (!IsJsSpace(r[0]) && !IsJsSpace(r[|r| - 1])))
      && NoDoubleSpace(r) && OnlyPlainSpaces(r)
  {
    TrimHasNoOuterSpace(Js, d);
    var off := |d| - |TrimStart(Js, d)|;
    TrimIsInfix(Js, d, off);
  }

  // ---------------------------------------------------------------------------
  // parsePlainLyrics
  // ---------------------------------------------------------------------------

  /** No whitespace at either end. */
  predicate Unpadded(t: string) {
    t == [] || (!IsJsSpace(t[0]) && !IsJsSpace(t[|t| - 1]))
  }

  /** One line with its timestamp tags removed and its whitespace trimmed. */
  function CleanLine(line: string): (t: string)
    ensures Unpadded(t)
  {
    var a := ReplaceAll(TimeTag, line, "", 0);
    var b := ReplaceAll(ShortTimeTag, a, "", 0);
    TrimHasNoOuterSpace(Js, b);
    Trim(Js, b)
  }

  /** Every line cleaned. */
  function Cleaned(lines: seq<string>): (r: seq<string>)
    ensures |r| == |lines| && forall k :: 0 <= k < |lines| ==> r[k] == CleanLine(lines[k])
    ensures forall k :: 0 <= k < |r| ==> Unpadded(r[k])
  {
    seq(|lines|, k requires 0 <= k < |lines| => CleanLine(lines[k]))
  }

  /** The texts that are not empty, in their order. */
  function NonEmpty(ts: seq<string>): seq<string>
  {
    if ts == [] then []
    else NonEmpty(ts[..|ts| - 1]) + (if ts[|ts| - 1] != "" then [ts[|ts| - 1]] else [])
  }

  /** The value `parsePlainLyrics(lyrics)` returns. */
  function PlainLyrics(lyrics: string): seq<string> {
    if lyrics == "" then [] else NonEmpty(Cleaned(Split(lyrics, "\n")))
  }

  /** `parsePlainLyrics(lyrics)`. */
  method ParsePlainLyrics(lyrics: string) returns (result: seq<string>)
    ensures result == PlainLyrics(lyrics)
  {
    if lyrics == "" {
      return [];
    }
    var lines := Split(lyrics, "\n");
    ghost var cleaned := Cleaned(lines);
    result := [];
    for k := 0 to |lines|
      invariant result == NonEmpty(cleaned[..k])
    {
      var text := CleanLine(lines[k]);
      assert text == cleaned[k];
      NonEmptyStep(cleaned, k);
      if text != "" {
        result := result + [text];
      }
    }
    assert cleaned[..|lines|] == cleaned;
  }

  /** One more text: the filtered prefix grows by that text when it is not empty. */
  lemma NonEmptyStep(ts: seq<string>, k: nat)
    requires k < |ts|
    ensures NonEmpty(ts[..k + 1]) == NonEmpty(ts[..k]) + (if ts[k] != "" then [ts[k]] else [])
  {
    assert ts[..k + 1] == ts[..k] + [ts[k]];
    NonEmptySnoc(ts[..k], ts[k]);
  }

  /** Filtering a text appended at the end keeps it exactly when it is not empty. */
  lemma NonEmptySnoc(ts: seq<string>, t: string)
    ensures NonEmpty(ts + [t]) == NonEmpty(ts) + (if t != "" then [t] else [])
  {
    assert (ts + [t])[..|ts|] == ts;
  }

  /** Filtering works piece by piece, so the order of the lines is kept. */
  lemma {:induction false} NonEmptyAppend(a: seq<string>, b: seq<string>)
    ensures NonEmpty(a + b) == NonEmpty(a) + NonEmpty(b)
    decreases |b|
  {
    if b == [] {
      assert a + b == a;
    } else {
      var b' := b[..|b| - 1];
      NonEmptyAppend(a, b');
      assert (a + b)[..|a + b| - 1] == a + b';
      assert (a + b)[|a + b| - 1] == b[|b| - 1];
    }
  }

  /** Filtering never adds texts. */
  lemma {:induction false} NonEmptyCount(ts: seq<string>)
    ensures |NonEmpty(ts)| <= |ts|
    decreases |ts|
  {
    if ts != [] {
      NonEmptyCount(ts[..|ts| - 1]);
    }
  }

  /** What survives is exactly the non-empty texts. */
  lemma {:induction false} NonEmptyMembers(ts: seq<string>, x: string)
    ensures x in NonEmpty(ts) <==> x != "" && x in ts
    decreases |ts|
  {
    if ts != [] {
      var init := ts[..|ts| - 1];
      NonEmptyMembers(init, x);
      assert ts == init + [ts[|ts| - 1]];
    }
  }

  /** The empty text has no lines, and the result never has more lines than the text. */
  lemma PlainLyricsCount(lyrics: string)
    ensures lyrics == "" ==> PlainLyrics(lyrics) == []
    ensures |PlainLyrics(lyrics)| <= |Split(lyrics, "\n")|
  {
    NonEmptyCount(Cleaned(Split(lyrics, "\n")));
  }

  /** Every resulting line is non-empty and has no leading or trailing whitespace. */
  lemma PlainLyricsTrimmed(lyrics: string, x: string)
    requires x in PlainLyrics(lyrics)
    ensures x != "" && Unpadded(x)
  {
    var cleaned := Cleaned(Split(lyrics, "\n"));
    NonEmptyMembers(cleaned, x);
    var k :| 0 <= k < |cleaned| && cleaned[k] == x;
  }

  /** The lines of the result are exactly the non-empty cleaned lines of the text. */
  lemma PlainLyricsMembers(lyrics: string, x: string)
    requires lyrics != ""
    ensures x in PlainLyrics(lyrics) <==> x != "" && x in Cleaned(Split(lyrics, "\n"))
  {
    NonEmptyMembers(Cleaned(Split(lyrics, "\n")), x);
  }

  /** A line without `[` is only trimmed. */
  lemma CleanUntaggedLine(line: string)
    requires forall j :: 0 <= j < |line| ==> line[j] != '['
    ensures CleanLine(line) == Trim(Js, line)
  {
    forall j | 0 <= j < |line| ensures MatchAt(TimeTag, line, j).None? {
      TagsNeedBracket(line, j);
    }
    ReplaceAllNoMatch(TimeTag, line, "", 0);
    assert line[0..] == line;
    forall j | 0 <= j < |line| ensures MatchAt(ShortTimeTag, line, j).None? {
      TagsNeedBracket(line, j);
    }
    ReplaceAllNoMatch(ShortTimeTag, line, "", 0);
  }

  /** A leading `[mm:ss.xx]` tag is removed and the rest of an untagged line is trimmed. */
  lemma CleanTaggedLine(tag: string, text: string)
    requires |tag| == 10 && ClockAt(tag, 0) && tag[6] == '.' && IsDigit(tag[7]) && IsDigit(tag[8]) && tag[9] == ']'
    requires forall j :: 0 <= j < |text| ==> text[j] != '['
    ensures CleanLine(tag + text) == Trim(Js, text)
  {
    var line := tag + text;
    assert DigitRun(line, 7) == 2 by {
      assert DigitRun(line, 9) == 0;
    }
    assert MatchAt(TimeTag, line, 0) == Some(10);
    forall j | 10 <= j < |line| ensures MatchAt(TimeTag, line, j).None? {
      TagsNeedBracket(line, j);
    }
    ReplaceAllNoMatch(TimeTag, line, "", 10);
    assert line[10..] == text;
    assert ReplaceAll(TimeTag, line, "", 0) == text;
    CleanUntaggedLine(text);
    forall j | 0 <= j < |text| ensures MatchAt(ShortTimeTag, text, j).None? {
      TagsNeedBracket(text, j);
    }
    ReplaceAllNoMatch(ShortTimeTag, text, "", 0);
    assert text[0..] == text;
  }

  // ---------------------------------------------------------------------------
  // findBestMatch
  // ---------------------------------------------------------------------------

  /** One search result: the fields `findBestMatch` reads (a missing name is `None`). */
  datatype Candidate = Candidate(
    trackName: Option<string>,
    artistName: Option<string>,
    plainLyrics: Json.Value,
    syncedLyrics: Json.Value)

  /** The characters `normalizeStr` keeps: `\w`, `\s` and the two CJK/Hangul ranges. */
  predicate Kept(c: char) {
    IsWordChar(c) || IsJsSpace(c) || ('\U{3000}' <= c <= '\U{9FFF}') || ('\U{AC00}' <= c <= '\U{D7AF}')
  }

  /** `replace(/[^\w\s\u3000-\u9fff\uac00-\ud7af]/g, "")`. */
  function KeepOnly(s: string): (r: string)
    ensures forall j :: 0 <= j < |r| ==> Kept(r[j])
    ensures |r| <= |s|
  {
    if s == [] then []
    else (if Kept(s[0]) then [s[0]] else []) + KeepOnly(s[1..])
  }

  /** `normalizeStr(str)`: lowercase, keep the allowed characters, trim. */
  function NormalizeStr(s: string): string {
    Trim(Js, KeepOnly(Lower(s)))
  }

  /** A normalised string holds only allowed, non-uppercase characters. */
  lemma NormalizeStrChars(s: string)
    ensures var r := NormalizeStr(s); forall j :: 0 <= j < |r| ==> Kept(r[j]) && !('A' <= r[j] <= 'Z')
  {
    var k := KeepOnly(Lower(s));
    LowerHasNoUpper(s);
    KeepOnlyKeepsNoUpper(Lower(s));
    var off := |k| - |TrimStart(Js, k)|;
    TrimIsInfix(Js, k, off);
  }

  /** A normalised string has no leading or trailing whitespace. */
  lemma NormalizeStrTrimmed(s: string)
    ensures var r := NormalizeStr(s); r == [] || (!IsJsSpace(r[0]) && !IsJsSpace(r[|r| - 1]))
  {
    TrimHasNoOuterSpace(Js, KeepOnly(Lower(s)));
  }

  lemma LowerHasNoUpper(s: string)
    ensures forall j :: 0 <= j < |Lower(s)| ==> !('A' <= Lower(s)[j] <= 'Z')
  {
  }

  lemma {:induction false} KeepOnlyKeepsNoUpper(s: string)
    requires forall j :: 0 <= j < |s| ==> !('A' <= s[j] <= 'Z')
    ensures forall j :: 0 <= j < |KeepOnly(s)| ==> !('A' <= KeepOnly(s)[j] <= 'Z')
  {
    if s != [] {
      KeepOnlyKeepsNoUpper(s[1..]);
    }
  }

  /** `r.trackName || ""` and `r.artistName || ""`. */
  function NameOr(n: Option<string>): string {
    match n case None => "" case Some(s) => s
  }

  predicate HasLyrics(c: Candidate) {
    Json.Truthy(c.plainLyrics) || Json.Truthy(c.syncedLyrics)
  }

  /** The artist part of the score. */
  function ArtistScore(rArtist: string, artist: string): (n: int)
    ensures n == 100 <==> rArtist == artist
    ensures n == 50 <==> rArtist != artist && (Contains(rArtist, artist) || Contains(artist, rArtist))
    ensures n == 0 <==> !Contains(rArtist, artist) && !Contains(artist, rArtist)
  {
    if rArtist == artist then (ContainsTrivial(artist); 100)
    else if Contains(rArtist, artist) || Contains(artist, rArtist) then 50
    else 0
  }

  /** The title part of the score. */
  function TitleScore(rTitle: string, title: string): (n: int)
    ensures n == 50 <==> rTitle == title
    ensures n == 25 <==> rTitle != title && (Contains(rTitle, title) || Contains(title, rTitle))
    ensures n == 0 <==> !Contains(rTitle, title) && !Contains(title, rTitle)
  {
    if rTitle == title then (ContainsTrivial(title); 50)
    else if Contains(rTitle, title) || Contains(title, rTitle) then 25
    else 0
  }

  /** The score of a result's normalised title and artist against the wanted ones. */
  function PairScore(rTitle: string, rArtist: string, title: string, artist: string): int {
    ArtistScore(rArtist, artist) + TitleScore(rTitle, title)
  }

  /** A score reaches the acceptance threshold exactly when the artist matches at least partly or the title exactly. */
  lemma PairScoreThreshold(rTitle: string, rArtist: string, title: string, artist: string)
    ensures PairScore(rTitle, rArtist, title, artist) >= 50 <==> ArtistScore(rArtist, artist) > 0 || rTitle == title
    ensures 0 <= PairScore(rTitle, rArtist, title, artist) <= 150
    ensures PairScore(rTitle, rArtist, title, artist) == 150 <==> rTitle == title && rArtist == artist
  {
  }

  /** The score of one result against the normalised title and artist. */
  function Score(c: Candidate, title: string, artist: string): int {
    PairScore(NormalizeStr(NameOr(c.trackName)), NormalizeStr(NameOr(c.artistName)), title, artist)
  }

  /** Scoring against fixed normalised title and artist, as a function of the result. */
  function ScoreFn(title: string, artist: string): Candidate -> int {
    c => Score(c, title, artist)
  }

  /** A result passes the two filters: it has lyrics and a positive score. */
  predicate Eligible(c: Candidate, score: Candidate -> int) {
    HasLyrics(c) && score(c) > 0
  }

  /** `results.filter(hasLyrics).map(score).filter(score > 0)`. */
  function Scored(rs: seq<Candidate>, score: Candidate -> int): (r: seq<(Candidate, int)>)
    ensures forall k :: 0 <= k < |r| ==> r[k].1 == score(r[k].0) && Eligible(r[k].0, score)
  {
    if rs == [] then []
    else
      var last := rs[|rs| - 1];
      Scored(rs[..|rs| - 1], score) + (if Eligible(last, score) then [(last, score(last))] else [])
  }

  /** Inserts `x` after every entry whose score is not lower: the comparator `b.score - a.score` in a stable sort. */
  function InsertByScore(x: (Candidate, int), s: seq<(Candidate, int)>): (r: seq<(Candidate, int)>)
    ensures |r| == |s| + 1
    ensures r[0] == (if s != [] && x.1 <= s[0].1 then s[0] else x)
  {
    if s == [] then [x]
    else if x.1 > s[0].1 then [x] + s
    else [s[0]] + InsertByScore(x, s[1..])
  }

  /** Stable sort by descending score. */
  function SortByScore(s: seq<(Candidate, int)>): (r: seq<(Candidate, int)>)
    ensures |r| == |s|
  {
    if s == [] then [] else InsertByScore(s[|s| - 1], SortByScore(s[..|s| - 1]))
  }

  /** `findBestMatch(results, title, artist)`; a `None` list stands for a missing one. */
  function FindBestMatch(results: Option<seq<Candidate>>, title: string, artist: string): Option<Candidate> {
    if results.None? || results.value == [] then None
    else
      var sorted := SortByScore(Scored(results.value, ScoreFn(NormalizeStr(title), NormalizeStr(artist))));
      if |sorted| > 0 && sorted[0].1 >= 50 then Some(sorted[0].0) else None
  }

  /**
   * Reference definition of the winner: the index of the first eligible
   * result whose score is the highest among the eligible ones.
   */
  function BestIndex(rs: seq<Candidate>, score: Candidate -> int): (r: Option<nat>)
    ensures r.Some? ==> r.value < |rs| && Eligible(rs[r.value], score)
    ensures r.Some? ==> forall j :: 0 <= j < |rs| && Eligible(rs[j], score) ==> score(rs[j]) <= score(rs[r.value])
    ensures r.Some? ==> forall j :: 0 <= j < r.value && Eligible(rs[j], score) ==> score(rs[j]) < score(rs[r.value])
    ensures r.None? ==> forall j :: 0 <= j < |rs| ==> !Eligible(rs[j], score)
  {
    if rs == [] then None
    else
      var init := rs[..|rs| - 1];
      var last := rs[|rs| - 1];
      var b := BestIndex(init, score);
      assert forall j :: 0 <= j < |init| ==> init[j] == rs[j];
      if !Eligible(last, score) then b
      else if b.None? || score(last) > score(rs[b.value]) then Some(|rs| - 1)
      else b
  }

  /** The head of the sorted scored list is the reference winner. */
  lemma {:induction false} SortedHead(rs: seq<Candidate>, score: Candidate -> int)
    ensures var s := SortByScore(Scored(rs, score)); var b := BestIndex(rs, score);
      (b.None? <==> s == []) && (b.Some? ==> s[0] == (rs[b.value], score(rs[b.value])))
    decreases |rs|
  {
    if rs != [] {
      var init := rs[..|rs| - 1];
      var last := rs[|rs| - 1];
      SortedHead(init, score);
      var t := Scored(init, score);
      if Eligible(last, score) {
        var x := (last, score(last));
        assert Scored(rs, score) == t + [x];
        assert (t + [x])[..|t|] == t;
        assert SortByScore(Scored(rs, score)) == InsertByScore(x, SortByScore(t));
      } else {
        assert Scored(rs, score) == t;
      }
      var b := BestIndex(init, score);
      if b.Some? {
        assert init[b.value] == rs[b.value];
      }
    }
  }

  /**
   * `findBestMatch` returns the first result with the highest score among
   * those with lyrics, when that score is at least 50, and null otherwise;
   * a missing or empty list gives null.
   */
  lemma FindBestMatchIsBest(rs: seq<Candidate>, title: string, artist: string)
    ensures var score := ScoreFn(NormalizeStr(title), NormalizeStr(artist));
      FindBestMatch(Some(rs), title, artist) ==
        match BestIndex(rs, score)
        case None => None
        case Some(i) => if score(rs[i]) >= 50 then Some(rs[i]) else None
    ensures FindBestMatch(None, title, artist) == None && FindBestMatch(Some([]), title, artist) == None
  {
    SortedHead(rs, ScoreFn(NormalizeStr(title), NormalizeStr(artist)));
  }

  /** The first-maximal index is unique: any index with the winner's properties is the winner. */
  lemma BestIndexUnique(rs: seq<Candidate>, score: Candidate -> int, i: nat)
    requires i < |rs| && Eligible(rs[i], score)
    requires forall j :: 0 <= j < |rs| && Eligible(rs[j], score) ==> score(rs[j]) <= score(rs[i])
    requires forall j :: 0 <= j < i && Eligible(rs[j], score) ==> score(rs[j]) < score(rs[i])
    ensures BestIndex(rs, score) == Some(i)
  {
  }

  /** Some eligible result reaches a threshold exactly when the winner does. */
  lemma BestIndexReaches(rs: seq<Candidate>, score: Candidate -> int, threshold: int)
    requires threshold > 0
    ensures (exists j :: 0 <= j < |rs| && HasLyrics(rs[j]) && score(rs[j]) >= threshold) <==>
      (BestIndex(rs, score).Some? && score(rs[BestIndex(rs, score).value]) >= threshold)
  {
    if exists j :: 0 <= j < |rs| && HasLyrics(rs[j]) && score(rs[j]) >= threshold {
      var j :| 0 <= j < |rs| && HasLyrics(rs[j]) && score(rs[j]) >= threshold;
      assert Eligible(rs[j], score);
    }
  }

  /** A result is returned exactly when some result with lyrics scores at least 50. */
  lemma FindBestMatchSome(rs: seq<Candidate>, title: string, artist: string)
    ensures var score := ScoreFn(NormalizeStr(title), NormalizeStr(artist));
      FindBestMatch(Some(rs), title, artist).Some? <==>
        exists j :: 0 <= j < |rs| && HasLyrics(rs[j]) && score(rs[j]) >= 50
  {
    FindBestMatchIsBest(rs, title, artist);
    BestIndexReaches(rs, ScoreFn(NormalizeStr(title), NormalizeStr(artist)), 50);
  }
}
