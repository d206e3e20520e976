/**
 * Character classes and string operations that the application's
 * TypeScript, JavaScript and Rust code relies on: the whitespace sets of
 * JavaScript and Rust, ASCII case mapping, trimming, searching, splitting
 * and joining, and the `/\.[^/.]+$/` extension-stripping expression that
 * three source files share.
 */
module Text {
  import opened Wrappers

  // ---------------------------------------------------------------------------
  // Character classes
  // ---------------------------------------------------------------------------

  /** JavaScript line terminators: the characters that `.` in a regular expression does not match. */
  predicate IsLineTerminator(c: char) {
    c == '\n' || c == '\r' || c == '\U{2028}' || c == '\U{2029}'
  }

  /** JavaScript `\s`: WhiteSpace and LineTerminator, also the set that `trim` and `parseInt` skip. */
  predicate IsJsSpace(c: char) {
    c == '\t' || c == '\n' || c == '\U{000B}' || c == '\U{000C}' || c == '\r' || c == ' '
    || c == '\U{00A0}' || c == '\U{1680}' || ('\U{2000}' <= c <= '\U{200A}')
    || c == '\U{2028}' || c == '\U{2029}' || c == '\U{202F}' || c == '\U{205F}'
    || c == '\U{3000}' || c == '\U{FEFF}'
  }

  /** Rust `char::is_whitespace` (the Unicode White_Space property), the set that `str::trim` strips. */
  predicate IsRustSpace(c: char) {
    ('\t' <= c <= '\r') || c == ' ' || c == '\U{0085}' || c == '\U{00A0}' || c == '\U{1680}'
    || ('\U{2000}' <= c <= '\U{200A}') || c == '\U{2028}' || c == '\U{2029}' || c == '\U{202F}'
    || c == '\U{205F}' || c == '\U{3000}'
  }

  /** Which language's notion of whitespace a trim uses. */
  datatype Flavour = Js | Rust

  predicate IsSpace(f: Flavour, c: char) {
    match f
    case Js => IsJsSpace(c)
    case Rust => IsRustSpace(c)
  }

  /** ASCII decimal digit: JavaScript `\d`, Rust `is_ascii_digit`. */
  predicate IsDigit(c: char) {
    '0' <= c <= '9'
  }

  /** JavaScript `\w`: ASCII letters, digits and underscore. */
  predicate IsWordChar(c: char) {
    ('a' <= c <= 'z') || ('A' <= c <= 'Z') || IsDigit(c) || c == '_'
  }

  predicate AllDigits(s: string) {
    forall i :: 0 <= i < |s| ==> IsDigit(s[i])
  }

  /** `/^\d+$/`: one or more digits and nothing else. */
  predicate IsNumber(s: string) {
    s != [] && AllDigits(s)
  }

  predicate NoLineTerminator(s: string) {
    forall i :: 0 <= i < |s| ==> !IsLineTerminator(s[i])
  }

  // ---------------------------------------------------------------------------
  // ASCII case mapping (toLowerCase / toUpperCase / to_lowercase on ASCII)
  // ---------------------------------------------------------------------------

  function LowerChar(c: char): char {
    if 'A' <= c <= 'Z' then (c as int + 32) as char else c
  }

  function UpperChar(c: char): char {
    if 'a' <= c <= 'z' then (c as int - 32) as char else c
  }

  function Lower(s: string): string {
    seq(|s|, i requires 0 <= i < |s| => LowerChar(s[i]))
  }

  function Upper(s: string): string {
    seq(|s|, i requires 0 <= i < |s| => UpperChar(s[i]))
  }

  /** No ASCII lower-case letter occurs in `s`. */
  predicate IsUpperCase(s: string) {
    forall i :: 0 <= i < |s| ==> !('a' <= s[i] <= 'z')
  }

  lemma UpperIsUpperCase(s: string)
    ensures |Upper(s)| == |s| && IsUpperCase(Upper(s))
  {
  }

  lemma UpperOfLower(s: string)
    ensures Upper(Lower(s)) == Upper(s)
  {
  }

  lemma LowerOfCase(s: string)
    ensures Lower(Lower(s)) == Lower(s) && Lower(Upper(s)) == Lower(s)
  {
  }

  // ---------------------------------------------------------------------------
  // Trimming
  // ---------------------------------------------------------------------------

  /** Removes leading whitespace of the given flavour. */
  function TrimStart(f: Flavour, s: string): (r: string)
    ensures |r| <= |s| && r == s[|s| - |r|..]
    ensures r == [] || !IsSpace(f, r[0])
    ensures forall i :: 0 <= i < |s| - |r| ==> IsSpace(f, s[i])
  {
    if s != [] && IsSpace(f, s[0]) then TrimStart(f, s[1..]) else s
  }

  /** Removes trailing whitespace of the given flavour. */
  function TrimEnd(f: Flavour, s: string): (r: string)
    ensures |r| <= |s| && r == s[..|r|]
    ensures r == [] || !IsSpace(f, r[|r| - 1])
    ensures forall i :: |r| <= i < |s| ==> IsSpace(f, s[i])
  {
    if s != [] && IsSpace(f, s[|s| - 1]) then TrimEnd(f, s[..|s| - 1]) else s
  }

  lemma TrimStartNoop(f: Flavour, s: string)
    requires s == [] || !IsSpace(f, s[0])
    ensures TrimStart(f, s) == s
  {
  }

  lemma TrimEndNoop(f: Flavour, s: string)
    requires s == [] || !IsSpace(f, s[|s| - 1])
    ensures TrimEnd(f, s) == s
  {
  }

  /** JavaScript `String.prototype.trim` (flavour Js) and Rust `str::trim` (flavour Rust). */
  function Trim(f: Flavour, s: string): string {
    TrimEnd(f, TrimStart(f, s))
  }

  /**
   * The trimmed string is an infix of the input, character by character,
   * from the number `a` of leading whitespace characters on, with only
   * whitespace cut on either side.
   */
  lemma TrimIsInfix(f: Flavour, s: string, a: nat)
    requires a == |s| - |TrimStart(f, s)|
    ensures var r := Trim(f, s);
      && a + |r| <= |s|
      && (forall j :: 0 <= j < |r| ==> r[j] == s[a + j])
      && (forall i :: 0 <= i < a ==> IsSpace(f, s[i]))
      && (forall i :: a + |r| <= i < |s| ==> IsSpace(f, s[i]))
  {
    TrimEndOfSuffix(f, TrimStart(f, s), s, a);
  }

  /** Trimming the end of `s[a..]` keeps a prefix of it, cut where only whitespace of `s` follows. */
  lemma TrimEndOfSuffix(f: Flavour, t: string, s: string, a: nat)
    requires a <= |s| && t == s[a..]
    ensures var r := TrimEnd(f, t);
      && a + |r| <= |s|
      && (forall j :: 0 <= j < |r| ==> r[j] == s[a + j])
      && (forall i :: a + |r| <= i < |s| ==> IsSpace(f, s[i]))
  {
    var r := TrimEnd(f, t);
    forall i | a + |r| <= i < |s| ensures IsSpace(f, s[i]) {
      assert s[i] == t[i - a];
    }
  }

  /** A trimmed string has no whitespace at either end. */
  lemma TrimHasNoOuterSpace(f: Flavour, s: string)
    ensures var r := Trim(f, s); r == [] || (!IsSpace(f, r[0]) && !IsSpace(f, r[|r| - 1]))
  {
    var t := TrimStart(f, s);
    var r := TrimEnd(f, t);
    if r != [] {
      assert r[0] == t[0];
    }
  }

  /** Trimming twice is trimming once. */
  lemma TrimIdempotent(f: Flavour, s: string)
    ensures Trim(f, Trim(f, s)) == Trim(f, s)
  {
    var r := Trim(f, s);
    TrimHasNoOuterSpace(f, r);
    TrimHasNoOuterSpace(f, s);
    assert TrimStart(f, r) == r;
    assert TrimEnd(f, r) == r;
  }

  /** A string without whitespace at its ends is its own trim. */
  lemma TrimOfUnpadded(f: Flavour, s: string)
    requires s == [] || (!IsSpace(f, s[0]) && !IsSpace(f, s[|s| - 1]))
    ensures Trim(f, s) == s
  {
  }

  /** Whitespace in front of a string does not change its trim. */
  lemma TrimSkipsLeadingSpaces(f: Flavour, s: string, k: nat)
    requires k <= |s|
    requires forall i :: 0 <= i < k ==> IsSpace(f, s[i])
    ensures TrimStart(f, s[k..]) == TrimStart(f, s)
    ensures Trim(f, s[k..]) == Trim(f, s)
  {
    TrimStartSkipsLeadingSpaces(f, s, k);
    calc {
      Trim(f, s[k..]);
      TrimEnd(f, TrimStart(f, s[k..]));
      TrimEnd(f, TrimStart(f, s));
      Trim(f, s);
    }
  }

  /** Whitespace in front of a string does not change its trim start. */
  lemma {:induction false} TrimStartSkipsLeadingSpaces(f: Flavour, s: string, k: nat)
    requires k <= |s|
    requires forall i :: 0 <= i < k ==> IsSpace(f, s[i])
    ensures TrimStart(f, s[k..]) == TrimStart(f, s)
    decreases k
  {
    if k == 0 {
      assert s[k..] == s;
    } else {
      TrimStartSkipsLeadingSpaces(f, s, k - 1);
      var t := s[k - 1..];
      assert t[1..] == s[k..];
      assert IsSpace(f, t[0]);
    }
  }

  /** Whitespace after a string does not change its trim end. */
  lemma {:induction false} TrimEndSkipsTrailingSpaces(f: Flavour, a: string, b: string)
    requires forall i :: 0 <= i < |b| ==> IsSpace(f, b[i])
    ensures TrimEnd(f, a + b) == TrimEnd(f, a)
    decreases |b|
  {
    if b == [] {
      assert a + b == a;
    } else {
      assert (a + b)[..|a + b| - 1] == a + b[..|b| - 1];
      TrimEndSkipsTrailingSpaces(f, a, b[..|b| - 1]);
    }
  }

  /** Whitespace after a string does not change its trim. */
  lemma {:induction false} TrimSkipsTrailingSpaces(f: Flavour, a: string, b: string)
    requires forall i :: 0 <= i < |b| ==> IsSpace(f, b[i])
    ensures Trim(f, a + b) == Trim(f, a)
    decreases |a|
  {
    if a == [] {
      assert a + b == b;
      TrimOfSpaces(f, b);
    } else if IsSpace(f, a[0]) {
      assert (a + b)[1..] == a[1..] + b;
      assert TrimStart(f, a + b) == TrimStart(f, a[1..] + b);
      assert TrimStart(f, a) == TrimStart(f, a[1..]);
      TrimSkipsTrailingSpaces(f, a[1..], b);
    } else {
      TrimEndSkipsTrailingSpaces(f, a, b);
      calc {
        Trim(f, a + b);
        TrimEnd(f, TrimStart(f, a + b));
        { assert (a + b)[0] == a[0]; }
        TrimEnd(f, a + b);
        TrimEnd(f, a);
        TrimEnd(f, TrimStart(f, a));
        Trim(f, a);
      }
    }
  }

  /** A string made only of whitespace trims to nothing. */
  lemma TrimOfSpaces(f: Flavour, s: string)
    requires forall i :: 0 <= i < |s| ==> IsSpace(f, s[i])
    ensures TrimStart(f, s) == [] && Trim(f, s) == []
  {
  }

  // ---------------------------------------------------------------------------
  // Searching
  // ---------------------------------------------------------------------------

  /** `t` occurs in `s` at position `i`. */
  predicate OccursAt(s: string, t: string, i: int) {
    0 <= i && i + |t| <= |s| && s[i..i + |t|] == t
  }

  /** The first position at or after `k` where `t` occurs in `s`. */
  function FindFrom(s: string, t: string, k: nat): (r: Option<nat>)
    requires k <= |s|
    ensures r.Some? ==> k <= r.value && OccursAt(s, t, r.value)
    ensures r.Some? ==> forall j :: k <= j < r.value ==> !OccursAt(s, t, j)
    ensures r.None? ==> forall j :: k <= j <= |s| ==> !OccursAt(s, t, j)
    decreases |s| - k
  {
    if OccursAt(s, t, k) then Some(k)
    else if k == |s| then None
    else FindFrom(s, t, k + 1)
  }

  /** Rust `str::find` / JavaScript `indexOf`: the first occurrence of `t` in `s`. */
  function Find(s: string, t: string): Option<nat>
  {
    FindFrom(s, t, 0)
  }

  /** Rust `str::contains` / JavaScript `includes`. */
  predicate Contains(s: string, t: string) {
    Find(s, t).Some?
  }

  lemma ContainsIff(s: string, t: string)
    ensures Contains(s, t) <==> exists i :: OccursAt(s, t, i)
  {
    if !Contains(s, t) {
      forall i ensures !OccursAt(s, t, i) {
        if 0 <= i <= |s| {
        }
      }
    }
  }

  /** Every string contains the empty string and itself. */
  lemma ContainsTrivial(s: string)
    ensures Contains(s, "") && Contains(s, s)
  {
    assert OccursAt(s, "", 0);
    assert OccursAt(s, s, 0);
  }

  /** The last position of `c` in `s`. */
  function LastIndexOf(s: string, c: char): (r: Option<nat>)
    ensures r.Some? ==> r.value < |s| && s[r.value] == c && forall j :: r.value < j < |s| ==> s[j] != c
    ensures r.None? ==> forall j :: 0 <= j < |s| ==> s[j] != c
  {
    if s == [] then None
    else if s[|s| - 1] == c then Some(|s| - 1)
    else LastIndexOf(s[..|s| - 1], c)
  }

  // ---------------------------------------------------------------------------
  // Splitting and joining
  // ---------------------------------------------------------------------------

  /** JavaScript `s.split(sep)` for a non-empty separator: cut at every non-overlapping occurrence, left to right. */
  function Split(s: string, sep: string): (parts: seq<string>)
    requires sep != []
    ensures |parts| >= 1
    decreases |s|
  {
    match Find(s, sep)
    case None => [s]
    case Some(i) => [s[..i]] + Split(s[i + |sep|..], sep)
  }

  /** JavaScript `parts.join(sep)`. */
  function Join(parts: seq<string>, sep: string): string
  {
    if |parts| == 0 then ""
    else if |parts| == 1 then parts[0]
    else parts[0] + sep + Join(parts[1..], sep)
  }

  lemma JoinCons(head: string, tail: seq<string>, sep: string)
    requires |tail| >= 1
    ensures Join([head] + tail, sep) == head + sep + Join(tail, sep)
  {
    assert ([head] + tail)[1..] == tail;
  }

  /** Where the first separator is, the string is the text before it, the separator and the rest. */
  lemma FindSplits(s: string, sep: string, i: nat)
    requires Find(s, sep) == Some(i)
    ensures i + |sep| <= |s| && s == s[..i] + sep + s[i + |sep|..]
  {
    assert OccursAt(s, sep, i);
    assert s[i..i + |sep|] == sep;
    assert s == s[..i] + s[i..i + |sep|] + s[i + |sep|..];
  }

  /** Joining the pieces of a split with the same separator gives back the string. */
  lemma {:induction false} JoinSplit(s: string, sep: string)
    requires sep != []
    ensures Join(Split(s, sep), sep) == s
    decreases |s|
  {
    var f := Find(s, sep);
    if f.Some? {
      var i := f.value;
      var rest := s[i + |sep|..];
      var tail := Split(rest, sep);
      assert Split(s, sep) == [s[..i]] + tail;
      JoinSplit(rest, sep);
      JoinCons(s[..i], tail, sep);
      FindSplits(s, sep, i);
    }
  }

  /** No piece of a split contains the separator. */
  lemma {:induction false} SplitPiecesAvoidSeparator(s: string, sep: string)
    requires sep != []
    ensures forall k :: 0 <= k < |Split(s, sep)| ==> !Contains(Split(s, sep)[k], sep)
    decreases |s|
  {
    match Find(s, sep)
    case None =>
      ContainsIff(s, sep);
    case Some(i) =>
      var rest := s[i + |sep|..];
      SplitPiecesAvoidSeparator(rest, sep);
      var head := s[..i];
      ContainsIff(head, sep);
      if Contains(head, sep) {
        var j :| OccursAt(head, sep, j);
        assert s[j..j + |sep|] == head[j..j + |sep|];
        assert OccursAt(s, sep, j);
        assert false;
      }
      assert Split(s, sep) == [head] + Split(rest, sep);
  }

  /** The piece before the first separator in a split is the text before the first occurrence. */
  lemma SplitHead(s: string, sep: string)
    requires sep != []
    ensures Find(s, sep).None? ==> Split(s, sep) == [s]
    ensures Find(s, sep).Some? ==>
              (|Split(s, sep)| >= 2 && Split(s, sep)[0] == s[..Find(s, sep).value]
               && Join(Split(s, sep)[1..], sep) == s[Find(s, sep).value + |sep|..])
  {
    var f := Find(s, sep);
    if f.Some? {
      var i := f.value;
      var rest := s[i + |sep|..];
      var tail := Split(rest, sep);
      assert Split(s, sep) == [s[..i]] + tail;
      assert Split(s, sep)[1..] == tail;
      JoinSplit(rest, sep);
    }
  }

  // ---------------------------------------------------------------------------
  // File names
  // ---------------------------------------------------------------------------

  /** The separator between artist and title in an "Artist - Title" file name. */
  const Dash: string := " - "

  /** JavaScript's `field || fallback` on an optional string. */
  function OrDefault(o: Option<string>, fallback: string): (r: string)
    ensures o.Some? && o.value != "" ==> r == o.value
    ensures (o.None? || o.value == "") ==> r == fallback
  {
    match o
    case Some(v) => if v != "" then v else fallback
    case None => fallback
  }

  /** The last component of a path: the text after its last '/'. */
  function BaseName(path: string): (name: string)
    ensures |name| <= |path| && name == path[|path| - |name|..]
    ensures forall j :: 0 <= j < |name| ==> name[j] != '/'
  {
    match LastIndexOf(path, '/')
    case None => path
    case Some(p) => path[p + 1..]
  }

  /** The placeholders shown for a missing artist or album. */
  const UnknownArtist: string := "Unknown Artist"
  const UnknownAlbum: string := "Unknown Album"

  /**
   * `name.replace(/\.[^/.]+$/, "")`: drops a final extension, that is a
   * dot followed by at least one character and no further dot or slash.
   */
  function StripJsExtension(s: string): string
  {
    match LastIndexOf(s, '.')
    case None => s
    case Some(p) =>
      if p + 1 < |s| && (forall j | p < j < |s| :: s[j] != '/') then s[..p] else s
  }

  /** What the stripping expression removes is exactly an extension, or nothing. */
  lemma StripJsExtensionSplits(s: string)
    ensures var r := StripJsExtension(s);
      |r| <= |s| && s[..|r|] == r
      && (|r| < |s| ==>
            |s| - |r| >= 2 && s[|r|] == '.'
            && forall j :: |r| < j < |s| ==> s[j] != '.' && s[j] != '/')
  {
  }

  /** The stripping expression leaves a name without a usable extension alone. */
  lemma StripJsExtensionKeeps(s: string)
    requires forall j :: 0 <= j < |s| ==> s[j] != '.'
    ensures StripJsExtension(s) == s
  {
  }
}
