/**
 * Hex colour handling of services/colorService.ts: `adjustBrightness` and
 * `ensureDarkColor`.
 *
 * Both normalise the text the same way (drop leading whitespace and a `#`,
 * drop trailing whitespace, expand a three-character code), read three
 * channels with JavaScript's `parseInt(_, 16)` on two-character slices
 * (a parse failure is `None`, standing for NaN), and format each channel
 * with `toString(16).padStart(2, '0')`. Numbers are exact: percentages and
 * the luminance threshold are reals, so the rounding of double arithmetic
 * is not modelled.
 */
module ColorService {

  import opened Wrappers
  import opened Text

  // ---------------------------------------------------------------------------
  // parseInt(_, 16) and toString(16)
  // ---------------------------------------------------------------------------

  predicate IsHexDigit(c: char) {
    ('0' <= c <= '9') || ('a' <= c <= 'f') || ('A' <= c <= 'F')
  }

  predicate IsLowerHexDigit(c: char) {
    ('0' <= c <= '9') || ('a' <= c <= 'f')
  }

  function HexDigitValue(c: char): (v: nat)
    requires IsHexDigit(c)
    ensures v < 16
  {
    if '0' <= c <= '9' then c as int - '0' as int
    else if 'a' <= c <= 'f' then c as int - 'a' as int + 10
    else c as int - 'A' as int + 10
  }

  /** Number of leading hex digits. */
  function HexRun(s: string): (n: nat)
    ensures n <= |s|
    ensures forall i :: 0 <= i < n ==> IsHexDigit(s[i])
    ensures n < |s| ==> !IsHexDigit(s[n])
  {
    if s == [] || !IsHexDigit(s[0]) then 0 else 1 + HexRun(s[1..])
  }

  /** The value of a string of hex digits, most significant first. */
  function HexValue(d: string): nat
    requires forall i :: 0 <= i < |d| ==> IsHexDigit(d[i])
  {
    if d == [] then 0 else 16 * HexValue(d[..|d| - 1]) + HexDigitValue(d[|d| - 1])
  }

  /**
   * `parseInt(s, 16)`: skip leading whitespace, take one optional sign,
   * drop a `0x`/`0X` prefix, then read the longest run of hex digits;
   * no digits is NaN (`None`).
   */
  function ParseIntHex(s: string): Option<int> {
    var t := TrimStart(Js, s);
    var negative := |t| > 0 && t[0] == '-';
    var u := if |t| > 0 && (t[0] == '-' || t[0] == '+') then t[1..] else t;
    var v := if |u| >= 2 && u[0] == '0' && (u[1] == 'x' || u[1] == 'X') then u[2..] else u;
    match HexPrefix(v)
    case None => None
    case Some(x) => if negative then Some(-(x as int)) else Some(x)
  }

  /** The value of the longest run of hex digits at the front, and nothing when there is none. */
  function HexPrefix(v: string): Option<nat> {
    var n := HexRun(v);
    if n == 0 then None else Some(HexValue(v[..n]))
  }

  /** The lowercase digit for a value below 16. */
  function HexDigitChar(d: int): (c: char)
    requires 0 <= d < 16
    ensures IsLowerHexDigit(c) && IsHexDigit(c) && HexDigitValue(c) == d
  {
    if d < 10 then ('0' as int + d) as char else ('a' as int + d - 10) as char
  }

  /** Lowercase hex digits of a natural number, without leading zeros. */
  function HexDigits(n: nat): (s: string)
    ensures |s| >= 1
  {
    if n < 16 then [HexDigitChar(n)] else HexDigits(n / 16) + [HexDigitChar(n % 16)]
  }

  /** `Number.prototype.toString(16)` on an integer. */
  function NumberToHex(n: int): string {
    if n < 0 then "-" + HexDigits(-n) else HexDigits(n)
  }

  /** `padStart(2, '0')`. */
  function PadStart2(s: string): string {
    if |s| >= 2 then s else seq(2 - |s|, _ => '0') + s
  }

  /** One channel as the colour string shows it. */
  function Hex2(n: int): string {
    PadStart2(NumberToHex(n))
  }

  /** Hex digits, `#`, `-` and `+` are not whitespace. */
  lemma NotSpace(c: char)
    requires IsHexDigit(c) || c == '#' || c == '-' || c == '+'
    ensures !IsSpace(Js, c)
  {
  }

  /** A byte value formats as exactly two lowercase hex digits, high digit first. */
  lemma Hex2OfByte(n: int)
    requires 0 <= n < 256
    ensures Hex2(n) == [HexDigitChar(n / 16), HexDigitChar(n % 16)]
  {
    if n >= 16 {
      assert HexDigits(n / 16) == [HexDigitChar(n / 16)];
    }
  }

  /** A channel between -15 and 255 formats as exactly two characters; a negative one as `-` and a digit. */
  lemma Hex2Length(n: int)
    requires -15 <= n < 256
    ensures |Hex2(n)| == 2
    ensures n >= 0 ==> IsLowerHexDigit(Hex2(n)[0]) && IsLowerHexDigit(Hex2(n)[1])
    ensures n < 0 ==> Hex2(n) == ['-', HexDigitChar(-n)]
  {
    if n >= 0 {
      Hex2OfByte(n);
    }
  }

  /** Two hex digits parse to their value. */
  lemma ParseTwoDigits(a: char, b: char)
    requires IsHexDigit(a) && IsHexDigit(b)
    ensures ParseIntHex([a, b]) == Some(16 * HexDigitValue(a) + HexDigitValue(b))
  {
    var s := [a, b];
    NotSpace(a);
    assert TrimStart(Js, s) == s;
    assert HexRun(s) == 2 by {
      assert s[1..] == [b];
      assert HexRun([b]) == 1 + HexRun([]) by {
        assert [b][1..] == [];
      }
    }
    assert s[..2] == s;
    assert HexValue(s) == 16 * HexDigitValue(a) + HexDigitValue(b) by {
      assert s[..1] == [a];
      assert [a][..0] == [];
      assert HexValue([a]) == HexDigitValue(a);
    }
  }

  /** parseInt reads back what toString(16) wrote, for a byte. */
  lemma ParseHex2(n: int)
    requires 0 <= n < 256
    ensures ParseIntHex(Hex2(n)) == Some(n)
  {
    var hi, lo := n / 16, n % 16;
    var a, b := HexDigitChar(hi), HexDigitChar(lo);
    Hex2OfByte(n);
    ParseHex2Chars(n, a, b);
    assert 16 * HexDigitValue(a) + HexDigitValue(b) == 16 * hi + lo == n;
  }

  lemma ParseHex2Chars(n: int, a: char, b: char)
    requires IsHexDigit(a) && IsHexDigit(b) && Hex2(n) == [a, b]
    ensures ParseIntHex(Hex2(n)) == Some(16 * HexDigitValue(a) + HexDigitValue(b))
  {
    ParseTwoDigits(a, b);
  }

  /** A slice of at most two characters parses to a value between -15 and 255. */
  lemma ParseIntHexRange(s: string)
    requires |s| <= 2
    ensures ParseIntHex(s).Some? ==> -15 <= ParseIntHex(s).value <= 255
    ensures ParseIntHex(s).Some? && ParseIntHex(s).value < 0 ==> s[0] == '-'
  {
    var t := TrimStart(Js, s);
    var u := if |t| > 0 && (t[0] == '-' || t[0] == '+') then t[1..] else t;
    var v := if |u| >= 2 && u[0] == '0' && (u[1] == 'x' || u[1] == 'X') then u[2..] else u;
    var n := HexRun(v);
    if n > 0 {
      if n == 1 {
        assert v[..1][..0] == [];
        assert HexValue(v[..1]) < 16;
      } else {
        assert n == 2 && |v| == 2 && v == s && v[..2] == v;
        assert HexValue(v[..1]) < 16 by {
          assert v[..1][..0] == [];
        }
        assert v[..2][..1] == v[..1];
      }
      if t != s {
        assert |t| <= 1;
      }
    }
  }

  // ---------------------------------------------------------------------------
  // Normalisation and parsing
  // ---------------------------------------------------------------------------

  /**
   * `hex.replace(/^\s*#|\s*$/g, '')`: leading whitespace goes only together
   * with a `#` that follows it; trailing whitespace always goes.
   */
  function StripHash(s: string): (r: string)
    ensures r == [] || !IsJsSpace(r[|r| - 1])
  {
    var t := TrimStart(Js, s);
    if |t| > 0 && t[0] == '#' then TrimEnd(Js, t[1..]) else TrimEnd(Js, s)
  }

  /** `s.replace(/(.)/g, '$1$1')`: every character except a line terminator doubled. */
  function DoubleChars(s: string): (r: string)
    ensures NoLineTerminator(s) ==> |r| == 2 * |s|
  {
    if s == [] then []
    else (if IsLineTerminator(s[0]) then [s[0]] else [s[0], s[0]]) + DoubleChars(s[1..])
  }

  /** On a single line, `DoubleChars` puts each character twice in its own place: positions 2i and 2i+1 hold `s[i]`. */
  lemma {:induction false} DoubleCharsAt(s: string, i: nat)
    requires NoLineTerminator(s) && i < |s|
    ensures |DoubleChars(s)| == 2 * |s|
    ensures DoubleChars(s)[2 * i] == s[i] && DoubleChars(s)[2 * i + 1] == s[i]
    decreases i
  {
    var rest := s[1..];
    assert !IsLineTerminator(s[0]);
    assert DoubleChars(s) == [s[0], s[0]] + DoubleChars(rest);
    if i > 0 {
      assert NoLineTerminator(rest) by {
        forall j | 0 <= j < |rest| ensures !IsLineTerminator(rest[j]) {
          assert rest[j] == s[j + 1];
        }
      }
      DoubleCharsAt(rest, i - 1);
      assert rest[i - 1] == s[i];
    }
  }

  /** Strip, then expand a three-character code. */
  function Normalise(hex: string): string {
    var c := StripHash(hex);
    if |c| == 3 then DoubleChars(c) else c
  }

  /** `s.substr(start, len)`. */
  function Substr(s: string, start: nat, len: nat): (r: string)
    ensures |r| <= len
  {
    var a := if start < |s| then start else |s|;
    var b := if start + len < |s| then start + len else |s|;
    s[a..b]
  }

  /** The three channels of a normalised code, or `None` when any of them is NaN. */
  function ParseCode(c: string): (r: Option<(int, int, int)>)
    ensures r.Some? ==> -15 <= r.value.0 <= 255 && -15 <= r.value.1 <= 255 && -15 <= r.value.2 <= 255
  {
    ParseIntHexRange(Substr(c, 0, 2));
    ParseIntHexRange(Substr(c, 2, 2));
    ParseIntHexRange(Substr(c, 4, 2));
    var r, g, b := ParseIntHex(Substr(c, 0, 2)), ParseIntHex(Substr(c, 2, 2)), ParseIntHex(Substr(c, 4, 2));
    if r.None? || g.None? || b.None? then None else Some((r.value, g.value, b.value))
  }

  /** The three channels of a colour text. */
  function Channels(hex: string): (r: Option<(int, int, int)>)
    ensures r.Some? ==> -15 <= r.value.0 <= 255 && -15 <= r.value.1 <= 255 && -15 <= r.value.2 <= 255
  {
    ParseCode(Normalise(hex))
  }

  /** A `#` directly in front of a code without trailing whitespace is all that is stripped. */
  lemma StripHashOfHashed(body: string)
    requires body == [] || !IsSpace(Js, body[|body| - 1])
    ensures StripHash("#" + body) == body
  {
    var s := "#" + body;
    assert s[0] == '#' && s[1..] == body;
    NotSpace('#');
    TrimStartNoop(Js, s);
    TrimEndNoop(Js, body);
  }

  /** The two-character slices of three pairs are the pairs. */
  lemma SubstrOfPairs(x: string, y: string, z: string)
    requires |x| == 2 && |y| == 2 && |z| == 2
    ensures var c := x + y + z; Substr(c, 0, 2) == x && Substr(c, 2, 2) == y && Substr(c, 4, 2) == z
  {
    var c := x + y + z;
    assert c[0..2] == x && c[2..4] == y && c[4..6] == z;
  }

  /** `#rrggbb` in lowercase. */
  function Format(r: int, g: int, b: int): string {
    "#" + Hex2(r) + Hex2(g) + Hex2(b)
  }

  predicate IsColourString(s: string) {
    |s| == 7 && s[0] == '#' && forall i :: 1 <= i < 7 ==> IsLowerHexDigit(s[i])
  }

  /** `#` followed by one digit six times is a colour. */
  lemma RepeatedDigitIsColour(c: char)
    requires IsLowerHexDigit(c)
    ensures IsColourString(['#', c, c, c, c, c, c])
  {
  }

  lemma FormatIsColour(r: int, g: int, b: int)
    requires 0 <= r < 256 && 0 <= g < 256 && 0 <= b < 256
    ensures IsColourString(Format(r, g, b))
  {
    Hex2OfByte(r);
    Hex2OfByte(g);
    Hex2OfByte(b);
    DigitsAreColour(HexDigitChar(r / 16), HexDigitChar(r % 16), HexDigitChar(g / 16),
                    HexDigitChar(g % 16), HexDigitChar(b / 16), HexDigitChar(b % 16));
  }

  /** `#` and six lowercase digits is a colour. */
  lemma DigitsAreColour(c1: char, c2: char, c3: char, c4: char, c5: char, c6: char)
    requires IsLowerHexDigit(c1) && IsLowerHexDigit(c2) && IsLowerHexDigit(c3)
    requires IsLowerHexDigit(c4) && IsLowerHexDigit(c5) && IsLowerHexDigit(c6)
    ensures IsColourString("#" + [c1, c2] + [c3, c4] + [c5, c6])
  {
    assert "#" + [c1, c2] + [c3, c4] + [c5, c6] == ['#', c1, c2, c3, c4, c5, c6];
  }

  /** Parsing a formatted colour gives back its channels. */
  lemma ChannelsOfFormat(r: int, g: int, b: int)
    requires 0 <= r < 256 && 0 <= g < 256 && 0 <= b < 256
    ensures Channels(Format(r, g, b)) == Some((r, g, b))
  {
    Hex2Length(r);
    Hex2Length(g);
    Hex2Length(b);
    var body := Hex2(r) + Hex2(g) + Hex2(b);
    assert Format(r, g, b) == "#" + body;
    NotSpace(body[5]);
    StripHashOfHashed(body);
    assert Normalise(Format(r, g, b)) == body;
    SubstrOfPairs(Hex2(r), Hex2(g), Hex2(b));
    ParseHex2(r);
    ParseHex2(g);
    ParseHex2(b);
  }

  lemma DoubleThree(x: char, y: char, z: char)
    requires !IsLineTerminator(x) && !IsLineTerminator(y) && !IsLineTerminator(z)
    ensures DoubleChars([x, y, z]) == [x, x, y, y, z, z]
  {
    assert [x, y, z][1..] == [y, z];
    assert [y, z][1..] == [z];
    assert [z][1..] == [];
    assert DoubleChars([z]) == [z, z];
    assert DoubleChars([y, z]) == [y, y] + [z, z];
  }

  /** A three-digit code stands for the six-digit code with every digit doubled. */
  lemma ShortCodeExpands(x: char, y: char, z: char)
    requires IsHexDigit(x) && IsHexDigit(y) && IsHexDigit(z)
    ensures Normalise("#" + [x, y, z]) == [x, x, y, y, z, z]
  {
    NotSpace(z);
    StripHashOfHashed([x, y, z]);
    DoubleThree(x, y, z);
  }

  // ---------------------------------------------------------------------------
  // adjustBrightness
  // ---------------------------------------------------------------------------

  function Clamp(v: int): (c: int)
    ensures 0 <= c <= 255
    ensures 0 <= v <= 255 ==> c == v
  {
    if v < 0 then 0 else if v > 255 then 255 else v
  }

  /** The colour `adjustBrightness` writes for parsed channels: each moved by `floor(255 * percent)` and clamped. */
  function Adjusted(r: int, g: int, b: int, percent: real): string {
    var amount := (255.0 * percent).Floor;
    Format(Clamp(r + amount), Clamp(g + amount), Clamp(b + amount))
  }

  /** `adjustBrightness(hex, percent)`. */
  function AdjustBrightness(hex: string, percent: real): (out: string)
  {
    match Channels(hex)
    case None => "#000000"
    case Some((r, g, b)) => Adjusted(r, g, b, percent)
  }

  /** The adjusted colour is a lowercase `#rrggbb` colour that parses back to the clamped channels. */
  lemma AdjustedChannels(r: int, g: int, b: int, percent: real)
    ensures IsColourString(Adjusted(r, g, b, percent))
    ensures var amount := (255.0 * percent).Floor;
      Channels(Adjusted(r, g, b, percent)) == Some((Clamp(r + amount), Clamp(g + amount), Clamp(b + amount)))
  {
    var amount := (255.0 * percent).Floor;
    FormatIsColour(Clamp(r + amount), Clamp(g + amount), Clamp(b + amount));
    ChannelsOfFormat(Clamp(r + amount), Clamp(g + amount), Clamp(b + amount));
  }

  /** On a parse failure the result is black. */
  lemma AdjustBrightnessFailure(hex: string, percent: real)
    requires Channels(hex).None?
    ensures AdjustBrightness(hex, percent) == "#000000"
    ensures IsColourString(AdjustBrightness(hex, percent))
  {
    RepeatedDigitIsColour('0');
  }

  /**
   * On parsed channels the result is a lowercase `#rrggbb` colour whose channels
   * are the parsed ones moved by `floor(255 * percent)` and clamped to 0..255.
   */
  lemma AdjustBrightnessParsed(hex: string, percent: real, r: int, g: int, b: int)
    requires Channels(hex) == Some((r, g, b))
    ensures IsColourString(AdjustBrightness(hex, percent))
    ensures var amount := (255.0 * percent).Floor;
      Channels(AdjustBrightness(hex, percent)) == Some((Clamp(r + amount), Clamp(g + amount), Clamp(b + amount)))
  {
    assert AdjustBrightness(hex, percent) == Adjusted(r, g, b, percent);
    AdjustedChannels(r, g, b, percent);
  }

  /** A zero adjustment leaves a lowercase colour string as it is. */
  lemma AdjustBrightnessZero(r: int, g: int, b: int)
    requires 0 <= r < 256 && 0 <= g < 256 && 0 <= b < 256
    ensures AdjustBrightness(Format(r, g, b), 0.0) == Format(r, g, b)
  {
    ChannelsOfFormat(r, g, b);
    assert AdjustBrightness(Format(r, g, b), 0.0) == Adjusted(r, g, b, 0.0);
  }

  /** Brightening never darkens a channel, and darkening never brightens one. */
  lemma AdjustBrightnessDirection(r: int, g: int, b: int, percent: real)
    requires 0 <= r < 256 && 0 <= g < 256 && 0 <= b < 256
    ensures var out := Channels(AdjustBrightness(Format(r, g, b), percent));
      out.Some?
      && (percent >= 0.0 ==> out.value.0 >= r && out.value.1 >= g && out.value.2 >= b)
      && (percent <= 0.0 ==> out.value.0 <= r && out.value.1 <= g && out.value.2 <= b)
  {
    ChannelsOfFormat(r, g, b);
    AdjustBrightnessParsed(Format(r, g, b), percent, r, g, b);
  }

  // ---------------------------------------------------------------------------
  // ensureDarkColor
  // ---------------------------------------------------------------------------

  /** Relative luminance `(0.2126 r + 0.7152 g + 0.0722 b) / 255`. */
  function Luminance(r: int, g: int, b: int): real {
    (0.2126 * r as real + 0.7152 * g as real + 0.0722 * b as real) / 255.0
  }

  /** `Math.floor(c * 0.8)`, computed on integers (see `DarkenIsFloor`). */
  function Darken(c: int): (d: int)
    ensures c >= 0 ==> 0 <= d <= c
    ensures c <= 0 ==> c <= d <= 0
  {
    (4 * c) / 5
  }

  /** The integer step is the floor of the exact product `c * 0.8`. */
  lemma DarkenIsFloor(c: int)
    ensures Darken(c) == (c as real * 0.8).Floor
  {
    var q, r := (4 * c) / 5, (4 * c) % 5;
    assert 4 * c == 5 * q + r && 0 <= r < 5;
    assert c as real * 0.8 == q as real + r as real / 5.0;
  }

  /** The darkening loop of `ensureDarkColor` gives up after this many steps. */
  const SAFETY_STEPS: nat := 10

  /** The darkening loop: at most `fuel` more steps, stopping as soon as the colour is dark enough. */
  function DarkenSteps(r: int, g: int, b: int, maxLuminance: real, fuel: nat): (int, int, int)
    decreases fuel
  {
    if fuel == 0 || Luminance(r, g, b) <= maxLuminance then (r, g, b)
    else DarkenSteps(Darken(r), Darken(g), Darken(b), maxLuminance, fuel - 1)
  }

  /** `n` unconditional darkening steps. */
  function DarkenN(r: int, g: int, b: int, n: nat): (int, int, int)
    decreases n
  {
    if n == 0 then (r, g, b) else DarkenN(Darken(r), Darken(g), Darken(b), n - 1)
  }

  /** The colour `ensureDarkColor` writes for parsed channels. */
  function Darkened(r: int, g: int, b: int, maxLuminance: real): string {
    var d := DarkenSteps(r, g, b, maxLuminance, SAFETY_STEPS);
    Format(d.0, d.1, d.2)
  }

  /** The value `ensureDarkColor` returns. */
  function DarkColour(hex: string, maxLuminance: real): string {
    match Channels(hex)
    case None => "#111111"
    case Some((r, g, b)) => Darkened(r, g, b, maxLuminance)
  }

  /** `ensureDarkColor(hex, maxLuminance)`. */
  method EnsureDarkColor(hex: string, maxLuminance: real) returns (out: string)
    ensures out == DarkColour(hex, maxLuminance)
  {
    var parsed := Channels(hex);
    if parsed.None? {
      return "#111111";
    }
    var r, g, b := DarkenLoop(parsed.value.0, parsed.value.1, parsed.value.2, maxLuminance);
    out := "#" + Hex2(r) + Hex2(g) + Hex2(b);
  }

  /** The bounded darkening loop of `ensureDarkColor`. */
  method DarkenLoop(r0: int, g0: int, b0: int, maxLuminance: real) returns (r: int, g: int, b: int)
    ensures (r, g, b) == DarkenSteps(r0, g0, b0, maxLuminance, SAFETY_STEPS)
  {
    r, g, b := r0, g0, b0;
    var luminance := Luminance(r, g, b);
    var safety := 0;
    while luminance > maxLuminance && safety < SAFETY_STEPS
      invariant 0 <= safety <= SAFETY_STEPS
      invariant luminance == Luminance(r, g, b)
      invariant DarkenSteps(r, g, b, maxLuminance, SAFETY_STEPS - safety) == DarkenSteps(r0, g0, b0, maxLuminance, SAFETY_STEPS)
      decreases SAFETY_STEPS - safety
    {
      r := Darken(r);
      g := Darken(g);
      b := Darken(b);
      luminance := Luminance(r, g, b);
      safety := safety + 1;
    }
  }

  /** Darkening keeps every channel within -15..255, never raises a non-negative one and never lowers it below 0. */
  lemma {:induction false} DarkenStepsBounds(r: int, g: int, b: int, m: real, fuel: nat)
    requires -15 <= r <= 255 && -15 <= g <= 255 && -15 <= b <= 255
    ensures var d := DarkenSteps(r, g, b, m, fuel);
      -15 <= d.0 <= 255 && -15 <= d.1 <= 255 && -15 <= d.2 <= 255
      && (r >= 0 ==> 0 <= d.0 <= r) && (g >= 0 ==> 0 <= d.1 <= g) && (b >= 0 ==> 0 <= d.2 <= b)
    decreases fuel
  {
    if fuel > 0 && Luminance(r, g, b) > m {
      DarkenStepsBounds(Darken(r), Darken(g), Darken(b), m, fuel - 1);
    }
  }

  /** The loop ends dark enough, or after all of its steps. */
  lemma {:induction false} DarkenStepsStops(r: int, g: int, b: int, m: real, fuel: nat)
    ensures var d := DarkenSteps(r, g, b, m, fuel);
      Luminance(d.0, d.1, d.2) <= m || d == DarkenN(r, g, b, fuel)
    decreases fuel
  {
    if fuel > 0 && Luminance(r, g, b) > m {
      DarkenStepsStops(Darken(r), Darken(g), Darken(b), m, fuel - 1);
    }
  }

  /** The result is dark grey on a parse failure and always seven characters opening with `#`. */
  lemma DarkColourShape(hex: string, m: real)
    ensures Channels(hex).None? ==> DarkColour(hex, m) == "#111111"
    ensures |DarkColour(hex, m)| == 7 && DarkColour(hex, m)[0] == '#'
  {
    match Channels(hex)
    case None =>
    case Some((r, g, b)) =>
      DarkenStepsBounds(r, g, b, m, SAFETY_STEPS);
      var d := DarkenSteps(r, g, b, m, SAFETY_STEPS);
      Hex2Length(d.0);
      Hex2Length(d.1);
      Hex2Length(d.2);
      assert DarkColour(hex, m) == Darkened(r, g, b, m);
  }

  /** A colour already dark enough comes back unchanged. */
  lemma DarkColourKeepsDark(r: int, g: int, b: int, m: real)
    requires 0 <= r < 256 && 0 <= g < 256 && 0 <= b < 256
    requires Luminance(r, g, b) <= m
    ensures DarkColour(Format(r, g, b), m) == Format(r, g, b)
  {
    ChannelsOfFormat(r, g, b);
    assert DarkColour(Format(r, g, b), m) == Darkened(r, g, b, m);
  }

  /** Darkening channels that are bytes gives a real colour, no brighter in any channel. */
  lemma DarkenedChannels(r: int, g: int, b: int, m: real)
    requires 0 <= r < 256 && 0 <= g < 256 && 0 <= b < 256
    ensures IsColourString(Darkened(r, g, b, m))
    ensures var d := Channels(Darkened(r, g, b, m));
      d.Some? && d.value.0 <= r && d.value.1 <= g && d.value.2 <= b
  {
    DarkenStepsBounds(r, g, b, m, SAFETY_STEPS);
    var d := DarkenSteps(r, g, b, m, SAFETY_STEPS);
    FormatIsColour(d.0, d.1, d.2);
    ChannelsOfFormat(d.0, d.1, d.2);
  }

  /** Parsed from a real colour, the result is a real colour, no brighter in any channel. */
  lemma DarkColourOfColour(r: int, g: int, b: int, m: real)
    requires 0 <= r < 256 && 0 <= g < 256 && 0 <= b < 256
    ensures IsColourString(DarkColour(Format(r, g, b), m))
    ensures var d := Channels(DarkColour(Format(r, g, b), m));
      d.Some? && d.value.0 <= r && d.value.1 <= g && d.value.2 <= b
  {
    ChannelsOfFormat(r, g, b);
    assert DarkColour(Format(r, g, b), m) == Darkened(r, g, b, m);
    DarkenedChannels(r, g, b, m);
  }

  /** A minus sign and one hex digit read as the negated digit. */
  lemma ParseSignedDigit(a: char)
    requires IsHexDigit(a)
    ensures ParseIntHex(['-', a]) == Some(-(HexDigitValue(a) as int))
  {
    var p := ['-', a];
    NotSpace('-');
    assert TrimStart(Js, p) == p;
    assert p[1..] == [a];
    assert HexRun([a]) == 1 by {
      assert [a][1..] == [];
    }
    assert [a][..1] == [a] && [a][..1][..0] == [];
    assert HexValue([a]) == HexDigitValue(a);
  }

  /** A lowercase digit is the digit of its own value. */
  lemma DigitOfValue(a: char)
    requires IsLowerHexDigit(a)
    ensures HexDigitChar(HexDigitValue(a)) == a
  {
  }

  /** A negated non-zero digit formats as `-` and the digit. */
  lemma Hex2Signed(a: char)
    requires IsLowerHexDigit(a) && a != '0'
    ensures Hex2(-(HexDigitValue(a) as int)) == ['-', a]
  {
    var n := HexDigitValue(a);
    assert 0 < n < 16;
    assert NumberToHex(-n) == "-" + HexDigits(n);
    assert HexDigits(n) == [HexDigitChar(n)];
    DigitOfValue(a);
  }

  /** `#-d-d-d` normalises to `-d-d-d`. */
  lemma NormaliseSigned(a: char)
    requires IsHexDigit(a)
    ensures Normalise(['#', '-', a, '-', a, '-', a]) == ['-', a, '-', a, '-', a]
  {
    var c := ['-', a, '-', a, '-', a];
    NotSpace(a);
    StripHashOfHashed(c);
    assert ['#', '-', a, '-', a, '-', a] == "#" + c;
  }

  /** `-d-d-d` reads as three channels of minus the digit's value. */
  lemma ParseCodeSigned(a: char)
    requires IsHexDigit(a)
    ensures var v := -(HexDigitValue(a) as int); ParseCode(['-', a, '-', a, '-', a]) == Some((v, v, v))
  {
    var c := ['-', a, '-', a, '-', a];
    SubstrOfPairs(['-', a], ['-', a], ['-', a]);
    assert c == ['-', a] + ['-', a] + ['-', a];
    ParseSignedDigit(a);
  }

  /** `#-d-d-d` parses to three channels of minus the digit's value. */
  lemma ChannelsOfSigned(a: char)
    requires IsHexDigit(a)
    ensures var v := -(HexDigitValue(a) as int); Channels(['#', '-', a, '-', a, '-', a]) == Some((v, v, v))
  {
    NormaliseSigned(a);
    ParseCodeSigned(a);
  }

  /**
   * A sign in the text reaches the output: for a non-zero lowercase digit `d`,
   * `#-d-d-d` has negative luminance, so under any non-negative threshold it
   * is returned as it is, which is not a colour.
   */
  lemma DarkColourSignedChannels(hex: string, a: char, m: real)
    requires hex == ['#', '-', a, '-', a, '-', a]
    requires IsLowerHexDigit(a) && a != '0' && m >= 0.0
    ensures DarkColour(hex, m) == hex
    ensures !IsColourString(DarkColour(hex, m))
  {
    var v := -(HexDigitValue(a) as int);
    SignedCode(hex, a, v);
    DarkColourFixedPoint(hex, m, v, v, v);
  }

  /** `#-d-d-d` parses to three channels of minus `d` and is their formatting. */
  lemma SignedCode(hex: string, a: char, v: int)
    requires hex == ['#', '-', a, '-', a, '-', a]
    requires IsLowerHexDigit(a) && a != '0' && v == -(HexDigitValue(a) as int)
    ensures Channels(hex) == Some((v, v, v)) && Format(v, v, v) == hex && -15 <= v < 0
  {
    assert HexDigitValue(a) > 0;
    ChannelsOfSigned(a);
    FormatSigned(a);
  }

  /**
   * Text whose channels are all negative and that is their own formatting is
   * returned unchanged under a non-negative threshold, and is not a colour.
   */
  lemma DarkColourFixedPoint(hex: string, m: real, r: int, g: int, b: int)
    requires Channels(hex) == Some((r, g, b)) && Format(r, g, b) == hex
    requires -15 <= r < 0 && -15 <= g < 0 && -15 <= b < 0 && m >= 0.0
    ensures DarkColour(hex, m) == hex
    ensures !IsColourString(hex)
  {
    DarkColourOfNegative(hex, m, r, g, b);
    FormatNegativeNotColour(r, g, b);
  }

  /** Negative channels are already below a non-negative threshold, so they are formatted back unchanged. */
  lemma DarkColourOfNegative(hex: string, m: real, r: int, g: int, b: int)
    requires Channels(hex) == Some((r, g, b)) && r < 0 && g < 0 && b < 0 && m >= 0.0
    ensures DarkColour(hex, m) == Format(r, g, b)
  {
    assert Luminance(r, g, b) <= m;
    assert DarkColour(hex, m) == Darkened(r, g, b, m);
  }

  /** A negative first channel puts a `-` where a digit belongs. */
  lemma FormatNegativeNotColour(r: int, g: int, b: int)
    requires -15 <= r < 0
    ensures !IsColourString(Format(r, g, b))
  {
    Hex2Length(r);
    assert Format(r, g, b)[1] == Hex2(r)[0];
  }

  /** Three negated digits format as `#-d-d-d`. */
  lemma FormatSigned(a: char)
    requires IsLowerHexDigit(a) && a != '0'
    ensures var v := -(HexDigitValue(a) as int); Format(v, v, v) == ['#', '-', a, '-', a, '-', a]
  {
    var v := -(HexDigitValue(a) as int);
    Hex2Signed(a);
    assert Format(v, v, v) == "#" + ['-', a] + ['-', a] + ['-', a];
  }

  /** The concrete case `#-f-f-f` under the default threshold 0.15. */
  lemma DarkColourMinusF()
    ensures DarkColour("#-f-f-f", 0.15) == "#-f-f-f"
    ensures !IsColourString(DarkColour("#-f-f-f", 0.15))
  {
    DarkColourSignedChannels("#-f-f-f", 'f', 0.15);
  }

  /** `ensureDarkColor` with negative channels also treated as a parse failure. */
  function DarkColourChecked(hex: string, maxLuminance: real): string {
    match Channels(hex)
    case None => "#111111"
    case Some((r, g, b)) =>
      if r < 0 || g < 0 || b < 0 then "#111111" else Darkened(r, g, b, maxLuminance)
  }

  /** Dark grey is a colour. */
  lemma DarkGreyIsColour()
    ensures IsColourString("#111111")
  {
    RepeatedDigitIsColour('1');
  }

  /** With the sign check, the result is always a lowercase `#rrggbb` colour. */
  lemma DarkColourCheckedIsColour(hex: string, m: real)
    ensures IsColourString(DarkColourChecked(hex, m))
  {
    match Channels(hex)
    case None =>
      DarkGreyIsColour();
    case Some((r, g, b)) =>
      if r < 0 || g < 0 || b < 0 {
        DarkGreyIsColour();
      } else {
        assert DarkColourChecked(hex, m) == Darkened(r, g, b, m);
        DarkenedChannels(r, g, b, m);
      }
  }

  /** On non-negative channels the checked version agrees with `ensureDarkColor`. */
  lemma DarkColourCheckedAgrees(hex: string, m: real, r: int, g: int, b: int)
    requires Channels(hex) == Some((r, g, b)) && r >= 0 && g >= 0 && b >= 0
    ensures DarkColourChecked(hex, m) == DarkColour(hex, m)
  {
  }
}
