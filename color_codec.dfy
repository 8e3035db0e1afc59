/** The hex codec of src/color.js: `rgbToHex` and `hexToRgb`.

    `rgbToHex` formats each channel with `Number.prototype.toString(16)` and
    zero-pads one-digit results; `hexToRgb` expands the three-digit shorthand
    with a regular expression, drops the first character, cuts the rest into
    two-character pieces with `/.{2}/g` and parses each with `parseInt(x, 16)`.
    Strings are sequences of UTF-16 code units in the source and of `char`
    here. */
module ColorCodec {
  import opened Basics

  /** A JS number produced by `parseInt`: an integer or NaN. */
  datatype Num = Int(v: int) | NaN

  const Alphabet: string := "0123456789abcdef"

  predicate IsHexDigit(ch: char) {
    ('0' <= ch <= '9') || ('a' <= ch <= 'f') || ('A' <= ch <= 'F')
  }

  predicate IsLowerHexDigit(ch: char) {
    ('0' <= ch <= '9') || ('a' <= ch <= 'f')
  }

  predicate AllHexDigits(s: string) {
    forall k :: 0 <= k < |s| ==> IsHexDigit(s[k])
  }

  /** Value of one base-16 digit, either case. */
  function DigitValue(ch: char): (v: nat)
    requires IsHexDigit(ch)
    ensures v < 16
  {
    if '0' <= ch <= '9' then ch as int - '0' as int
    else if 'a' <= ch <= 'f' then ch as int - 'a' as int + 10
    else ch as int - 'A' as int + 10
  }

  /** The alphabet lists the lower-case digits in value order. */
  lemma AlphabetDigit(v: nat)
    requires v < 16
    ensures IsLowerHexDigit(Alphabet[v]) && IsHexDigit(Alphabet[v])
    ensures DigitValue(Alphabet[v]) == v
  {
    assert Alphabet == ['0', '1', '2', '3', '4', '5', '6', '7', '8', '9', 'a', 'b', 'c', 'd', 'e', 'f'];
  }

  // ---------------------------------------------------------------- rgbToHex

  /** The digits `Number.prototype.toString(16)` writes for a positive integer. */
  function Digits(n: nat): (s: string)
    requires n > 0
    ensures |s| >= 1
    decreases n
  {
    if n < 16 then [Alphabet[n]] else Digits(n / 16) + [Alphabet[n % 16]]
  }

  /** `n.toString(16)` for an integer `n`: a minus sign for negatives, no
      leading zeros, "0" for zero. */
  function ToString16(n: int): (s: string)
    ensures |s| >= 1
    ensures n >= 0 ==> (|s| == 1 <==> n < 16)
    ensures n < 0 ==> s[0] == '-'
  {
    if n == 0 then "0" else if n > 0 then Digits(n) else "-" + Digits(-n)
  }

  /** `hex.length === 1 ? '0' + hex : hex` */
  /** One channel's digits, left-padded with '0' to at least two. */
  function Pad(hex: string): (r: string)
    ensures |r| == if |hex| == 1 then 2 else |hex|
    ensures |hex| == 1 ==> r[0] == '0' && r[1] == hex[0]
    ensures |hex| != 1 ==> r == hex
  {
    if |hex| == 1 then "0" + hex else hex
  }

  /** The string `rgbToHex` has built after `i` channels. */
  function HexPrefix(c: seq<int>, i: nat): (s: string)
    requires i <= |c|
    ensures |s| >= 2 * i + 1 && s[0] == '#'
  {
    if i == 0 then "#" else HexPrefix(c, i - 1) + Pad(ToString16(c[i - 1]))
  }

  /** The result of `rgbToHex`: '#' and at least two characters per
      channel. */
  function HexString(c: seq<int>): (s: string)
    requires |c| == 3
    ensures |s| >= 7 && s[0] == '#'
  {
    HexPrefix(c, 3)
  }

  predicate InRange(c: seq<int>) {
    |c| == 3 && forall k :: 0 <= k < 3 ==> 0 <= c[k] < 256
  }

  /** The two digits a channel in 0..255 is written with. */
  function TwoDigits(v: int): (s: string)
    requires 0 <= v < 256
    ensures |s| == 2
  {
    [Alphabet[v / 16], Alphabet[v % 16]]
  }

  /** rgbToHex (src/color.js:5-12): appends each formatted channel to '#'. */
  method RgbToHex(c: seq<int>) returns (result: string)
    requires |c| == 3
    ensures result == HexString(c)
  {
    result := "#";
    for i := 0 to 3
      invariant result == HexPrefix(c, i)
    {
      var hex := ToString16(c[i]);
      result := result + (if |hex| == 1 then "0" + hex else hex);
    }
  }

  /** A channel in 0..255 is written as exactly two lower-case digits, high
      digit first; below 16 the high digit is the padding '0'. */
  lemma ChannelDigits(v: int)
    requires 0 <= v < 256
    ensures Pad(ToString16(v)) == TwoDigits(v)
    ensures v < 16 ==> Pad(ToString16(v)) == ['0', Alphabet[v]]
  {
    assert Alphabet[0] == '0';
    if v >= 16 {
      assert Digits(v / 16) == [Alphabet[v / 16]];
    }
  }

  /** The two digits of a channel in 0..255 are lower-case hex digits that
      decode back to it. */
  lemma TwoDigitsDecode(v: int)
    requires 0 <= v < 256
    ensures IsLowerHexDigit(TwoDigits(v)[0]) && IsLowerHexDigit(TwoDigits(v)[1])
    ensures IsHexDigit(TwoDigits(v)[0]) && IsHexDigit(TwoDigits(v)[1])
    ensures 16 * DigitValue(TwoDigits(v)[0]) + DigitValue(TwoDigits(v)[1]) == v
  {
    AlphabetDigit(v / 16);
    AlphabetDigit(v % 16);
  }

  /** For channels in 0..255 the result is '#' and six lower-case hex digits,
      two per channel in order. */
  lemma HexStringShape(c: seq<int>)
    requires InRange(c)
    ensures HexString(c) == "#" + TwoDigits(c[0]) + TwoDigits(c[1]) + TwoDigits(c[2])
    ensures |HexString(c)| == 7 && HexString(c)[0] == '#'
    ensures forall k :: 1 <= k < 7 ==> IsLowerHexDigit(HexString(c)[k])
  {
    var t0, t1, t2 := TwoDigits(c[0]), TwoDigits(c[1]), TwoDigits(c[2]);
    ChannelDigits(c[0]);
    ChannelDigits(c[1]);
    ChannelDigits(c[2]);
    TwoDigitsDecode(c[0]);
    TwoDigitsDecode(c[1]);
    TwoDigitsDecode(c[2]);
    assert HexPrefix(c, 1) == "#" + t0;
    assert HexPrefix(c, 2) == "#" + t0 + t1;
    assert HexString(c) == "#" + t0 + t1 + t2;
    assert HexString(c) == ['#', t0[0], t0[1], t1[0], t1[1], t2[0], t2[1]];
  }

  // ---------------------------------------------------------------- hexToRgb

  /** The three-digit pattern of `/^#?([a-f\d])([a-f\d])([a-f\d])$/i`
      replaced by '#' and each digit doubled; anything else unchanged. */
  function ExpandShorthand(hex: string): (r: string)
    ensures Shorthand(hex) ==> |r| == 7 && r[0] == '#' && AllHexDigits(r[1..])
    ensures !Shorthand(hex) ==> r == hex
  {
    if |hex| == 3 && AllHexDigits(hex) then Doubled(hex)
    else if |hex| == 4 && hex[0] == '#' && AllHexDigits(hex[1..]) then Doubled(hex[1..])
    else hex
  }

  /** The inputs the shorthand pattern matches. */
  predicate Shorthand(hex: string) {
    (|hex| == 3 && AllHexDigits(hex)) || (|hex| == 4 && hex[0] == '#' && AllHexDigits(hex[1..]))
  }

  function Doubled(d: string): string
    requires |d| == 3
  {
    "#" + [d[0], d[0], d[1], d[1], d[2], d[2]]
  }

  /** `s.substring(1)` */
  function DropFirst(s: string): string {
    if |s| == 0 then s else s[1..]
  }

  /** The characters `.` does not match: the ECMAScript line terminators. */
  predicate IsLineTerminator(ch: char) {
    ch == '\n' || ch == '\r' || ch == '\U{2028}' || ch == '\U{2029}'
  }

  /** The matches of `/.{2}/g`, scanning left to right. */
  function Pairs(s: string): (r: seq<string>)
    ensures forall k :: 0 <= k < |r| ==> |r[k]| == 2
    ensures |r| <= |s| / 2
    decreases |s|
  {
    if |s| < 2 then []
    else if !IsLineTerminator(s[0]) && !IsLineTerminator(s[1]) then [s[..2]] + Pairs(s[2..])
    else Pairs(s[1..])
  }

  /** Without line terminators `/.{2}/g` cuts the string into consecutive
      pairs, dropping an odd last character. */
  lemma {:induction false} PairsOfPlain(s: string)
    requires forall k :: 0 <= k < |s| ==> !IsLineTerminator(s[k])
    ensures |Pairs(s)| == |s| / 2
    ensures forall k :: 0 <= k < |s| / 2 ==> Pairs(s)[k] == s[2 * k..2 * k + 2]
    decreases |s|
  {
    if |s| >= 2 {
      PairsOfPlain(s[2..]);
      assert Pairs(s) == [s[..2]] + Pairs(s[2..]);
      forall k | 1 <= k < |s| / 2
        ensures Pairs(s)[k] == s[2 * k..2 * k + 2]
      {
        assert Pairs(s)[k] == Pairs(s[2..])[k - 1] == s[2..][2 * (k - 1)..2 * (k - 1) + 2];
      }
    }
  }

  /** The characters `parseInt` strips from the front: WhiteSpace (TAB, VT,
      FF, ZWNBSP and the Space_Separator category) and LineTerminator. */
  predicate IsStrWhiteSpace(ch: char) {
    ch == '\t' || ch == '\U{B}' || ch == '\U{C}' || ch == ' ' || ch == '\U{A0}'
    || ch == '\U{FEFF}' || ch == '\U{1680}' || ('\U{2000}' <= ch <= '\U{200A}')
    || ch == '\U{202F}' || ch == '\U{205F}' || ch == '\U{3000}' || IsLineTerminator(ch)
  }

  /** `s` without its leading white space. */
  function TrimStart(s: string): (r: string)
    ensures |r| <= |s|
    ensures r != [] ==> !IsStrWhiteSpace(r[0])
    decreases |s|
  {
    if |s| > 0 && IsStrWhiteSpace(s[0]) then TrimStart(s[1..]) else s
  }

  /** What `TrimStart` drops is a prefix of white space. */
  lemma {:induction false} TrimStartDrops(s: string)
    ensures |TrimStart(s)| <= |s| && TrimStart(s) == s[|s| - |TrimStart(s)|..]
    ensures forall k :: 0 <= k < |s| - |TrimStart(s)| ==> IsStrWhiteSpace(s[k])
    decreases |s|
  {
    if |s| > 0 && IsStrWhiteSpace(s[0]) {
      TrimStartDrops(s[1..]);
      forall k | 1 <= k < |s| - |TrimStart(s)| ensures IsStrWhiteSpace(s[k]) {
        assert s[k] == s[1..][k - 1];
      }
    }
  }

  /** The longest prefix of base-16 digits. */
  function LeadingHexDigits(s: string): (z: string)
    ensures AllHexDigits(z) && |z| <= |s| && z == s[..|z|]
    ensures |z| < |s| ==> !IsHexDigit(s[|z|])
    decreases |s|
  {
    if |s| > 0 && IsHexDigit(s[0]) then [s[0]] + LeadingHexDigits(s[1..]) else []
  }

  /** Big-endian value of a string of hex digits. */
  function HexValue(z: string): nat
    requires AllHexDigits(z)
  {
    if z == [] then 0 else HexValue(z[..|z| - 1]) * 16 + DigitValue(z[|z| - 1])
  }

  /** `parseInt(s, 16)`: strip leading white space, one sign, a "0x"/"0X"
      prefix, then read the longest run of hex digits (NaN if none). */
  function ParseInt16(s: string): (r: Num)
    ensures s != [] && AllHexDigits(s) ==> r == Int(HexValue(s))
  {
    PlainDigits(s);
    var t := TrimStart(s);
    ReadDigits(StripHexPrefix(StripSign(t)), |t| > 0 && t[0] == '-')
  }

  /** A string of hex digits has nothing for `parseInt` to strip. */
  lemma PlainDigits(s: string)
    ensures s != [] && AllHexDigits(s) ==> TrimStart(s) == s && StripSign(s) == s && StripHexPrefix(s) == s
    ensures s != [] && AllHexDigits(s) ==> s[0] != '-' && LeadingHexDigits(s) == s
  {
    if s != [] && AllHexDigits(s) {
      HexDigitIsPlain(s[0]);
      if |s| >= 2 {
        HexDigitIsPlain(s[1]);
      }
    }
  }

  /** `t` without one leading sign. */
  function StripSign(t: string): (r: string)
    ensures r == t <==> t == [] || (t[0] != '-' && t[0] != '+')
    ensures r != t ==> r == t[1..]
  {
    if |t| > 0 && (t[0] == '-' || t[0] == '+') then t[1..] else t
  }

  /** `u` without a leading "0x" or "0X". */
  function StripHexPrefix(u: string): (r: string)
    ensures |r| == |u| || |r| == |u| - 2
    ensures |r| < |u| <==> |u| >= 2 && u[0] == '0' && (u[1] == 'x' || u[1] == 'X')
  {
    if |u| >= 2 && u[0] == '0' && (u[1] == 'x' || u[1] == 'X') then u[2..] else u
  }

  /** The value of the leading hex digits of `v`, negated when the sign
      was '-'; NaN when `v` does not start with a digit. */
  function ReadDigits(v: string, negative: bool): (r: Num)
    ensures r.NaN? <==> v == [] || !IsHexDigit(v[0])
    ensures r.Int? ==> (if negative then -r.v else r.v) == HexValue(LeadingHexDigits(v))
  {
    var z := LeadingHexDigits(v);
    if z == [] then NaN else Int(if negative then -(HexValue(z) as int) else HexValue(z))
  }

  function ParseAll(pieces: seq<string>): (r: seq<Num>)
    ensures |r| == |pieces|
    ensures forall k :: 0 <= k < |pieces| ==> r[k] == ParseInt16(pieces[k])
  {
    if pieces == [] then [] else [ParseInt16(pieces[0])] + ParseAll(pieces[1..])
  }

  /** hexToRgb (src/color.js:18-22). An input that leaves no two-character
      piece makes `match` return null and `.map` throw a TypeError. */
  function HexToRgb(hex: string): (r: Result<seq<Num>>)
    ensures r.Err? ==> r.error == TypeError
    ensures r.Ok? ==> 1 <= |r.value| <= (if |hex| < 7 then 3 else |hex| / 2)
  {
    var pieces := Pairs(DropFirst(ExpandShorthand(hex)));
    if pieces == [] then Err(TypeError) else Ok(ParseAll(pieces))
  }

  /** Hex digits are neither white space, line terminators, signs nor 'x'. */
  lemma HexDigitIsPlain(ch: char)
    requires IsHexDigit(ch)
    ensures !IsLineTerminator(ch) && !IsStrWhiteSpace(ch)
    ensures ch != '-' && ch != '+' && ch != 'x' && ch != 'X'
  {
  }

  /** Two hex digits parse to their byte value. */
  lemma PairValue(p: string)
    requires |p| == 2 && IsHexDigit(p[0]) && IsHexDigit(p[1])
    ensures ParseInt16(p) == Int(Byte(p[0], p[1]))
  {
    assert AllHexDigits(p);
    assert HexValue(p[..1]) == DigitValue(p[0]) by {
      assert p[..1][..0] == [];
    }
  }

  function Byte(a: char, b: char): nat
    requires IsHexDigit(a) && IsHexDigit(b)
  {
    16 * DigitValue(a) + DigitValue(b)
  }

  lemma HexDigitsArePlain(d: string)
    requires AllHexDigits(d)
    ensures forall k :: 0 <= k < |d| ==> !IsLineTerminator(d[k])
  {
    forall k | 0 <= k < |d| ensures !IsLineTerminator(d[k]) {
      HexDigitIsPlain(d[k]);
    }
  }

  /** Six hex digits cut into three pieces. */
  lemma SixPieces(d: string)
    requires |d| == 6 && AllHexDigits(d)
    ensures |Pairs(d)| == 3
    ensures forall k :: 0 <= k < 3 ==> Pairs(d)[k] == d[2 * k..2 * k + 2]
  {
    HexDigitsArePlain(d);
    PairsOfPlain(d);
  }

  predicate HexPair(x: string) {
    |x| == 2 && IsHexDigit(x[0]) && IsHexDigit(x[1])
  }

  /** `.map(x => parseInt(x, 16))` on pieces that are digit pairs. */
  lemma ParseAllPairs(p: seq<string>)
    requires forall k :: 0 <= k < |p| ==> HexPair(p[k])
    ensures forall k :: 0 <= k < |p| ==> HexPair(p[k]) && ParseAll(p)[k] == Int(Byte(p[k][0], p[k][1]))
  {
    var r := ParseAll(p);
    forall k | 0 <= k < |p| ensures r[k] == Int(Byte(p[k][0], p[k][1])) {
      assert r[k] == ParseInt16(p[k]);
      PairValue(p[k]);
    }
  }

  /** A string of five or more characters is not shorthand and loses only
      its first character. */
  lemma LongInput(s: string)
    requires |s| >= 5
    ensures HexToRgb(s) == if Pairs(s[1..]) == [] then Err(TypeError) else Ok(ParseAll(Pairs(s[1..])))
  {
    assert ExpandShorthand(s) == s;
  }

  /** Six hex digits parse pairwise. */
  lemma ParseSix(d: string)
    requires |d| == 6 && AllHexDigits(d)
    ensures Pairs(d) != []
    ensures ParseAll(Pairs(d)) == [Int(Byte(d[0], d[1])), Int(Byte(d[2], d[3])), Int(Byte(d[4], d[5]))]
  {
    SixPieces(d);
    var p := Pairs(d);
    assert p[0][0] == d[0] && p[0][1] == d[1];
    assert p[1][0] == d[2] && p[1][1] == d[3];
    assert p[2][0] == d[4] && p[2][1] == d[5];
    ParseAllPairs(p);
    var r := ParseAll(p);
    assert r == [r[0], r[1], r[2]];
  }

  /** "#rrggbb" decodes to three integers in 0..255, one per digit pair. */
  lemma DecodeSix(d: string)
    requires |d| == 6 && AllHexDigits(d)
    ensures HexToRgb("#" + d) == Ok([Int(Byte(d[0], d[1])), Int(Byte(d[2], d[3])), Int(Byte(d[4], d[5]))])
    ensures Byte(d[0], d[1]) < 256 && Byte(d[2], d[3]) < 256 && Byte(d[4], d[5]) < 256
  {
    LongInput("#" + d);
    assert ("#" + d)[1..] == d;
    ParseSix(d);
  }

  /** Three-digit shorthand, with or without '#', expands by doubling each
      digit: "#abc" and "abc" both decode as "#aabbcc". */
  lemma ShorthandDecodes(d: string)
    requires |d| == 3 && AllHexDigits(d)
    ensures HexToRgb("#" + d) == HexToRgb(Doubled(d))
    ensures HexToRgb(d) == HexToRgb(Doubled(d))
    ensures HexToRgb(d) == Ok([Int(17 * DigitValue(d[0])), Int(17 * DigitValue(d[1])), Int(17 * DigitValue(d[2]))])
  {
    assert ("#" + d)[1..] == d;
    var six := [d[0], d[0], d[1], d[1], d[2], d[2]];
    assert Doubled(d) == "#" + six;
    DecodeSix(six);
  }

  function Lower(ch: char): char {
    if 'A' <= ch <= 'F' then (ch as int + 32) as char else ch
  }

  function LowerAll(s: string): (r: string)
    ensures |r| == |s|
  {
    seq(|s|, k requires 0 <= k < |s| => Lower(s[k]))
  }

  lemma LowerDigit(ch: char)
    requires IsHexDigit(ch)
    ensures IsHexDigit(Lower(ch)) && DigitValue(Lower(ch)) == DigitValue(ch)
  {
  }

  /** Upper- and lower-case digits decode identically. */
  lemma CaseInsensitive(d: string)
    requires |d| == 6 && AllHexDigits(d)
    ensures AllHexDigits(LowerAll(d))
    ensures HexToRgb("#" + d) == HexToRgb("#" + LowerAll(d))
  {
    var l := LowerAll(d);
    assert AllHexDigits(l)
        && Byte(l[0], l[1]) == Byte(d[0], d[1]) && Byte(l[2], l[3]) == Byte(d[2], d[3]) && Byte(l[4], l[5]) == Byte(d[4], d[5]) by {
      forall k | 0 <= k < 6
        ensures IsHexDigit(l[k]) && DigitValue(l[k]) == DigitValue(d[k])
      {
        LowerDigit(d[k]);
      }
    }
    DecodeSix(d);
    DecodeSix(l);
  }

  /** Round trip: every colour in [0,255]^3 survives encode then decode. */
  lemma RoundTrip(c: seq<int>)
    requires InRange(c)
    ensures HexToRgb(HexString(c)) == Ok([Int(c[0]), Int(c[1]), Int(c[2])])
  {
    var t0, t1, t2 := TwoDigits(c[0]), TwoDigits(c[1]), TwoDigits(c[2]);
    var d := t0 + t1 + t2;
    assert HexString(c) == "#" + d by {
      HexStringShape(c);
    }
    assert AllHexDigits(d) && Byte(d[0], d[1]) == c[0] && Byte(d[2], d[3]) == c[1] && Byte(d[4], d[5]) == c[2] by {
      TwoDigitsDecode(c[0]);
      TwoDigitsDecode(c[1]);
      TwoDigitsDecode(c[2]);
      assert d == [t0[0], t0[1], t1[0], t1[1], t2[0], t2[1]];
    }
    DecodeSix(d);
  }

  /** Six digits without '#' lose their first digit to `substring(1)` and
      decode to two values taken from digits 2-3 and 4-5. */
  lemma SixDigitsWithoutHash(d: string)
    requires |d| == 6 && AllHexDigits(d)
    ensures HexToRgb(d) == Ok([Int(Byte(d[1], d[2])), Int(Byte(d[3], d[4]))])
  {
    var t := d[1..];
    assert ExpandShorthand(d) == d;
    assert DropFirst(d) == t;
    HexDigitsArePlain(t);
    PairsOfPlain(t);
    var p := Pairs(t);
    assert p[0] == t[0..2] && p[1] == t[2..4];
    assert p[0][0] == d[1] && p[0][1] == d[2];
    assert p[1][0] == d[3] && p[1][1] == d[4];
    ParseAllPairs(p);
    var r := ParseAll(p);
    assert r == [r[0], r[1]];
  }
}
