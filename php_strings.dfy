/**
 * The PHP string built-ins the modelled code relies on: trim(), strtoupper(),
 * explode(), bin2hex() and decimal rendering of integers. A PHP string is a
 * byte string, modelled as a sequence of characters with one character per
 * byte; only the ASCII behaviour of these built-ins matters to the code that
 * calls them.
 */
module PhpStrings {

  /** The characters trim() strips by default: space, tab, LF, CR, NUL and vertical tab. */
  predicate IsTrimChar(c: char) {
    c == ' ' || c == '\t' || c == '\n' || c == '\r' || c == '\0' || c == '\U{000B}'
  }

  /** The characters PCRE's \s matches: space, tab, LF, vertical tab, form feed and CR. */
  predicate IsPcreSpace(c: char) {
    c == ' ' || c == '\t' || c == '\n' || c == '\U{000B}' || c == '\U{000C}' || c == '\r'
  }

  /** The characters filter_var trims before validating: space, tab, CR, vertical tab and LF. */
  predicate IsFilterSpace(c: char) {
    c == ' ' || c == '\t' || c == '\r' || c == '\U{000B}' || c == '\n'
  }

  /** The character sets the modelled code strips or skips. */
  datatype Blanks = TrimChars | PcreSpaces | FilterSpaces

  predicate IsBlank(c: char, ws: Blanks) {
    match ws
    case TrimChars => IsTrimChar(c)
    case PcreSpaces => IsPcreSpace(c)
    case FilterSpaces => IsFilterSpace(c)
  }

  predicate IsDigit(c: char) {
    '0' <= c <= '9'
  }

  predicate IsUpperAscii(c: char) {
    'A' <= c <= 'Z'
  }

  predicate AllDigits(s: string) {
    forall k :: 0 <= k < |s| ==> IsDigit(s[k])
  }

  predicate AllBlank(s: string, ws: Blanks) {
    forall k :: 0 <= k < |s| ==> IsBlank(s[k], ws)
  }

  /** End of the longest run of white space that starts at i. */
  function SpaceEnd(s: string, i: int): (r: int)
    requires 0 <= i <= |s|
    ensures i <= r <= |s|
    ensures forall k :: i <= k < r ==> IsPcreSpace(s[k])
    ensures r == |s| || !IsPcreSpace(s[r])
    decreases |s| - i
  {
    if i < |s| && IsPcreSpace(s[i]) then SpaceEnd(s, i + 1) else i
  }

  /** A white-space run that starts at i and is followed by no white space ends where SpaceEnd says. */
  lemma {:induction false} SpaceEndAt(s: string, i: int, e: int)
    requires 0 <= i <= e <= |s|
    requires forall k :: i <= k < e ==> IsPcreSpace(s[k])
    requires e == |s| || !IsPcreSpace(s[e])
    ensures SpaceEnd(s, i) == e
    decreases e - i
  {
    if i < e {
      SpaceEndAt(s, i + 1, e);
    }
  }

  /** Drops the leading characters of s that satisfy ws. */
  function StripLeft(s: string, ws: Blanks): (r: string)
    ensures |r| <= |s| && r == s[|s| - |r|..]
    ensures r == [] || !IsBlank(r[0], ws)
  {
    if |s| > 0 && IsBlank(s[0], ws) then StripLeft(s[1..], ws) else s
  }

  /** What StripLeft drops all satisfies ws. */
  lemma {:induction false} StripLeftDropped(s: string, ws: Blanks)
    ensures AllBlank(s[..|s| - |StripLeft(s, ws)|], ws)
  {
    if |s| > 0 && IsBlank(s[0], ws) {
      var rest := StripLeft(s[1..], ws);
      StripLeftDropped(s[1..], ws);
      var dropped := s[..|s| - |rest|];
      forall k | 0 <= k < |dropped|
        ensures IsBlank(dropped[k], ws)
      {
        if k > 0 {
          assert dropped[k] == s[1..][..|s[1..]| - |rest|][k - 1];
        }
      }
    }
  }

  /** Drops the trailing characters of s that satisfy ws. */
  function StripRight(s: string, ws: Blanks): (r: string)
    ensures |r| <= |s| && r == s[..|r|]
    ensures r == [] || !IsBlank(r[|r| - 1], ws)
  {
    if |s| > 0 && IsBlank(s[|s| - 1], ws) then StripRight(s[..|s| - 1], ws) else s
  }

  /** What StripRight drops all satisfies ws. */
  lemma {:induction false} StripRightDropped(s: string, ws: Blanks)
    ensures AllBlank(s[|StripRight(s, ws)|..], ws)
  {
    if |s| > 0 && IsBlank(s[|s| - 1], ws) {
      var rest := StripRight(s[..|s| - 1], ws);
      StripRightDropped(s[..|s| - 1], ws);
      assert s[|rest|..] == s[..|s| - 1][|rest|..] + [s[|s| - 1]];
    }
  }

  /** s is the blanks StripLeft drops followed by what it keeps. */
  lemma StripLeftSplit(s: string, ws: Blanks) returns (w: string)
    ensures s == w + StripLeft(s, ws) && AllBlank(w, ws)
  {
    var r := StripLeft(s, ws);
    w := s[..|s| - |r|];
    StripLeftDropped(s, ws);
    assert s == w + s[|s| - |r|..];
  }

  /** s is what StripRight keeps followed by the blanks it drops. */
  lemma StripRightSplit(s: string, ws: Blanks) returns (w: string)
    ensures s == StripRight(s, ws) + w && AllBlank(w, ws)
  {
    w := s[|StripRight(s, ws)|..];
    StripRightDropped(s, ws);
  }

  /** Drops the characters satisfying ws at both ends of s. */
  function Strip(s: string, ws: Blanks): (r: string)
    ensures |r| <= |s|
    ensures r == [] || (!IsBlank(r[0], ws) && !IsBlank(r[|r| - 1], ws))
  {
    StripRight(StripLeft(s, ws), ws)
  }

  /** Stripping splits a string into leading blanks, the stripped text and trailing blanks. */
  lemma StripParts(s: string, ws: Blanks) returns (w1: string, w2: string)
    ensures s == w1 + Strip(s, ws) + w2
    ensures AllBlank(w1, ws) && AllBlank(w2, ws)
  {
    w1 := StripLeftSplit(s, ws);
    w2 := StripRightSplit(StripLeft(s, ws), ws);
    ConcatAssoc(w1, Strip(s, ws), w2);
  }

  lemma ConcatAssoc(a: string, b: string, c: string)
    ensures a + (b + c) == a + b + c
  {
  }

  /** PHP trim($s) with its default character list. */
  function Trim(s: string): string {
    Strip(s, TrimChars)
  }

  lemma {:induction false} StripLeftKeeps(s: string, ws: Blanks)
    requires s == [] || !IsBlank(s[0], ws)
    ensures StripLeft(s, ws) == s
  {
  }

  lemma {:induction false} StripRightKeeps(s: string, ws: Blanks)
    requires s == [] || !IsBlank(s[|s| - 1], ws)
    ensures StripRight(s, ws) == s
  {
  }

  /** Stripping a string that does not begin or end with a stripped character changes nothing. */
  lemma StripKeeps(s: string, ws: Blanks)
    requires s == [] || (!IsBlank(s[0], ws) && !IsBlank(s[|s| - 1], ws))
    ensures Strip(s, ws) == s
  {
    StripLeftKeeps(s, ws);
    StripRightKeeps(s, ws);
  }

  /** Stripping removes exactly blank padding around a text without blank ends. */
  lemma StripPadding(w1: string, t: string, w2: string, ws: Blanks)
    requires AllBlank(w1, ws) && AllBlank(w2, ws)
    requires t == [] || (!IsBlank(t[0], ws) && !IsBlank(t[|t| - 1], ws))
    ensures Strip(w1 + t + w2, ws) == t
  {
    if t == [] {
      assert w1 + t + w2 == (w1 + w2) + [];
      StripLeftAppend(w1 + w2, [], ws);
      StripRightKeeps([], ws);
    } else {
      assert w1 + t + w2 == w1 + (t + w2);
      StripLeftAppend(w1, t + w2, ws);
      StripRightAppend(t, w2, ws);
    }
  }

  /** trim() is idempotent. */
  lemma TrimIdempotent(s: string)
    ensures Trim(Trim(s)) == Trim(s)
  {
    StripKeeps(Trim(s), TrimChars);
  }

  /** Stripping on the left skips exactly a whitespace prefix. */
  lemma {:induction false} StripLeftAppend(w: string, t: string, ws: Blanks)
    requires AllBlank(w, ws)
    requires t == [] || !IsBlank(t[0], ws)
    ensures StripLeft(w + t, ws) == t
  {
    if w == [] {
      assert w + t == t;
      StripLeftKeeps(t, ws);
    } else {
      assert (w + t)[1..] == w[1..] + t;
      assert AllBlank(w[1..], ws) by {
        forall k | 0 <= k < |w[1..]| ensures IsBlank(w[1..][k], ws) { assert w[1..][k] == w[k + 1]; }
      }
      StripLeftAppend(w[1..], t, ws);
    }
  }

  /** Stripping on the right skips exactly a whitespace suffix. */
  lemma {:induction false} StripRightAppend(t: string, w: string, ws: Blanks)
    requires AllBlank(w, ws)
    requires t == [] || !IsBlank(t[|t| - 1], ws)
    ensures StripRight(t + w, ws) == t
  {
    if w == [] {
      assert t + w == t;
      StripRightKeeps(t, ws);
    } else {
      var w' := w[..|w| - 1];
      assert (t + w)[..|t + w| - 1] == t + w';
      assert AllBlank(w', ws) by {
        forall k | 0 <= k < |w'| ensures IsBlank(w'[k], ws) { assert w'[k] == w[k]; }
      }
      StripRightAppend(t, w', ws);
    }
  }

  function UpperChar(c: char): char {
    if 'a' <= c <= 'z' then (c as int - 'a' as int + 'A' as int) as char else c
  }

  /** strtoupper(): ASCII lower-case letters become upper-case, everything else is kept. */
  function ToUpper(s: string): (r: string)
    ensures |r| == |s|
    ensures forall k :: 0 <= k < |s| ==> r[k] == UpperChar(s[k])
  {
    if s == [] then [] else [UpperChar(s[0])] + ToUpper(s[1..])
  }

  function DigitValue(c: char): nat
    requires IsDigit(c)
  {
    c as int - '0' as int
  }

  function DigitChar(d: nat): (c: char)
    requires d < 10
    ensures IsDigit(c) && DigitValue(c) == d
  {
    ('0' as int + d) as char
  }

  /** The number a string of decimal digits denotes (0 for the empty string). */
  function DigitsValue(s: string): nat
    requires AllDigits(s)
  {
    if s == [] then 0 else DigitsValue(s[..|s| - 1]) * 10 + DigitValue(s[|s| - 1])
  }

  /** Decimal rendering of a natural number, without leading zeros. */
  function NatToString(n: nat): (r: string)
    ensures |r| >= 1 && AllDigits(r)
    ensures DigitsValue(r) == n
    ensures r[0] != '0' || n == 0
    ensures n == 0 ==> r == "0"
  {
    if n < 10 then [DigitChar(n)]
    else
      var prefix := NatToString(n / 10);
      var r := prefix + [DigitChar(n % 10)];
      assert r[..|r| - 1] == prefix;
      r
  }

  /** Decimal rendering of an integer, as PHP's (string) cast and sprintf('%d') give it. */
  function IntToString(i: int): (r: string)
    ensures |r| >= 1
  {
    if i < 0 then "-" + NatToString(-i) else NatToString(i)
  }

  /** The longest prefix of s made of decimal digits. */
  function LeadingDigits(s: string): (r: string)
    ensures r <= s && AllDigits(r)
    ensures |r| == |s| || !IsDigit(s[|r|])
  {
    if s != [] && IsDigit(s[0]) then [s[0]] + LeadingDigits(s[1..]) else []
  }

  /** explode($sep, $s) for a one-character separator. */
  function Explode(sep: char, s: string): (parts: seq<string>)
    ensures |parts| >= 1
    ensures forall k :: 0 <= k < |parts| ==> sep !in parts[k]
  {
    if s == [] then [""]
    else
      var rest := Explode(sep, s[1..]);
      if s[0] == sep then [""] + rest
      else [[s[0]] + rest[0]] + rest[1..]
  }

  /** implode($sep, $parts). */
  function Implode(sep: char, parts: seq<string>): string
    requires |parts| >= 1
  {
    if |parts| == 1 then parts[0] else parts[0] + [sep] + Implode(sep, parts[1..])
  }

  /** explode() loses nothing: joining the parts with the separator gives the input back. */
  lemma {:induction false} ImplodeExplode(sep: char, s: string)
    ensures Implode(sep, Explode(sep, s)) == s
  {
    if s != [] {
      var rest := Explode(sep, s[1..]);
      ImplodeExplode(sep, s[1..]);
      if s[0] != sep {
        var parts := Explode(sep, s);
        if |rest| == 1 {
          assert parts == [[s[0]] + rest[0]];
        } else {
          assert parts[1..] == rest[1..];
          assert Implode(sep, rest) == rest[0] + [sep] + Implode(sep, rest[1..]);
        }
      }
    }
  }

  /** A string without the separator explodes into itself. */
  lemma {:induction false} ExplodeNoSeparator(sep: char, s: string)
    requires sep !in s
    ensures Explode(sep, s) == [s]
  {
    if s != [] {
      assert sep !in s[1..];
      ExplodeNoSeparator(sep, s[1..]);
      assert s[0] != sep;
      assert [s[0]] + s[1..] == s;
    }
  }

  /** Exploding a + [sep] + b where a has no separator splits off a exactly. */
  lemma {:induction false} ExplodeFirst(sep: char, a: string, b: string)
    requires sep !in a
    ensures Explode(sep, a + [sep] + b) == [a] + Explode(sep, b)
  {
    if a == [] {
      assert a + [sep] + b == [sep] + b;
      assert ([sep] + b)[1..] == b;
    } else {
      assert (a + [sep] + b)[1..] == a[1..] + [sep] + b;
      assert sep !in a[1..];
      ExplodeFirst(sep, a[1..], b);
      assert [a[0]] + a[1..] == a;
    }
  }

  type Byte = x: int | 0 <= x < 256

  function HexDigit(d: nat): (c: char)
    requires d < 16
  {
    "0123456789abcdef"[d]
  }

  predicate IsLowerHex(c: char) {
    IsDigit(c) || 'a' <= c <= 'f'
  }

  function HexValue(c: char): (d: nat)
    requires IsLowerHex(c)
    ensures d < 16
  {
    if IsDigit(c) then DigitValue(c) else c as int - 'a' as int + 10
  }

  lemma HexDigitValue(d: nat)
    requires d < 16
    ensures IsLowerHex(HexDigit(d)) && HexValue(HexDigit(d)) == d
  {
  }

  /** bin2hex(): two lower-case hexadecimal digits per byte, high nibble first. */
  function Bin2Hex(bytes: seq<Byte>): (r: string)
    ensures |r| == 2 * |bytes|
    ensures forall k :: 0 <= k < |r| ==> IsLowerHex(r[k])
  {
    if bytes == [] then []
    else
      HexDigitValue(bytes[0] / 16);
      HexDigitValue(bytes[0] % 16);
      [HexDigit(bytes[0] / 16), HexDigit(bytes[0] % 16)] + Bin2Hex(bytes[1..])
  }

  /** The first two digits of bin2hex() encode the first byte. */
  lemma Bin2HexFirst(bytes: seq<Byte>)
    requires bytes != []
    ensures var h := Bin2Hex(bytes);
      h[2..] == Bin2Hex(bytes[1..]) && HexValue(h[0]) * 16 + HexValue(h[1]) == bytes[0]
  {
    var b := bytes[0];
    HexDigitValue(b / 16);
    HexDigitValue(b % 16);
  }

  /** hex2bin() decodes the first two digits, then the rest. */
  lemma Hex2BinFirst(s: string)
    requires |s| >= 2 && |s| % 2 == 0
    requires forall k :: 0 <= k < |s| ==> IsLowerHex(s[k])
    ensures Hex2Bin(s) == [HexValue(s[0]) * 16 + HexValue(s[1])] + Hex2Bin(s[2..])
  {
  }

  /** hex2bin() on a string of an even number of lower-case hexadecimal digits. */
  function Hex2Bin(s: string): seq<Byte>
    requires |s| % 2 == 0
    requires forall k :: 0 <= k < |s| ==> IsLowerHex(s[k])
  {
    if s == [] then [] else [HexValue(s[0]) * 16 + HexValue(s[1])] + Hex2Bin(s[2..])
  }

  /** bin2hex() loses nothing: hex2bin() gives the bytes back. */
  lemma {:induction false} Hex2BinBin2Hex(bytes: seq<Byte>)
    ensures Hex2Bin(Bin2Hex(bytes)) == bytes
  {
    if bytes != [] {
      var h := Bin2Hex(bytes);
      Hex2BinBin2Hex(bytes[1..]);
      Bin2HexFirst(bytes);
      Hex2BinFirst(h);
      assert bytes == [bytes[0]] + bytes[1..];
    }
  }
}
