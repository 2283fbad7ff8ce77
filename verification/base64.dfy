/**
  The browser's `btoa` and `atob`: Base64 as defined in section 4 of RFC 4648
  (alphabet A-Z a-z 0-9 + /, padding with '='), with `atob` following the
  WHATWG "forgiving-base64 decode" algorithm (ASCII whitespace is ignored,
  padding is optional, and the left-over bits of a final group are dropped).
  Both work on "binary strings": strings whose code points are all below 256,
  one per byte.
*/
module Base64 {
  import opened Wrappers
  import opened JsText

  // ---------------------------------------------------------------------------
  // Binary strings
  // ---------------------------------------------------------------------------

  predicate IsBinary(s: string) {
    forall i :: 0 <= i < |s| ==> s[i] as int < 256
  }

  /** `String.fromCharCode(...bytes)`. */
  function FromBytes(b: seq<byte>): (s: string)
    ensures |s| == |b| && IsBinary(s)
    ensures forall i :: 0 <= i < |b| ==> s[i] as int == b[i]
  {
    seq(|b|, i requires 0 <= i < |b| => b[i] as char)
  }

  /** The character codes of a binary string (`s.charCodeAt(i)` for each `i`). */
  function ToBytes(s: string): (b: seq<byte>)
    requires IsBinary(s)
    ensures |b| == |s| && FromBytes(b) == s
  {
    seq(|s|, i requires 0 <= i < |s| => s[i] as int)
  }

  /** Reading the character codes of `String.fromCharCode(...b)` gives `b` back. */
  lemma ToBytesFromBytes(b: seq<byte>)
    ensures ToBytes(FromBytes(b)) == b
  {
  }

  lemma FromBytesAppend(a: seq<byte>, b: seq<byte>)
    ensures FromBytes(a + b) == FromBytes(a) + FromBytes(b)
  {
  }

  // ---------------------------------------------------------------------------
  // The alphabet
  // ---------------------------------------------------------------------------

  predicate IsBase64Char(c: char) {
    'A' <= c <= 'Z' || 'a' <= c <= 'z' || '0' <= c <= '9' || c == '+' || c == '/'
  }

  predicate AllBase64(s: string) {
    forall i :: 0 <= i < |s| ==> IsBase64Char(s[i])
  }

  function SextetChar(n: nat): (c: char)
    requires n < 64
    ensures IsBase64Char(c)
  {
    if n < 26 then ('A' as int + n) as char
    else if n < 52 then ('a' as int + n - 26) as char
    else if n < 62 then ('0' as int + n - 52) as char
    else if n == 62 then '+'
    else '/'
  }

  function SextetValue(c: char): (n: nat)
    requires IsBase64Char(c)
    ensures n < 64 && SextetChar(n) == c
  {
    if 'A' <= c <= 'Z' then c as int - 'A' as int
    else if 'a' <= c <= 'z' then c as int - 'a' as int + 26
    else if '0' <= c <= '9' then c as int - '0' as int + 52
    else if c == '+' then 62
    else 63
  }

  lemma SextetRoundTrip(n: nat)
    requires n < 64
    ensures SextetValue(SextetChar(n)) == n
  {
  }

  // ---------------------------------------------------------------------------
  // Encoding
  // ---------------------------------------------------------------------------

  function EncodeGroup3(x: byte, y: byte, z: byte): (q: string)
    ensures |q| == 4 && AllBase64(q)
  {
    [SextetChar(x / 4), SextetChar((x % 4) * 16 + y / 16),
     SextetChar((y % 16) * 4 + z / 64), SextetChar(z % 64)]
  }

  function EncodeGroup2(x: byte, y: byte): (q: string)
    ensures |q| == 3 && AllBase64(q)
  {
    [SextetChar(x / 4), SextetChar((x % 4) * 16 + y / 16), SextetChar((y % 16) * 4)]
  }

  function EncodeGroup1(x: byte): (q: string)
    ensures |q| == 2 && AllBase64(q)
  {
    [SextetChar(x / 4), SextetChar((x % 4) * 16)]
  }

  /** The encoding without its '=' padding. */
  function EncodeUnpadded(b: seq<byte>): (s: string)
    ensures AllBase64(s)
    ensures |s| == |b| / 3 * 4 + (if |b| % 3 == 0 then 0 else |b| % 3 + 1)
  {
    if |b| == 0 then ""
    else if |b| == 1 then EncodeGroup1(b[0])
    else if |b| == 2 then EncodeGroup2(b[0], b[1])
    else EncodeGroup3(b[0], b[1], b[2]) + EncodeUnpadded(b[3..])
  }

  /** RFC 4648 section 4 Base64 of a byte string, padded to a multiple of 4. */
  function Encode(b: seq<byte>): (s: string)
    ensures |s| % 4 == 0 && |s| == (|b| + 2) / 3 * 4
    ensures forall i :: 0 <= i < |s| ==> IsBase64Char(s[i]) || s[i] == '='
  {
    var raw := EncodeUnpadded(b);
    var pad := if |b| % 3 == 1 then "==" else if |b| % 3 == 2 then "=" else "";
    PaddedSize(|b|, |raw|, |pad|);
    raw + pad
  }

  /** Full groups, the partial group and its padding make a multiple of four characters. */
  lemma PaddedSize(len: nat, rawLen: nat, padLen: nat)
    requires rawLen == len / 3 * 4 + (if len % 3 == 0 then 0 else len % 3 + 1)
    requires padLen == if len % 3 == 1 then 2 else if len % 3 == 2 then 1 else 0
    ensures (rawLen + padLen) % 4 == 0 && rawLen + padLen == (len + 2) / 3 * 4
  {
    var n := len / 3;
    assert len == 3 * n + len % 3;
    assert (len + 2) / 3 == if len % 3 == 0 then n else n + 1;
    Split4(if len % 3 == 0 then n else n + 1, 0);
  }

  /** `btoa(binary)`: fails (InvalidCharacterError) on a code point above 255. */
  function Btoa(binary: string): (r: Option<string>)
    ensures r.Some? <==> IsBinary(binary)
  {
    if IsBinary(binary) then Some(Encode(ToBytes(binary))) else None
  }

  // ---------------------------------------------------------------------------
  // Decoding
  // ---------------------------------------------------------------------------

  function DecodeGroup4(a: nat, b: nat, c: nat, d: nat): seq<byte>
    requires a < 64 && b < 64 && c < 64 && d < 64
  {
    [a * 4 + b / 16, (b % 16) * 16 + c / 4, (c % 4) * 64 + d]
  }

  /** Decodes base64 characters with no padding; a final group of 2 or 3
      characters yields 1 or 2 bytes and its left-over bits are dropped. */
  function DecodeUnpadded(s: string): (b: seq<byte>)
    requires AllBase64(s) && |s| % 4 != 1
  {
    if |s| == 0 then []
    else if |s| == 2 then
      [SextetValue(s[0]) * 4 + SextetValue(s[1]) / 16]
    else if |s| == 3 then
      [SextetValue(s[0]) * 4 + SextetValue(s[1]) / 16,
       (SextetValue(s[1]) % 16) * 16 + SextetValue(s[2]) / 4]
    else
      DecodeGroup4(SextetValue(s[0]), SextetValue(s[1]), SextetValue(s[2]), SextetValue(s[3]))
      + DecodeUnpadded(s[4..])
  }

  /** Four characters give three bytes; a final group of 2 or 3 characters gives 1 or 2. */
  lemma {:induction false} DecodeUnpaddedLength(s: string)
    requires AllBase64(s) && |s| % 4 != 1
    ensures |DecodeUnpadded(s)| == |s| / 4 * 3 + (if |s| % 4 == 0 then 0 else |s| % 4 - 1)
    decreases |s|
  {
    if |s| == 2 {
      assert |DecodeUnpadded(s)| == 1;
    } else if |s| == 3 {
      assert |DecodeUnpadded(s)| == 2;
    } else if |s| > 3 {
      DecodeUnpaddedLength(s[4..]);
      assert |DecodeUnpadded(s)| == 3 + |DecodeUnpadded(s[4..])|;
      DecodedStep(|s|);
    }
  }

  /** One more group of four characters adds three bytes. */
  lemma DecodedStep(len: nat)
    requires len >= 4
    ensures len / 4 * 3 + (if len % 4 == 0 then 0 else len % 4 - 1)
         == 3 + ((len - 4) / 4 * 3 + (if (len - 4) % 4 == 0 then 0 else (len - 4) % 4 - 1))
  {
    assert len / 4 == (len - 4) / 4 + 1 && len % 4 == (len - 4) % 4;
  }

  /** ASCII whitespace in the sense of the WHATWG Infra standard. */
  predicate IsAsciiWhitespace(c: char) {
    c == '\t' || c == '\n' || c == '\U{000C}' || c == '\r' || c == ' '
  }

  function RemoveAsciiWhitespace(s: string): (r: string)
    ensures forall i :: 0 <= i < |r| ==> !IsAsciiWhitespace(r[i])
    ensures forall i :: 0 <= i < |s| && !IsAsciiWhitespace(s[i]) ==> s[i] in r
  {
    if |s| == 0 then ""
    else if IsAsciiWhitespace(s[0]) then RemoveAsciiWhitespace(s[1..])
    else [s[0]] + RemoveAsciiWhitespace(s[1..])
  }

  /** Removes one or two trailing '='. */
  function StripPadding(t: string): string {
    if |t| >= 2 && t[|t| - 1] == '=' && t[|t| - 2] == '=' then t[..|t| - 2]
    else if |t| >= 1 && t[|t| - 1] == '=' then t[..|t| - 1]
    else t
  }

  /** Forgiving-base64 decode to bytes; `None` is the failure that makes
      `atob` throw. */
  function Decode(s: string): (r: Option<seq<byte>>)
    ensures (exists i :: 0 <= i < |s| && !IsBase64Char(s[i]) && s[i] != '=' && !IsAsciiWhitespace(s[i])) ==> r.None?
  {
    StrayCharFails(s);
    var t := RemoveAsciiWhitespace(s);
    var u := if |t| % 4 == 0 then StripPadding(t) else t;
    if |u| % 4 == 1 || !AllBase64(u) then None
    else Some(DecodeUnpadded(u))
  }

  /** A character that is neither in the alphabet, nor padding, nor whitespace survives into the decoded text. */
  lemma StrayCharFails(s: string)
    ensures var t := RemoveAsciiWhitespace(s);
      var u := if |t| % 4 == 0 then StripPadding(t) else t;
      (exists i :: 0 <= i < |s| && !IsBase64Char(s[i]) && s[i] != '=' && !IsAsciiWhitespace(s[i])) ==> !AllBase64(u)
  {
    var t := RemoveAsciiWhitespace(s);
    var u := if |t| % 4 == 0 then StripPadding(t) else t;
    if i :| 0 <= i < |s| && !IsBase64Char(s[i]) && s[i] != '=' && !IsAsciiWhitespace(s[i]) {
      var c := s[i];
      assert c in t;
      var j :| 0 <= j < |t| && t[j] == c;
      assert j < |u| && u[j] == c;
    }
  }

  /** `atob(s)`: the binary string of the decoded bytes. */
  function Atob(s: string): (r: Option<string>)
    ensures r.Some? ==> IsBinary(r.value)
  {
    match Decode(s)
    case Some(b) => Some(FromBytes(b))
    case None => None
  }

  // ---------------------------------------------------------------------------
  // Round trip
  // ---------------------------------------------------------------------------

  lemma Split16(p: nat, q: nat)
    requires q < 16
    ensures (p * 16 + q) / 16 == p && (p * 16 + q) % 16 == q
  {
  }

  lemma Split4(p: nat, q: nat)
    requires q < 4
    ensures (p * 4 + q) / 4 == p && (p * 4 + q) % 4 == q
  {
  }

  /** The sextets of one encoded group of three bytes decode to those bytes. */
  lemma Group3RoundTrip(x: byte, y: byte, z: byte)
    ensures DecodeGroup4(x / 4, (x % 4) * 16 + y / 16, (y % 16) * 4 + z / 64, z % 64) == [x, y, z]
  {
    Split16(x % 4, y / 16);
    Split4(y % 16, z / 64);
  }

  lemma UnpaddedLength(b: seq<byte>)
    ensures |EncodeUnpadded(b)| % 4 == (if |b| % 3 == 0 then 0 else |b| % 3 + 1)
  {
    LengthMod4(|b|, |EncodeUnpadded(b)|);
  }

  /** A length of four characters per full group plus a partial group leaves the partial group's size modulo 4. */
  lemma LengthMod4(len: nat, e: nat)
    requires e == len / 3 * 4 + (if len % 3 == 0 then 0 else len % 3 + 1)
    ensures e % 4 == (if len % 3 == 0 then 0 else len % 3 + 1)
  {
    Split4(len / 3, if len % 3 == 0 then 0 else len % 3 + 1);
  }

  lemma DecodeUnpaddedGroup(q: string, rest: string)
    requires |q| == 4 && AllBase64(q) && AllBase64(rest) && |rest| % 4 != 1
    ensures AllBase64(q + rest) && |q + rest| % 4 != 1
    ensures DecodeUnpadded(q + rest)
         == DecodeGroup4(SextetValue(q[0]), SextetValue(q[1]), SextetValue(q[2]), SextetValue(q[3]))
            + DecodeUnpadded(rest)
  {
    assert (q + rest)[4..] == rest;
  }

  lemma Group1RoundTrip(x: byte)
    ensures DecodeUnpadded(EncodeGroup1(x)) == [x]
  {
    var q := EncodeGroup1(x);
    SextetRoundTrip(x / 4);
    SextetRoundTrip((x % 4) * 16);
    assert SextetValue(q[0]) == x / 4;
    assert SextetValue(q[1]) == (x % 4) * 16;
    Split16(x % 4, 0);
  }

  lemma Group2RoundTrip(x: byte, y: byte)
    ensures DecodeUnpadded(EncodeGroup2(x, y)) == [x, y]
  {
    var q := EncodeGroup2(x, y);
    SextetRoundTrip(x / 4);
    SextetRoundTrip((x % 4) * 16 + y / 16);
    SextetRoundTrip((y % 16) * 4);
    assert SextetValue(q[0]) == x / 4;
    assert SextetValue(q[1]) == (x % 4) * 16 + y / 16;
    assert SextetValue(q[2]) == (y % 16) * 4;
    Split16(x % 4, y / 16);
    Split4(y % 16, 0);
  }

  lemma Group3Prefix(x: byte, y: byte, z: byte, rest: string)
    requires AllBase64(rest) && |rest| % 4 != 1
    ensures AllBase64(EncodeGroup3(x, y, z) + rest) && |EncodeGroup3(x, y, z) + rest| % 4 != 1
    ensures DecodeUnpadded(EncodeGroup3(x, y, z) + rest) == [x, y, z] + DecodeUnpadded(rest)
  {
    var q := EncodeGroup3(x, y, z);
    DecodeUnpaddedGroup(q, rest);
    SextetRoundTrip(x / 4);
    SextetRoundTrip((x % 4) * 16 + y / 16);
    SextetRoundTrip((y % 16) * 4 + z / 64);
    SextetRoundTrip(z % 64);
    Group3RoundTrip(x, y, z);
  }

  lemma {:induction false} UnpaddedRoundTrip(b: seq<byte>)
    ensures |EncodeUnpadded(b)| % 4 != 1
    ensures DecodeUnpadded(EncodeUnpadded(b)) == b
  {
    UnpaddedLength(b);
    if |b| == 1 {
      Group1RoundTrip(b[0]);
    } else if |b| == 2 {
      Group2RoundTrip(b[0], b[1]);
    } else if |b| >= 3 {
      var rest := EncodeUnpadded(b[3..]);
      assert EncodeUnpadded(b) == EncodeGroup3(b[0], b[1], b[2]) + rest;
      UnpaddedRoundTrip(b[3..]);
      Group3Prefix(b[0], b[1], b[2], rest);
      FirstThree(b);
    }
  }

  lemma FirstThree(b: seq<byte>)
    requires |b| >= 3
    ensures [b[0], b[1], b[2]] + b[3..] == b
  {
  }

  lemma {:induction false} NoWhitespaceUnchanged(s: string)
    requires forall i :: 0 <= i < |s| ==> !IsAsciiWhitespace(s[i])
    ensures RemoveAsciiWhitespace(s) == s
  {
    if |s| > 0 {
      NoWhitespaceUnchanged(s[1..]);
      assert [s[0]] + s[1..] == s;
    }
  }

  /** Decoding an encoding gives the bytes back. */
  lemma DecodeEncode(b: seq<byte>)
    ensures Decode(Encode(b)) == Some(b)
  {
    var raw := EncodeUnpadded(b);
    var pad := if |b| % 3 == 1 then "==" else if |b| % 3 == 2 then "=" else "";
    var s := Encode(b);
    assert s == raw + pad;
    NoWhitespaceUnchanged(s);
    StripPaddingOf(raw, pad);
    UnpaddedRoundTrip(b);
  }

  /** Stripping the padding off an unpadded text with zero, one or two '=' appended gives the text back. */
  lemma StripPaddingOf(raw: string, pad: string)
    requires AllBase64(raw)
    requires pad == "" || pad == "=" || pad == "=="
    ensures StripPadding(raw + pad) == raw
  {
    var t := raw + pad;
    if pad == "==" {
      assert t[..|t| - 2] == raw;
    } else if pad == "=" {
      assert t[..|t| - 1] == raw;
      if |raw| >= 1 {
        assert t[|t| - 2] == raw[|raw| - 1];
      }
    } else {
      assert t == raw;
      if |raw| >= 1 {
        assert t[|t| - 1] == raw[|raw| - 1];
      }
    }
  }

  /** `atob(btoa(binary)) == binary` for every binary string. */
  lemma AtobBtoa(binary: string)
    requires IsBinary(binary)
    ensures Btoa(binary).Some? && Atob(Btoa(binary).value) == Some(binary)
  {
    DecodeEncode(ToBytes(binary));
  }
}
