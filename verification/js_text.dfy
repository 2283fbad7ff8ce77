/**
  The JavaScript string built-ins the core relies on, written out as functions:
  truthiness of an optional string, `trim`, ASCII case mapping, `startsWith`,
  `includes`, `split`, `join`, lowercase hex rendering and `parseInt`.
  Strings are sequences of code points (Dafny's `char`).
*/
module JsText {
  import opened Wrappers

  type byte = x: int | 0 <= x < 256

  /** `!!v` for a value that is a string or absent (`undefined`/`null`): only a
      non-empty string is truthy. */
  predicate Truthy(v: Option<string>) {
    v.Some? && v.value != ""
  }

  /** `a || b` on optional strings. */
  function OrElse(a: Option<string>, b: Option<string>): (r: Option<string>)
    ensures Truthy(a) ==> r == a
    ensures !Truthy(a) ==> r == b
  {
    if Truthy(a) then a else b
  }

  /** `String(v)`: an absent value prints as "undefined". */
  function ToStr(v: Option<string>): string {
    match v
    case Some(s) => s
    case None => "undefined"
  }

  // ---------------------------------------------------------------------------
  // Whitespace and trim
  // ---------------------------------------------------------------------------

  /** ECMAScript WhiteSpace and LineTerminator code points (what `trim` and the
      regular-expression class `\s` remove or match). */
  predicate IsJsWhitespace(c: char) {
    c == '\t' || c == '\n' || c == '\U{000B}' || c == '\U{000C}' || c == '\r' || c == ' '
    || c == '\U{00A0}' || c == '\U{1680}' || ('\U{2000}' <= c <= '\U{200A}')
    || c == '\U{2028}' || c == '\U{2029}' || c == '\U{202F}' || c == '\U{205F}'
    || c == '\U{3000}' || c == '\U{FEFF}'
  }

  /** Neither end of `s` is whitespace. */
  predicate NoEdgeWhitespace(s: string) {
    |s| > 0 ==> !IsJsWhitespace(s[0]) && !IsJsWhitespace(s[|s| - 1])
  }

  function TrimStart(s: string): (r: string)
    ensures |r| <= |s| && r == s[|s| - |r|..]
    ensures |r| > 0 ==> !IsJsWhitespace(r[0])
    ensures forall i :: 0 <= i < |s| - |r| ==> IsJsWhitespace(s[i])
  {
    if |s| > 0 && IsJsWhitespace(s[0]) then TrimStart(s[1..]) else s
  }

  function TrimEnd(s: string): (r: string)
    ensures |r| <= |s| && r == s[..|r|]
    ensures |r| > 0 ==> !IsJsWhitespace(r[|r| - 1])
    ensures forall i :: |r| <= i < |s| ==> IsJsWhitespace(s[i])
  {
    if |s| > 0 && IsJsWhitespace(s[|s| - 1]) then TrimEnd(s[..|s| - 1]) else s
  }

  lemma {:induction false} TrimEndKeepsStart(s: string)
    requires |s| > 0 && !IsJsWhitespace(s[0])
    ensures |TrimEnd(s)| > 0
  {
  }

  /** `s.trim()`. */
  function Trim(s: string): (r: string)
    ensures |r| <= |s|
    ensures NoEdgeWhitespace(r)
  {
    var t := TrimStart(s);
    if |t| > 0 then TrimEndKeepsStart(t); TrimEnd(t) else TrimEnd(t)
  }

  lemma {:induction false} TrimOfTrimmed(s: string)
    requires NoEdgeWhitespace(s)
    ensures Trim(s) == s
  {
  }

  /** Trimming twice is trimming once. */
  lemma TrimIdempotent(s: string)
    ensures Trim(Trim(s)) == Trim(s)
  {
    TrimOfTrimmed(Trim(s));
  }

  // ---------------------------------------------------------------------------
  // Case mapping (ASCII letters only)
  // ---------------------------------------------------------------------------

  function LowerChar(c: char): char {
    if 'A' <= c <= 'Z' then (c as int + 32) as char else c
  }

  function UpperChar(c: char): char {
    if 'a' <= c <= 'z' then (c as int - 32) as char else c
  }

  /** `s.toLowerCase()` restricted to ASCII letters. */
  function ToLower(s: string): (r: string)
    ensures |r| == |s| && forall i :: 0 <= i < |s| ==> r[i] == LowerChar(s[i])
  {
    seq(|s|, i requires 0 <= i < |s| => LowerChar(s[i]))
  }

  /** `s.toUpperCase()` restricted to ASCII letters. */
  function ToUpper(s: string): (r: string)
    ensures |r| == |s| && forall i :: 0 <= i < |s| ==> r[i] == UpperChar(s[i])
  {
    seq(|s|, i requires 0 <= i < |s| => UpperChar(s[i]))
  }

  // ---------------------------------------------------------------------------
  // startsWith, includes
  // ---------------------------------------------------------------------------

  predicate StartsWith(s: string, prefix: string) {
    |prefix| <= |s| && s[..|prefix|] == prefix
  }

  /** `s.includes(part)`: `part` occurs at some position of `s`. */
  predicate Contains(s: string, part: string)
    decreases |s|
  {
    StartsWith(s, part) || (|s| > 0 && Contains(s[1..], part))
  }

  lemma {:induction false} ContainsAt(s: string, part: string, k: nat)
    requires k + |part| <= |s| && s[k..k + |part|] == part
    ensures Contains(s, part)
    decreases k
  {
    if k > 0 {
      assert s[1..][k - 1..k - 1 + |part|] == s[k..k + |part|];
      ContainsAt(s[1..], part, k - 1);
    }
  }

  // ---------------------------------------------------------------------------
  // split and join
  // ---------------------------------------------------------------------------

  /** `s.split(sep)` where `sep` is a one-character string or a one-character
      regular-expression class, given as the predicate it matches. Always at
      least one part; an empty part stands between adjacent separators. */
  function SplitBy(s: string, isSep: char -> bool): (parts: seq<string>)
    ensures |parts| >= 1
    ensures forall i, j :: 0 <= i < |parts| && 0 <= j < |parts[i]| ==> !isSep(parts[i][j])
  {
    if |s| == 0 then [""]
    else if isSep(s[0]) then [""] + SplitBy(s[1..], isSep)
    else
      var rest := SplitBy(s[1..], isSep);
      [[s[0]] + rest[0]] + rest[1..]
  }

  /** Text up to the first separator is the first part; the rest splits on. */
  lemma {:induction false} SplitByAppend(p: string, c: char, rest: string, isSep: char -> bool)
    requires isSep(c)
    requires forall i :: 0 <= i < |p| ==> !isSep(p[i])
    ensures SplitBy(p + [c] + rest, isSep) == [p] + SplitBy(rest, isSep)
  {
    if |p| == 0 {
      assert p + [c] + rest == [c] + rest;
      assert ([c] + rest)[1..] == rest;
    } else {
      assert (p + [c] + rest)[1..] == p[1..] + [c] + rest;
      SplitByAppend(p[1..], c, rest, isSep);
      assert [p[0]] + p[1..] == p;
    }
  }

  /** Text with no separator is one part. */
  lemma {:induction false} SplitByNoSeparator(p: string, isSep: char -> bool)
    requires forall i :: 0 <= i < |p| ==> !isSep(p[i])
    ensures SplitBy(p, isSep) == [p]
  {
    if |p| > 0 {
      SplitByNoSeparator(p[1..], isSep);
      assert [p[0]] + p[1..] == p;
    }
  }

  function IsChar(c: char): char -> bool {
    x => x == c
  }

  /** `s.split(c)` for a single character. */
  function Split(s: string, c: char): (parts: seq<string>)
    ensures |parts| >= 1
    ensures forall i :: 0 <= i < |parts| ==> c !in parts[i]
  {
    var parts := SplitBy(s, IsChar(c));
    assert forall i, j :: 0 <= i < |parts| && 0 <= j < |parts[i]| ==> parts[i][j] != c;
    parts
  }

  /** `filter(Boolean)` on strings: the non-empty ones, each as often as given. */
  function DropEmpty(items: seq<string>): (r: seq<string>)
    ensures forall i :: 0 <= i < |r| ==> r[i] != "" && r[i] in items
    ensures forall x :: x != "" ==> multiset(r)[x] == multiset(items)[x]
    ensures |r| <= |items|
  {
    if |items| == 0 then []
    else
      assert items == [items[0]] + items[1..];
      if items[0] == "" then DropEmpty(items[1..])
      else [items[0]] + DropEmpty(items[1..])
  }

  /** The filter keeps order: it works part by part. */
  lemma {:induction false} DropEmptyAppend(a: seq<string>, b: seq<string>)
    ensures DropEmpty(a + b) == DropEmpty(a) + DropEmpty(b)
    decreases |a|
  {
    if |a| == 0 {
      assert a + b == b;
    } else {
      assert (a + b)[0] == a[0] && (a + b)[1..] == a[1..] + b;
      DropEmptyAppend(a[1..], b);
    }
  }

  /** Nothing is dropped from a list without empty strings. */
  lemma {:induction false} DropEmptyOfFull(items: seq<string>)
    requires forall i :: 0 <= i < |items| ==> items[i] != ""
    ensures DropEmpty(items) == items
  {
    if |items| > 0 {
      DropEmptyOfFull(items[1..]);
    }
  }

  /** `items.join(c)`. */
  function Join(items: seq<string>, c: char): string {
    if |items| == 0 then ""
    else if |items| == 1 then items[0]
    else items[0] + [c] + Join(items[1..], c)
  }

  /** Splitting a join of separator-free items gives the items back. */
  lemma {:induction false} SplitJoin(items: seq<string>, c: char)
    requires |items| >= 1
    requires forall i :: 0 <= i < |items| ==> c !in items[i]
    ensures Split(Join(items, c), c) == items
  {
    if |items| == 1 {
      SplitByNoSeparator(items[0], IsChar(c));
    } else {
      SplitJoin(items[1..], c);
      SplitByAppend(items[0], c, Join(items[1..], c), IsChar(c));
    }
  }

  // ---------------------------------------------------------------------------
  // Lowercase hexadecimal (`buf.toString('hex')`)
  // ---------------------------------------------------------------------------

  predicate IsLowerHexDigit(c: char) {
    '0' <= c <= '9' || 'a' <= c <= 'f'
  }

  function HexDigit(n: nat): (c: char)
    requires n < 16
    ensures IsLowerHexDigit(c)
  {
    if n < 10 then ('0' as int + n) as char else ('a' as int + n - 10) as char
  }

  function HexDigitValue(c: char): (n: nat)
    requires IsLowerHexDigit(c)
    ensures n < 16 && HexDigit(n) == c
  {
    if c <= '9' then c as int - '0' as int else c as int - 'a' as int + 10
  }

  function Hex(bytes: seq<byte>): (r: string)
    ensures |r| == 2 * |bytes|
    ensures forall i :: 0 <= i < |r| ==> IsLowerHexDigit(r[i])
  {
    if |bytes| == 0 then ""
    else [HexDigit(bytes[0] / 16), HexDigit(bytes[0] % 16)] + Hex(bytes[1..])
  }

  /** Reads lowercase hex back into bytes. */
  function UnHex(s: string): (r: seq<byte>)
    requires |s| % 2 == 0
    requires forall i :: 0 <= i < |s| ==> IsLowerHexDigit(s[i])
  {
    if |s| == 0 then []
    else [HexDigitValue(s[0]) * 16 + HexDigitValue(s[1])] + UnHex(s[2..])
  }

  /** Hex rendering loses nothing: distinct byte strings give distinct ids. */
  lemma {:induction false} UnHexHex(bytes: seq<byte>)
    ensures UnHex(Hex(bytes)) == bytes
  {
    if |bytes| > 0 {
      var h := Hex(bytes);
      assert h[2..] == Hex(bytes[1..]);
      UnHexHex(bytes[1..]);
      assert [bytes[0]] + bytes[1..] == bytes;
    }
  }

  // ---------------------------------------------------------------------------
  // encodeURIComponent
  // ---------------------------------------------------------------------------

  /** The characters `encodeURIComponent` leaves as they are. */
  predicate IsUriUnreserved(c: char) {
    'a' <= c <= 'z' || 'A' <= c <= 'Z' || '0' <= c <= '9'
    || c == '-' || c == '_' || c == '.' || c == '!' || c == '~' || c == '*' || c == '\'' || c == '(' || c == ')'
  }

  /** The UTF-8 encoding of one code point. */
  function Utf8(c: char): (b: seq<byte>)
    ensures 1 <= |b| <= 4
  {
    var n := c as int;
    if n < 0x80 then [n]
    else if n < 0x800 then [0xC0 + n / 64, 0x80 + n % 64]
    else if n < 0x10000 then [0xE0 + n / 4096, 0x80 + (n / 64) % 64, 0x80 + n % 64]
    else [0xF0 + n / 262144, 0x80 + (n / 4096) % 64, 0x80 + (n / 64) % 64, 0x80 + n % 64]
  }

  function UpperHexDigit(n: nat): (c: char)
    requires n < 16
    ensures '0' <= c <= '9' || 'A' <= c <= 'F'
  {
    if n < 10 then ('0' as int + n) as char else ('A' as int + n - 10) as char
  }

  /** `%XX` for each byte, in uppercase hex. */
  function PercentBytes(bytes: seq<byte>): (r: string)
    ensures |r| == 3 * |bytes|
    ensures forall i :: 0 <= i < |r| ==> IsUriUnreserved(r[i]) || r[i] == '%'
  {
    if |bytes| == 0 then ""
    else ['%', UpperHexDigit(bytes[0] / 16), UpperHexDigit(bytes[0] % 16)] + PercentBytes(bytes[1..])
  }

  /**
    `encodeURIComponent(s)`: unreserved characters are kept and every other
    code point becomes the percent-encoding of its UTF-8 bytes, so the result
    holds no `&`, `=`, `?`, `/` or `#` to break the query string it is put in.
  */
  function EncodeURIComponent(s: string): (r: string)
    ensures |r| >= |s|
    ensures forall i :: 0 <= i < |r| ==> IsUriUnreserved(r[i]) || r[i] == '%'
  {
    if |s| == 0 then ""
    else (if IsUriUnreserved(s[0]) then [s[0]] else PercentBytes(Utf8(s[0]))) + EncodeURIComponent(s[1..])
  }

  /** A text of unreserved characters is its own encoding. */
  lemma {:induction false} EncodeUnreservedUnchanged(s: string)
    requires forall i :: 0 <= i < |s| ==> IsUriUnreserved(s[i])
    ensures EncodeURIComponent(s) == s
    decreases |s|
  {
    if |s| > 0 {
      EncodeUnreservedUnchanged(s[1..]);
    }
  }

  // ---------------------------------------------------------------------------
  // parseInt(s) with no radix
  // ---------------------------------------------------------------------------

  predicate IsDigitIn(c: char, radix: nat) {
    if radix == 16 then '0' <= c <= '9' || 'a' <= c <= 'f' || 'A' <= c <= 'F'
    else '0' <= c <= '9'
  }

  function DigitValue(c: char): nat {
    if '0' <= c <= '9' then c as int - '0' as int
    else if 'a' <= c <= 'f' then c as int - 'a' as int + 10
    else if 'A' <= c <= 'F' then c as int - 'A' as int + 10
    else 0
  }

  /** The longest prefix of `s` made of digits of `radix`. */
  function DigitPrefix(s: string, radix: nat): (r: string)
    ensures |r| <= |s| && r == s[..|r|]
    ensures forall i :: 0 <= i < |r| ==> IsDigitIn(r[i], radix)
  {
    if |s| > 0 && IsDigitIn(s[0], radix) then [s[0]] + DigitPrefix(s[1..], radix) else ""
  }

  /** Value of a digit string, most significant digit first. */
  function DigitsValue(digits: string, radix: nat): nat {
    if |digits| == 0 then 0
    else DigitsValue(digits[..|digits| - 1], radix) * radix + DigitValue(digits[|digits| - 1])
  }

  /** `parseInt(s)` (no radix) when `hexPrefix`, `parseInt(s, 10)` otherwise:
      leading whitespace skipped, an optional sign, with no radix a `0x`/`0X`
      prefix switching to base 16, then the longest run of digits; `None` is
      `NaN` (no digit at all). */
  function ParseIntWith(s: string, hexPrefix: bool): (r: Option<int>)
  {
    var t := TrimStart(s);
    var negative := |t| > 0 && t[0] == '-';
    var u := if |t| > 0 && (t[0] == '-' || t[0] == '+') then t[1..] else t;
    var hex := hexPrefix && |u| >= 2 && u[0] == '0' && (u[1] == 'x' || u[1] == 'X');
    var radix := if hex then 16 else 10;
    var body := if hex then u[2..] else u;
    var digits := DigitPrefix(body, radix);
    if |digits| == 0 then None
    else
      var v: int := DigitsValue(digits, radix);
      Some(if negative then -v else v)
  }

  function ParseInt(s: string): Option<int> {
    ParseIntWith(s, true)
  }

  function ParseInt10(s: string): Option<int> {
    ParseIntWith(s, false)
  }
}
