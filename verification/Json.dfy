/** JSON strings (section 7 of RFC 8259) and integers (section 6), as encoding/json prints and reads them. */
module Json {
  import opened Wrappers
  import opened Chunking

  // Unicode scalar values.
  type Rune = r: int | 0 <= r < 0xD800 || 0xE000 <= r < 0x110000

  const REPLACEMENT: Rune := 0xFFFD

  const QUOTE: byte := 0x22
  const BACKSLASH: byte := 0x5C
  const COLON: byte := 0x3A
  const COMMA: byte := 0x2C
  const OPEN: byte := 0x7B
  const CLOSE: byte := 0x7D

  // ---------- UTF-8 ----------

  function Utf8(r: Rune): seq<byte> {
    if r < 0x80 then [r]
    else if r < 0x800 then [0xC0 + r / 64, 0x80 + r % 64]
    else if r < 0x10000 then [0xE0 + r / 4096, 0x80 + r / 64 % 64, 0x80 + r % 64]
    else [0xF0 + r / 262144, 0x80 + r / 4096 % 64, 0x80 + r / 64 % 64, 0x80 + r % 64]
  }

  // Byte i of s continues a sequence; its six bits, or -1.
  function Tail(s: seq<byte>, i: nat): int {
    if i < |s| && 0x80 <= s[i] < 0xC0 then (s[i] as int) - 0x80 else -1
  }

  // The first rune of s and its width; a byte that starts none reads as the replacement character.
  function DecodeRune(s: seq<byte>): (d: (Rune, nat))
    requires s != []
    ensures 0 < d.1 <= |s|
  {
    var b: int, t1, t2, t3 := s[0] as int, Tail(s, 1), Tail(s, 2), Tail(s, 3);
    if b < 0x80 then (b, 1)
    else if 0xC0 <= b < 0xE0 && t1 >= 0 then
      var r := (b - 0xC0) * 64 + t1;
      if 0x80 <= r then (r, 2) else (REPLACEMENT, 1)
    else if 0xE0 <= b < 0xF0 && t1 >= 0 && t2 >= 0 then
      var r := (b - 0xE0) * 4096 + t1 * 64 + t2;
      if 0x800 <= r && !(0xD800 <= r < 0xE000) then (r, 3) else (REPLACEMENT, 1)
    else if 0xF0 <= b < 0xF8 && t1 >= 0 && t2 >= 0 && t3 >= 0 then
      var r := (b - 0xF0) * 262144 + t1 * 4096 + t2 * 64 + t3;
      if 0x10000 <= r < 0x110000 then (r, 4) else (REPLACEMENT, 1)
    else (REPLACEMENT, 1)
  }

  lemma SixBits(r: nat)
    ensures r == r / 64 * 64 + r % 64
    ensures r / 64 == r / 4096 * 64 + r / 64 % 64
    ensures r / 4096 == r / 262144 * 64 + r / 4096 % 64
  {}

  lemma Utf8RoundTrip(r: Rune, rest: seq<byte>)
    ensures Utf8(r) != [] && DecodeRune(Utf8(r) + rest) == (r, |Utf8(r)|)
    ensures r >= 0x80 ==> Utf8(r)[0] >= 0x80
  {
    var u := Utf8(r);
    var s := u + rest;
    SixBits(r);
    assert s[0] == u[0];
    if r >= 0x80 { assert s[1] == u[1] && Tail(s, 1) == (u[1] as int) - 0x80; }
    if r >= 0x800 { assert s[2] == u[2] && Tail(s, 2) == (u[2] as int) - 0x80; }
    if r >= 0x10000 { assert s[3] == u[3] && Tail(s, 3) == (u[3] as int) - 0x80; }
  }

  // ---------- strings ----------

  function HexDigit(n: int): byte
    requires 0 <= n < 16
  {
    if n < 10 then 0x30 + n else 0x61 + n - 10
  }

  function HexValue(b: byte): int {
    if 0x30 <= b <= 0x39 then b - 0x30
    else if 0x61 <= b <= 0x66 then b - 0x61 + 10
    else if 0x41 <= b <= 0x46 then b - 0x41 + 10
    else -1
  }

  function UnicodeEscape(r: int): seq<byte>
    requires 0 <= r < 0x10000
  {
    [BACKSLASH, 0x75, HexDigit(r / 4096), HexDigit(r / 256 % 16), HexDigit(r / 16 % 16), HexDigit(r % 16)]
  }

  // json.Marshal with HTML escaping, its default.
  function EscapeRune(r: Rune): seq<byte> {
    if r == 0x22 || r == 0x5C then [BACKSLASH, r]
    else if r == 0x08 then [BACKSLASH, 0x62]
    else if r == 0x0C then [BACKSLASH, 0x66]
    else if r == 0x0A then [BACKSLASH, 0x6E]
    else if r == 0x0D then [BACKSLASH, 0x72]
    else if r == 0x09 then [BACKSLASH, 0x74]
    else if r < 0x20 || r == 0x3C || r == 0x3E || r == 0x26 || r == 0x2028 || r == 0x2029 then UnicodeEscape(r)
    else Utf8(r)
  }

  function Escaped(id: seq<Rune>): seq<byte> {
    if id == [] then [] else EscapeRune(id[0]) + Escaped(id[1..])
  }

  function Quoted(id: seq<Rune>): seq<byte> { [QUOTE] + Escaped(id) + [QUOTE] }

  // Four hexadecimal digits at s[i..], or -1.
  function Hex4(s: seq<byte>, i: nat): (v: int)
    ensures v < 0x10000
  {
    if i + 4 > |s| then -1 else
    var a, b, c, d := HexValue(s[i]), HexValue(s[i + 1]), HexValue(s[i + 2]), HexValue(s[i + 3]);
    if a < 0 || b < 0 || c < 0 || d < 0 then -1 else a * 4096 + b * 256 + c * 16 + d
  }

  // One character of a string, escaped or not, and its width. Unpaired surrogates read as the replacement.
  function ReadChar(s: seq<byte>): (d: Option<(Rune, nat)>)
    requires s != [] && s[0] != QUOTE
    ensures d.Some? ==> 0 < d.value.1 <= |s|
  {
    if s[0] < 0x20 then None
    else if s[0] != BACKSLASH then Some(DecodeRune(s))
    else if |s| < 2 then None
    else if s[1] == 0x22 || s[1] == 0x5C || s[1] == 0x2F then Some((s[1], 2))
    else if s[1] == 0x62 then Some((0x08, 2))
    else if s[1] == 0x66 then Some((0x0C, 2))
    else if s[1] == 0x6E then Some((0x0A, 2))
    else if s[1] == 0x72 then Some((0x0D, 2))
    else if s[1] == 0x74 then Some((0x09, 2))
    else if s[1] == 0x75 then
      var v := Hex4(s, 2);
      if v < 0 then None
      else if !(0xD800 <= v < 0xE000) then Some((v, 6))
      else if v < 0xDC00 && |s| >= 12 && s[6] == BACKSLASH && s[7] == 0x75 && 0xDC00 <= Hex4(s, 8) < 0xE000 then
        Some(((v - 0xD800) * 1024 + (Hex4(s, 8) - 0xDC00) + 0x10000, 12))
      else Some((REPLACEMENT, 6))
    else None
  }

  // The characters up to the closing quote, and what follows it.
  function ReadChars(s: seq<byte>): (d: Option<(seq<Rune>, seq<byte>)>)
    ensures d.Some? ==> |d.value.1| < |s|
  {
    if s == [] then None
    else if s[0] == QUOTE then Some(([], s[1..]))
    else match ReadChar(s)
      case None => None
      case Some((r, n)) =>
        match ReadChars(s[n..])
        case None => None
        case Some((id, rest)) => Some(([r] + id, rest))
  }

  function ReadString(s: seq<byte>): (d: Option<(seq<Rune>, seq<byte>)>)
    ensures d.Some? ==> |d.value.1| < |s|
  {
    if s == [] || s[0] != QUOTE then None else ReadChars(s[1..])
  }

  lemma HexRoundTrip(r: int, rest: seq<byte>)
    requires 0 <= r < 0x10000
    ensures Hex4(UnicodeEscape(r) + rest, 2) == r
  {
    var s := UnicodeEscape(r) + rest;
    assert s[2] == HexDigit(r / 4096) && s[3] == HexDigit(r / 256 % 16)
      && s[4] == HexDigit(r / 16 % 16) && s[5] == HexDigit(r % 16);
    assert r / 256 == (r / 4096) * 16 + r / 256 % 16;
    assert r / 16 == (r / 256) * 16 + r / 16 % 16;
  }

  lemma CharRoundTrip(r: Rune, rest: seq<byte>)
    ensures EscapeRune(r) != [] && EscapeRune(r)[0] != QUOTE
    ensures ReadChar(EscapeRune(r) + rest) == Some((r, |EscapeRune(r)|))
  {
    var s := EscapeRune(r) + rest;
    Utf8RoundTrip(r, rest);
    if r < 0x10000 { HexRoundTrip(r, rest); }
    assert s[0] == EscapeRune(r)[0];
    if |EscapeRune(r)| > 1 { assert s[1] == EscapeRune(r)[1]; }
  }

  lemma {:induction false} CharsRoundTrip(id: seq<Rune>, rest: seq<byte>)
    ensures ReadChars(Escaped(id) + [QUOTE] + rest) == Some((id, rest))
  {
    if id == [] {
      assert Escaped(id) + [QUOTE] + rest == [QUOTE] + rest;
    } else {
      var head, tail := EscapeRune(id[0]), Escaped(id[1..]) + [QUOTE] + rest;
      var s := Escaped(id) + [QUOTE] + rest;
      assert s == head + tail;
      CharRoundTrip(id[0], tail);
      assert s[|head|..] == tail && s[0] == head[0];
      CharsRoundTrip(id[1..], rest);
      assert id == [id[0]] + id[1..];
    }
  }

  /** A printed string reads back as itself, whatever follows it. */
  lemma StringRoundTrip(id: seq<Rune>, rest: seq<byte>)
    ensures ReadString(Quoted(id) + rest) == Some((id, rest))
  {
    assert (Quoted(id) + rest)[1..] == Escaped(id) + [QUOTE] + rest;
    CharsRoundTrip(id, rest);
  }

  // ---------- integers ----------

  function Decimal(n: nat): seq<byte> {
    if n < 10 then [0x30 + n] else Decimal(n / 10) + [0x30 + n % 10]
  }

  predicate IsDigit(b: byte) { 0x30 <= b <= 0x39 }

  function ReadDigits(s: seq<byte>, acc: nat): (nat, seq<byte>) {
    if s != [] && IsDigit(s[0]) then ReadDigits(s[1..], acc * 10 + (s[0] - 0x30)) else (acc, s)
  }

  lemma {:induction false} DigitsShrink(s: seq<byte>, acc: nat)
    ensures |ReadDigits(s, acc).1| <= |s|
    ensures s != [] && IsDigit(s[0]) ==> |ReadDigits(s, acc).1| < |s|
    decreases |s|
  {
    if s != [] && IsDigit(s[0]) { DigitsShrink(s[1..], acc * 10 + (s[0] - 0x30)); }
  }

  // No leading zeros, no fraction, no exponent; a value outside int64 is an error.
  function ReadInt(s: seq<byte>): (d: Option<(int, seq<byte>)>)
    ensures d.Some? ==> |d.value.1| < |s|
  {
    var negative := s != [] && s[0] == 0x2D;
    var t := if negative then s[1..] else s;
    if t == [] || !IsDigit(t[0]) || (t[0] == 0x30 && |t| > 1 && IsDigit(t[1])) then None else
    DigitsShrink(t, 0);
    var (v, rest) := ReadDigits(t, 0);
    var n: int := if negative then -(v as int) else v;
    if rest != [] && (rest[0] == 0x2E || rest[0] == 0x65 || rest[0] == 0x45) then None
    else if n > MAX_INT64 || n < -MAX_INT64 - 1 then None
    else Some((n, rest))
  }

  lemma {:induction false} DecimalHead(n: nat)
    ensures Decimal(n) != [] && IsDigit(Decimal(n)[0])
    ensures Decimal(n)[0] == 0x30 ==> n == 0
  {
    if n >= 10 { DecimalHead(n / 10); }
  }

  lemma {:induction false} DecimalDigits(n: nat, rest: seq<byte>)
    ensures ReadDigits(Decimal(n) + rest, 0) == ReadDigits(rest, n)
  {
    if n < 10 {
      assert (Decimal(n) + rest)[1..] == rest;
    } else {
      var last: seq<byte> := [0x30 + n % 10];
      assert Decimal(n) + rest == Decimal(n / 10) + (last + rest);
      DecimalDigits(n / 10, last + rest);
      assert (last + rest)[1..] == rest;
    }
  }

  /** A printed integer reads back as itself before any byte that does not continue a number. */
  lemma IntRoundTrip(n: nat, rest: seq<byte>)
    requires n <= MAX_INT64
    requires rest != [] ==> !IsDigit(rest[0]) && rest[0] != 0x2E && rest[0] != 0x65 && rest[0] != 0x45
    ensures ReadInt(Decimal(n) + rest) == Some((n, rest))
  {
    DecimalHead(n);
    DecimalDigits(n, rest);
    var s := Decimal(n) + rest;
    assert s[0] == Decimal(n)[0];
    if n == 0 { assert s[1..] == rest; if |s| > 1 { assert s[1] == rest[0]; } }
  }

  function Pow10(k: nat): nat { if k == 0 then 1 else 10 * Pow10(k - 1) }

  lemma {:induction false} DecimalLength(n: nat, k: nat)
    requires k > 0 && n < Pow10(k)
    ensures |Decimal(n)| <= k
  {
    if n >= 10 { DecimalLength(n / 10, k - 1); }
  }

  /** Decimal digits come with the most significant first. */
  lemma DecimalShift(n: nat, d: nat)
    requires d < 10
    ensures Decimal(d) == [0x30 + d]
    ensures n > 0 ==> Decimal(10 * n + d) == Decimal(n) + [0x30 + d]
  {}

  /** Some characters as UTF-8 and encoding/json define them: one of each width, and one of each kind of escape. */
  lemma KnownTexts()
    ensures Utf8(0x41) == [0x41] && Utf8(0xE9) == [0xC3, 0xA9]
    ensures Utf8(0x20AC) == [0xE2, 0x82, 0xAC] && Utf8(0x1F600) == [0xF0, 0x9F, 0x98, 0x80]
    ensures EscapeRune(0x22) == [0x5C, 0x22] && EscapeRune(0x5C) == [0x5C, 0x5C]
    ensures EscapeRune(0x08) == [0x5C, 0x62] && EscapeRune(0x0C) == [0x5C, 0x66]
    ensures EscapeRune(0x0A) == [0x5C, 0x6E] && EscapeRune(0x0D) == [0x5C, 0x72] && EscapeRune(0x09) == [0x5C, 0x74]
    ensures EscapeRune(0x1F) == [0x5C, 0x75, 0x30, 0x30, 0x31, 0x66]
    ensures EscapeRune(0x3C) == [0x5C, 0x75, 0x30, 0x30, 0x33, 0x63]
    ensures EscapeRune(0x2028) == [0x5C, 0x75, 0x32, 0x30, 0x32, 0x38]
  {}

  /** What is printed is safe inside HTML: no control character, angle bracket or ampersand is printed as itself, nor
      the two line separators. Every other character but the quotation mark and the backslash is. */
  lemma HtmlSafe(r: Rune)
    ensures forall k | 0 <= k < |EscapeRune(r)| :: EscapeRune(r)[k] >= 0x20 && EscapeRune(r)[k] !in {0x3C, 0x3E, 0x26}
    ensures r == 0x2028 || r == 0x2029 ==> forall k | 0 <= k < |EscapeRune(r)| :: EscapeRune(r)[k] < 0x80
    ensures r >= 0x20 && r !in {0x22, 0x5C, 0x3C, 0x3E, 0x26, 0x2028, 0x2029} ==> EscapeRune(r) == Utf8(r)
  {}

  /** How texts read that are not printed here: other escapes, surrogates alone and in pairs, bytes that are no UTF-8,
      raw control characters, and numbers outside the grammar or int64. */
  lemma KnownReads()
    ensures ReadChar([0x5C, 0x2F]) == Some((0x2F, 2))
    ensures ReadChar([0x5C, 0x75, 0x64, 0x38, 0x33, 0x44, 0x5C, 0x75, 0x44, 0x65, 0x30, 0x30]) == Some((0x1F600, 12))
    ensures ReadChar([0x5C, 0x75, 0x64, 0x38, 0x33, 0x44]) == Some((REPLACEMENT, 6))
    ensures ReadChar([0x5C, 0x78]) == None && ReadChar([0x0A]) == None
    ensures ReadChar([0xC3]) == Some((REPLACEMENT, 1)) && ReadChar([0xC0, 0x80]) == Some((REPLACEMENT, 1))
    ensures ReadInt([0x30, 0x31]) == None && ReadInt([0x31, 0x65]) == None && ReadInt([0x31, 0x2E]) == None
    ensures ReadInt([0x2D, 0x37]) == Some((-7, []))
    ensures ReadInt(Decimal(MAX_INT64 + 1)) == None
  {
    assert ReadDigits([0x37], 0) == ReadDigits([], 7) == (7, []);
    DecimalDigits(MAX_INT64 + 1, []);
    DecimalHead(MAX_INT64 + 1);
    assert Decimal(MAX_INT64 + 1) + [] == Decimal(MAX_INT64 + 1);
  }
}
