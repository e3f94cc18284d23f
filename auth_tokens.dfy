/**
 * The mock session tokens handed out on sign-up and sign-in: the JSON text
 * of `{userId, type}` (type "access" or "refresh"), encoded as UTF-8 and
 * then as standard Base64 with padding.
 *
 * Beside the encoder the module defines a reader for such tokens (Base64,
 * then UTF-8, then the two-key JSON object) and proves that reading a
 * token gives back the user id and the token type it was made from.
 */
module AuthTokens {
  import opened Common

  type byte = b: int | 0 <= b < 256

  /* ---------------- JSON string literals ---------------- */

  function HexDigit(d: nat): (c: char)
    requires d < 16
    ensures '0' <= c <= '9' || 'a' <= c <= 'f'
  {
    if d < 10 then ('0' as int + d) as char else ('a' as int + d - 10) as char
  }

  function HexValue(c: char): (r: Option<nat>)
    ensures r.Some? ==> r.value < 16
    ensures r.Some? <==> '0' <= c <= '9' || 'a' <= c <= 'f' || 'A' <= c <= 'F'
  {
    if '0' <= c <= '9' then Some(c as int - '0' as int)
    else if 'a' <= c <= 'f' then Some(c as int - 'a' as int + 10)
    else if 'A' <= c <= 'F' then Some(c as int - 'A' as int + 10)
    else None
  }

  lemma HexDigitRoundTrip(d: nat)
    requires d < 16
    ensures HexValue(HexDigit(d)) == Some(d)
  {
  }

  /**
   * How `JSON.stringify` writes one character inside a string literal:
   * the quote and the backslash are escaped, the five control characters
   * with a short escape use it, the other control characters become
   * `\u00` and two lower-case hex digits, and everything else is itself.
   */
  function EscapeChar(c: char): (r: string)
    ensures 1 <= |r|
    ensures (c as int < 0x20 || c == '"' || c == '\\') <==> r[0] == '\\'
    ensures r[0] == '\\' ==> |r| >= 2
  {
    if c == '"' then ['\\', '"']
    else if c == '\\' then ['\\', '\\']
    else if c as int == 0x08 then ['\\', 'b']
    else if c as int == 0x0C then ['\\', 'f']
    else if c == '\n' then ['\\', 'n']
    else if c == '\r' then ['\\', 'r']
    else if c == '\t' then ['\\', 't']
    else if c as int < 0x20 then ['\\', 'u', '0', '0', HexDigit(c as int / 16), HexDigit(c as int % 16)]
    else [c]
  }

  /** The inside of the literal: each character escaped in turn. */
  function Escaped(s: string): (r: string)
    ensures |r| >= |s|
  {
    if s == [] then [] else EscapeChar(s[0]) + Escaped(s[1..])
  }

  /** The string literal `JSON.stringify` writes for a string. */
  function Quote(s: string): (r: string)
    ensures |r| >= |s| + 2 && r[0] == '"' && r[|r| - 1] == '"'
  {
    ['"'] + Escaped(s) + ['"']
  }

  /** The character an escape stands for, given what follows the backslash, and what is left after it. */
  function Unescape(e: string): (r: Option<(char, string)>)
    ensures r.Some? ==> |r.value.1| < |e|
  {
    if e == [] then None
    else if e[0] == '"' || e[0] == '\\' || e[0] == '/' then Some((e[0], e[1..]))
    else if e[0] == 'b' then Some((0x08 as char, e[1..]))
    else if e[0] == 'f' then Some((0x0C as char, e[1..]))
    else if e[0] == 'n' then Some(('\n', e[1..]))
    else if e[0] == 'r' then Some(('\r', e[1..]))
    else if e[0] == 't' then Some(('\t', e[1..]))
    else if e[0] == 'u' && |e| >= 5 then
      match (HexValue(e[1]), HexValue(e[2]), HexValue(e[3]), HexValue(e[4]))
      case (Some(h3), Some(h2), Some(h1), Some(h0)) =>
        var n := h3 * 4096 + h2 * 256 + h1 * 16 + h0;
        if 0xD800 <= n < 0xE000 then None else Some((n as char, e[5..]))
      case _ => None
    else None
  }

  /**
   * Reads a string literal whose opening quote is already consumed: the
   * text it denotes and what follows the closing quote. A raw control
   * character, an unknown escape or a missing closing quote is an error.
   */
  function ReadString(s: string): (r: Option<(string, string)>)
    ensures r.Some? ==> |r.value.1| < |s|
    decreases |s|
  {
    if s == [] then None
    else if s[0] == '"' then Some(([], s[1..]))
    else if s[0] == '\\' then
      match Unescape(s[1..])
      case None => None
      case Some((c, rest)) =>
        match ReadString(rest)
        case None => None
        case Some((t, after)) => Some(([c] + t, after))
    else if s[0] as int < 0x20 then None
    else
      match ReadString(s[1..])
      case None => None
      case Some((t, after)) => Some(([s[0]] + t, after))
  }

  /** Reading one escaped character takes back exactly that character. */
  lemma ReadEscapedChar(c: char, tail: string)
    ensures ReadString(EscapeChar(c) + tail) ==
      match ReadString(tail)
      case None => None
      case Some((t, after)) => Some(([c] + t, after))
  {
    var e := EscapeChar(c);
    var s := e + tail;
    if e[0] == '\\' {
      assert s[1..] == e[1..] + tail;
      if c as int < 0x20 && c != '\n' && c != '\r' && c != '\t' && c as int != 0x08 && c as int != 0x0C {
        var n := c as int;
        HexDigitRoundTrip(n / 16);
        HexDigitRoundTrip(n % 16);
        assert s[1..][5..] == tail;
        assert Unescape(s[1..]) == Some((c, tail));
      } else {
        assert s[1..][1..] == tail;
      }
    } else {
      assert s[1..] == tail;
    }
  }

  /** Reading a literal written by `Quote` gives back its string and what follows. */
  lemma {:induction false} ReadQuoted(s: string, tail: string)
    ensures ReadString(Escaped(s) + ['"'] + tail) == Some((s, tail))
  {
    if s == [] {
      assert (Escaped(s) + ['"'] + tail)[1..] == tail;
    } else {
      ReadQuoted(s[1..], tail);
      assert Escaped(s) + ['"'] + tail == EscapeChar(s[0]) + (Escaped(s[1..]) + ['"'] + tail);
      ReadEscapedChar(s[0], Escaped(s[1..]) + ['"'] + tail);
      assert [s[0]] + s[1..] == s;
    }
  }

  /* ---------------- the payload object ---------------- */

  const UserIdKey: string := "{\"userId\":"
  const TypeKey: string := ",\"type\":"

  datatype Claims = Claims(userId: string, kind: string)

  /** `JSON.stringify({ userId, type })`: the keys in that order, no spaces. */
  function Payload(c: Claims): (r: string)
    ensures |r| >= 2 && r[0] == '{' && r[|r| - 1] == '}'
  {
    UserIdKey + Quote(c.userId) + TypeKey + Quote(c.kind) + "}"
  }

  predicate StartsWith(s: string, prefix: string) {
    |s| >= |prefix| && s[..|prefix|] == prefix
  }

  /** Reads the two-key object back. */
  function ReadPayload(s: string): (r: Option<Claims>)
  {
    var open := UserIdKey + ['"'];
    if !StartsWith(s, open) then None
    else
      match ReadString(s[|open|..])
      case None => None
      case Some((u, rest)) =>
        match ReadKind(rest)
        case None => None
        case Some(k) => Some(Claims(u, k))
  }

  /** Reads the rest of the object after the user id: the type and the closing brace. */
  function ReadKind(rest: string): (r: Option<string>)
  {
    var open := TypeKey + ['"'];
    if !StartsWith(rest, open) then None
    else
      match ReadString(rest[|open|..])
      case None => None
      case Some((k, after)) => if after == "}" then Some(k) else None
  }

  /** A sequence splits back into the two parts it was joined from. */
  lemma SplitJoined(a: string, b: string)
    ensures StartsWith(a + b, a) && (a + b)[|a|..] == b
  {
    assert (a + b)[..|a|] == a;
  }

  lemma ReadKindOf(kind: string)
    ensures ReadKind(TypeKey + Quote(kind) + "}") == Some(kind)
  {
    var open := TypeKey + ['"'];
    var body := Escaped(kind) + ['"'] + "}";
    assert TypeKey + Quote(kind) + "}" == open + body;
    SplitJoined(open, body);
    ReadQuoted(kind, "}");
  }

  lemma PayloadRoundTrip(c: Claims)
    ensures ReadPayload(Payload(c)) == Some(c)
  {
    var open := UserIdKey + ['"'];
    var tail := TypeKey + Quote(c.kind) + "}";
    var body := Escaped(c.userId) + ['"'] + tail;
    assert Payload(c) == open + body;
    ReadQuoted(c.userId, tail);
    ReadKindOf(c.kind);
    ReadPayloadOf(body, c);
  }

  /** The payload reader on the opening key followed by a user id string and the rest of the object. */
  lemma ReadPayloadOf(body: string, c: Claims)
    requires ReadString(body).Some? && ReadString(body).value.0 == c.userId
    requires ReadKind(ReadString(body).value.1) == Some(c.kind)
    ensures ReadPayload(UserIdKey + ['"'] + body) == Some(c)
  {
    SplitJoined(UserIdKey + ['"'], body);
  }

  /* ---------------- UTF-8 ---------------- */

  /** A code point that `n as char` accepts: not a surrogate, at most U+10FFFF. */
  predicate IsScalar(n: int) {
    0 <= n < 0xD800 || 0xE000 <= n < 0x11_0000
  }

  predicate IsContinuation(b: byte) { 0x80 <= b < 0xC0 }

  /** The UTF-8 bytes of one character: one byte up to U+007F, two up to U+07FF, three up to U+FFFF, four above. */
  function EncodeChar(c: char): (r: seq<byte>)
    ensures 1 <= |r| <= 4
    ensures |r| == 1 <==> c as int < 0x80
  {
    var n := c as int;
    if n < 0x80 then [n]
    else if n < 0x800 then [0xC0 + n / 64, 0x80 + n % 64]
    else if n < 0x1_0000 then [0xE0 + n / 4096, 0x80 + n / 64 % 64, 0x80 + n % 64]
    else [0xF0 + n / 262144, 0x80 + n / 4096 % 64, 0x80 + n / 64 % 64, 0x80 + n % 64]
  }

  /** `Buffer.from(s)`: the UTF-8 encoding of a string. */
  function Utf8Encode(s: string): (r: seq<byte>)
    ensures |r| >= |s|
  {
    if s == [] then [] else EncodeChar(s[0]) + Utf8Encode(s[1..])
  }

  /**
   * Reads one character from the front of `b`: the character and the
   * number of bytes it took. Overlong forms, surrogates, values above
   * U+10FFFF and truncated sequences are errors.
   */
  function DecodeChar(b: seq<byte>): (r: Option<(char, nat)>)
    ensures r.Some? ==> 1 <= r.value.1 <= |b|
  {
    if b == [] then None
    else
      var b0 := b[0] as int;
      if b0 < 0x80 then Some((b0 as char, 1))
      else if 0xC0 <= b0 < 0xE0 && |b| >= 2 && IsContinuation(b[1]) then
        var n := (b0 - 0xC0) * 64 + (b[1] as int - 0x80);
        if 0x80 <= n then Some((n as char, 2)) else None
      else if 0xE0 <= b0 < 0xF0 && |b| >= 3 && IsContinuation(b[1]) && IsContinuation(b[2]) then
        var n := (b0 - 0xE0) * 4096 + (b[1] as int - 0x80) * 64 + (b[2] as int - 0x80);
        if 0x800 <= n && IsScalar(n) then Some((n as char, 3)) else None
      else if 0xF0 <= b0 < 0xF8 && |b| >= 4 && IsContinuation(b[1]) && IsContinuation(b[2]) && IsContinuation(b[3]) then
        var n := (b0 - 0xF0) * 262144 + (b[1] as int - 0x80) * 4096 + (b[2] as int - 0x80) * 64 + (b[3] as int - 0x80);
        if 0x1_0000 <= n && IsScalar(n) then Some((n as char, 4)) else None
      else None
  }

  /** Strict UTF-8 decoding of a whole byte sequence. */
  function Utf8Decode(b: seq<byte>): (r: Option<string>)
    decreases |b|
  {
    if b == [] then Some([])
    else
      match DecodeChar(b)
      case None => None
      case Some((c, k)) =>
        match Utf8Decode(b[k..])
        case None => None
        case Some(s) => Some([c] + s)
  }

  /** Splitting a number into a quotient and a remainder and putting it back together. */
  lemma DivMod(n: nat, m: nat)
    requires m > 0
    ensures n / m * m + n % m == n && n % m < m
  {
  }

  lemma DecodeEncodedChar(c: char, tail: seq<byte>)
    ensures DecodeChar(EncodeChar(c) + tail) == Some((c, |EncodeChar(c)|))
  {
    var n := c as int;
    var e := EncodeChar(c);
    var b := e + tail;
    if n < 0x80 {
    } else if n < 0x800 {
      DivMod(n, 64);
      assert b[0] as int - 0xC0 == n / 64 && b[1] as int - 0x80 == n % 64;
    } else if n < 0x1_0000 {
      DecodeThreeBytes(n);
      assert b[0] as int - 0xE0 == n / 4096 && b[1] as int - 0x80 == n / 64 % 64 && b[2] as int - 0x80 == n % 64;
    } else {
      DecodeFourBytes(n);
      assert b[0] as int - 0xF0 == n / 262144 && b[1] as int - 0x80 == n / 4096 % 64;
      assert b[2] as int - 0x80 == n / 64 % 64 && b[3] as int - 0x80 == n % 64;
    }
  }

  lemma DecodeThreeBytes(n: nat)
    ensures n / 4096 * 4096 + n / 64 % 64 * 64 + n % 64 == n
  {
    DivMod(n, 64);
    DivMod(n / 64, 64);
    assert n / 64 / 64 == n / 4096;
  }

  lemma DecodeFourBytes(n: nat)
    ensures n / 262144 * 262144 + n / 4096 % 64 * 4096 + n / 64 % 64 * 64 + n % 64 == n
  {
    DecodeThreeBytes(n);
    DivMod(n / 4096, 64);
    assert n / 4096 / 64 == n / 262144;
  }

  /** Decoding the UTF-8 encoding of a string gives the string back. */
  lemma {:induction false} Utf8RoundTrip(s: string)
    ensures Utf8Decode(Utf8Encode(s)) == Some(s)
  {
    if s != [] {
      var e := EncodeChar(s[0]);
      var rest := Utf8Encode(s[1..]);
      DecodeEncodedChar(s[0], rest);
      assert (e + rest)[|e|..] == rest;
      Utf8RoundTrip(s[1..]);
      assert [s[0]] + s[1..] == s;
    }
  }

  /* ---------------- Base64 ---------------- */

  /** The standard Base64 alphabet: A-Z, a-z, 0-9, '+', '/'. */
  function Base64Digit(d: nat): (c: char)
    requires d < 64
    ensures c != '='
  {
    if d < 26 then ('A' as int + d) as char
    else if d < 52 then ('a' as int + d - 26) as char
    else if d < 62 then ('0' as int + d - 52) as char
    else if d == 62 then '+'
    else '/'
  }

  function Base64Value(c: char): (r: Option<nat>)
    ensures r.Some? ==> r.value < 64
    ensures c == '=' ==> r.None?
  {
    if 'A' <= c <= 'Z' then Some(c as int - 'A' as int)
    else if 'a' <= c <= 'z' then Some(c as int - 'a' as int + 26)
    else if '0' <= c <= '9' then Some(c as int - '0' as int + 52)
    else if c == '+' then Some(62)
    else if c == '/' then Some(63)
    else None
  }

  lemma Base64DigitRoundTrip(d: nat)
    requires d < 64
    ensures Base64Value(Base64Digit(d)) == Some(d)
  {
  }

  /**
   * `toString('base64')`: every three bytes become four digits of six
   * bits each; a final one or two bytes become two or three digits padded
   * with '=' to four.
   */
  function Base64Encode(b: seq<byte>): (r: string)
    ensures |r| % 4 == 0 && (|b| > 0 ==> |r| >= 4)
    decreases |b|
  {
    if |b| >= 3 then
      [Base64Digit(b[0] / 4), Base64Digit(b[0] % 4 * 16 + b[1] / 16),
       Base64Digit(b[1] % 16 * 4 + b[2] / 64), Base64Digit(b[2] % 64)] + Base64Encode(b[3..])
    else if |b| == 2 then
      [Base64Digit(b[0] / 4), Base64Digit(b[0] % 4 * 16 + b[1] / 16), Base64Digit(b[1] % 16 * 4), '=']
    else if |b| == 1 then
      [Base64Digit(b[0] / 4), Base64Digit(b[0] % 4 * 16), '=', '=']
    else []
  }

  /**
   * Strict Base64 decoding: groups of four digits, padding only in the
   * last group, and the unused low bits of a padded group must be zero.
   */
  function Base64Decode(s: string): (r: Option<seq<byte>>)
    decreases |s|
  {
    if s == [] then Some([])
    else if |s| < 4 then None
    else if |s| == 4 && s[2] == '=' && s[3] == '=' then
      match (Base64Value(s[0]), Base64Value(s[1]))
      case (Some(d0), Some(d1)) =>
        if d1 % 16 == 0 then Some([d0 * 4 + d1 / 16]) else None
      case _ => None
    else if |s| == 4 && s[3] == '=' then
      match (Base64Value(s[0]), Base64Value(s[1]), Base64Value(s[2]))
      case (Some(d0), Some(d1), Some(d2)) =>
        if d2 % 4 == 0 then Some([d0 * 4 + d1 / 16, d1 % 16 * 16 + d2 / 4]) else None
      case _ => None
    else
      match DecodeGroup(s[0], s[1], s[2], s[3])
      case None => None
      case Some(g) =>
        match Base64Decode(s[4..])
        case None => None
        case Some(rest) => Some(g + rest)
  }

  /** Four digits without padding: the three bytes they carry. */
  function DecodeGroup(c0: char, c1: char, c2: char, c3: char): (r: Option<seq<byte>>)
    ensures r.Some? ==> |r.value| == 3
  {
    match (Base64Value(c0), Base64Value(c1), Base64Value(c2), Base64Value(c3))
    case (Some(d0), Some(d1), Some(d2), Some(d3)) =>
      Some([d0 * 4 + d1 / 16, d1 % 16 * 16 + d2 / 4, d2 % 4 * 64 + d3])
    case _ => None
  }

  /** The digit holding the low two bits of `x` and the high four bits of `y` gives both back. */
  lemma SixBitsSplit(x: byte, y: byte)
    ensures (x % 4 * 16 + y / 16) / 16 == x % 4 && (x % 4 * 16 + y / 16) % 16 == y / 16
    ensures x / 4 * 4 + x % 4 == x && y / 16 * 16 + y % 16 == y
  {
  }

  /** The last group of a sequence of one byte. */
  lemma Base64OneByte(x: byte)
    ensures Base64Decode(Base64Encode([x])) == Some([x])
  {
    Base64DigitRoundTrip(x / 4);
    Base64DigitRoundTrip(x % 4 * 16);
    assert x % 4 * 16 / 16 == x % 4 && x / 4 * 4 + x % 4 == x;
  }

  /** The last group of a sequence of two bytes. */
  lemma Base64TwoBytes(x: byte, y: byte)
    ensures Base64Decode(Base64Encode([x, y])) == Some([x, y])
  {
    var s := Base64Encode([x, y]);
    SixBitsSplit(x, y);
    Base64DigitRoundTrip(x / 4);
    Base64DigitRoundTrip(x % 4 * 16 + y / 16);
    Base64DigitRoundTrip(y % 16 * 4);
    assert s[2] != '=' && s[3] == '=';
    assert y % 16 * 4 / 4 == y % 16;
  }

  /** The four six-bit digits of three bytes give the three bytes back. */
  lemma GroupBits(x: byte, y: byte, z: byte)
    ensures x / 4 * 4 + (x % 4 * 16 + y / 16) / 16 == x
    ensures (x % 4 * 16 + y / 16) % 16 * 16 + (y % 16 * 4 + z / 64) / 4 == y
    ensures (y % 16 * 4 + z / 64) % 4 * 64 + z % 64 == z
  {
    SixBitsSplit(x, y);
    assert (y % 16 * 4 + z / 64) / 4 == y % 16 && (y % 16 * 4 + z / 64) % 4 == z / 64;
  }

  /** The four digits of three bytes decode to those bytes. */
  lemma DecodeEncodedGroup(x: byte, y: byte, z: byte)
    ensures DecodeGroup(Base64Digit(x / 4), Base64Digit(x % 4 * 16 + y / 16),
                        Base64Digit(y % 16 * 4 + z / 64), Base64Digit(z % 64)) == Some([x, y, z])
  {
    Base64DigitRoundTrip(x / 4);
    Base64DigitRoundTrip(x % 4 * 16 + y / 16);
    Base64DigitRoundTrip(y % 16 * 4 + z / 64);
    Base64DigitRoundTrip(z % 64);
    GroupBits(x, y, z);
  }

  /** A full group of three bytes, followed by the rest of the text. */
  lemma Base64Group(x: byte, y: byte, z: byte, rest: seq<byte>)
    requires Base64Decode(Base64Encode(rest)) == Some(rest)
    ensures Base64Decode(Base64Encode([x, y, z] + rest)) == Some([x, y, z] + rest)
  {
    var b := [x, y, z] + rest;
    assert b[3..] == rest;
    var g := [Base64Digit(x / 4), Base64Digit(x % 4 * 16 + y / 16), Base64Digit(y % 16 * 4 + z / 64), Base64Digit(z % 64)];
    var s := g + Base64Encode(rest);
    assert Base64Encode(b) == s;
    DecodeEncodedGroup(x, y, z);
    assert s[..4] == g && s[4..] == Base64Encode(rest);
  }

  /** Decoding the Base64 text of a byte sequence gives the bytes back. */
  lemma {:induction false} Base64RoundTrip(b: seq<byte>)
    ensures Base64Decode(Base64Encode(b)) == Some(b)
    decreases |b|
  {
    if |b| >= 3 {
      Base64RoundTrip(b[3..]);
      Base64Group(b[0], b[1], b[2], b[3..]);
      assert [b[0], b[1], b[2]] + b[3..] == b;
    } else if |b| == 2 {
      Base64TwoBytes(b[0], b[1]);
      assert [b[0], b[1]] == b;
    } else if |b| == 1 {
      Base64OneByte(b[0]);
      assert [b[0]] == b;
    }
  }

  /* ---------------- the tokens ---------------- */

  const AccessKind: string := "access"
  const RefreshKind: string := "refresh"

  /** `Buffer.from(JSON.stringify(claims)).toString("base64")`. */
  function Token(c: Claims): (t: string)
    ensures |t| % 4 == 0 && |t| >= 4
  {
    Base64Encode(Utf8Encode(Payload(c)))
  }

  datatype TokenPair = TokenPair(accessToken: string, refreshToken: string)

  /** `generateTokens(userId)`: an access token and a refresh token naming the user. */
  function GenerateTokens(userId: string): (r: TokenPair)
    ensures ReadToken(r.accessToken) == Some(Claims(userId, AccessKind))
    ensures ReadToken(r.refreshToken) == Some(Claims(userId, RefreshKind))
    ensures r.accessToken != r.refreshToken
  {
    TokenRoundTrip(Claims(userId, AccessKind));
    TokenRoundTrip(Claims(userId, RefreshKind));
    TokenPair(Token(Claims(userId, AccessKind)), Token(Claims(userId, RefreshKind)))
  }

  /** Reads a token back: Base64, then UTF-8, then the two-key object. */
  function ReadToken(t: string): (r: Option<Claims>)
  {
    match Base64Decode(t)
    case None => None
    case Some(bytes) =>
      match Utf8Decode(bytes)
      case None => None
      case Some(text) => ReadPayload(text)
  }

  /** Reading a token gives back the claims it was made from. */
  lemma TokenRoundTrip(c: Claims)
    ensures ReadToken(Token(c)) == Some(c)
  {
    Base64RoundTrip(Utf8Encode(Payload(c)));
    Utf8RoundTrip(Payload(c));
    PayloadRoundTrip(c);
  }

  /** Different users never get the same token. */
  lemma TokensIdentifyTheUser(u1: string, u2: string)
    requires GenerateTokens(u1).accessToken == GenerateTokens(u2).accessToken ||
             GenerateTokens(u1).refreshToken == GenerateTokens(u2).refreshToken
    ensures u1 == u2
  {
  }
}
