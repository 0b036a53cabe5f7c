/**
 * `encodeURIComponent`, as the ECMAScript specification defines it: every code point outside
 * ALPHA, DIGIT and `- _ . ! ~ * ' ( )` is written as the `%XY` escapes (upper-case hex) of
 * its UTF-8 bytes. `decodeURIComponent` is modelled beside it as the inverse that an HTTP
 * server applies to the path segment; it is the partner the encoder is proved against.
 */
module UriComponent {
  import opened Wrappers

  /** The code points `encodeURIComponent` copies unescaped. */
  predicate Unreserved(c: char)
  {
    || ('A' <= c <= 'Z') || ('a' <= c <= 'z') || ('0' <= c <= '9')
    || c == '-' || c == '_' || c == '.' || c == '!' || c == '~' || c == '*' || c == '\'' || c == '(' || c == ')'
  }

  predicate IsByte(b: int)
  {
    0 <= b < 256
  }

  /** The UTF-8 encoding of one Unicode scalar value (section 3 of RFC 3629). */
  function Utf8(c: char): (bs: seq<int>)
    ensures 1 <= |bs| <= 4
    ensures forall k :: 0 <= k < |bs| ==> IsByte(bs[k])
  {
    var cp := c as int;
    if cp < 0x80 then [cp]
    else if cp < 0x800 then [0xC0 + cp / 64, 0x80 + cp % 64]
    else if cp < 0x10000 then [0xE0 + cp / 4096, 0x80 + (cp / 64) % 64, 0x80 + cp % 64]
    else [0xF0 + cp / 262144, 0x80 + (cp / 4096) % 64, 0x80 + (cp / 64) % 64, 0x80 + cp % 64]
  }

  /** The upper-case hexadecimal digit for a nibble. */
  function HexDigit(d: int): (c: char)
    requires 0 <= d < 16
  {
    if d < 10 then ('0' as int + d) as char else ('A' as int + d - 10) as char
  }

  predicate IsHexDigit(c: char)
  {
    ('0' <= c <= '9') || ('A' <= c <= 'F') || ('a' <= c <= 'f')
  }

  /** The value of a hexadecimal digit of either case. */
  function HexValue(c: char): (d: int)
    requires IsHexDigit(c)
    ensures 0 <= d < 16
  {
    if '0' <= c <= '9' then c as int - '0' as int
    else if 'A' <= c <= 'F' then c as int - 'A' as int + 10
    else c as int - 'a' as int + 10
  }

  /** The `%XY` escape of one byte. */
  function PercentByte(b: int): (r: string)
    requires IsByte(b)
    ensures |r| == 3 && r[0] == '%' && Unreserved(r[1]) && Unreserved(r[2])
    ensures IsHexDigit(r[1]) && IsHexDigit(r[2]) && 16 * HexValue(r[1]) + HexValue(r[2]) == b
  {
    ['%', HexDigit(b / 16), HexDigit(b % 16)]
  }

  /** The escapes of a byte sequence, one after the other. */
  function PercentBytes(bs: seq<int>): (r: string)
    requires forall k :: 0 <= k < |bs| ==> IsByte(bs[k])
    ensures |r| == 3 * |bs|
    ensures forall k :: 0 <= k < |r| ==> Unreserved(r[k]) || r[k] == '%'
  {
    if bs == [] then [] else PercentByte(bs[0]) + PercentBytes(bs[1..])
  }

  /** How one code point appears in the output. */
  function EncodeChar(c: char): (r: string)
    ensures 1 <= |r| && (forall k :: 0 <= k < |r| ==> Unreserved(r[k]) || r[k] == '%')
  {
    if Unreserved(c) then [c] else PercentBytes(Utf8(c))
  }

  /**
   * `encodeURIComponent(s)`. The output consists of unreserved characters and `%` only, so it
   * holds none of the delimiters `/ ? # & =` or a space that could end or split a path segment.
   */
  function EncodeUriComponent(s: string): (r: string)
    ensures |s| <= |r|
    ensures forall k :: 0 <= k < |r| ==> Unreserved(r[k]) || r[k] == '%'
  {
    if s == [] then [] else EncodeChar(s[0]) + EncodeUriComponent(s[1..])
  }

  // ---------------------------------------------------------------------------------------
  // The inverse, decodeURIComponent.
  // ---------------------------------------------------------------------------------------

  /** A piece of percent-encoded text: a literal character or an escaped byte. */
  datatype Token = Lit(c: char) | Byte(b: int)

  function Prepend<T>(prefix: seq<T>, rest: Option<seq<T>>): Option<seq<T>>
  {
    match rest
    case None => None
    case Some(r) => Some(prefix + r)
  }

  /** Splits text into literals and `%XY` bytes; a `%` that does not start an escape is an error. */
  function Unescape(s: string): (r: Option<seq<Token>>)
    decreases |s|
  {
    if s == [] then Some([])
    else if s[0] != '%' then Prepend([Lit(s[0])], Unescape(s[1..]))
    else if 3 <= |s| && IsHexDigit(s[1]) && IsHexDigit(s[2]) then
      Prepend([Byte(16 * HexValue(s[1]) + HexValue(s[2]))], Unescape(s[3..]))
    else None
  }

  predicate IsContinuation(t: Token)
  {
    t.Byte? && 0x80 <= t.b < 0xC0
  }

  function Payload(t: Token): (p: int)
    requires IsContinuation(t)
    ensures 0 <= p < 64
  {
    t.b - 0x80
  }

  /**
   * Joins escaped bytes back into code points: a lead byte must be followed by exactly the
   * continuation bytes it announces, and overlong forms, surrogates and values above U+10FFFF
   * are rejected, as `decodeURIComponent` rejects them with a URIError.
   */
  function Assemble(ts: seq<Token>): (r: Option<string>)
    decreases |ts|
  {
    if ts == [] then Some([])
    else match ts[0]
      case Lit(c) => Prepend([c], Assemble(ts[1..]))
      case Byte(b) =>
        if 0 <= b < 0x80 then Prepend([b as char], Assemble(ts[1..]))
        else if 0xC0 <= b < 0xE0 && 2 <= |ts| && IsContinuation(ts[1]) then
          var cp := (b - 0xC0) * 64 + Payload(ts[1]);
          if 0x80 <= cp then Prepend([cp as char], Assemble(ts[2..])) else None
        else if 0xE0 <= b < 0xF0 && 3 <= |ts| && IsContinuation(ts[1]) && IsContinuation(ts[2]) then
          var cp := (b - 0xE0) * 4096 + Payload(ts[1]) * 64 + Payload(ts[2]);
          if 0x800 <= cp && !(0xD800 <= cp < 0xE000) then Prepend([cp as char], Assemble(ts[3..])) else None
        else if 0xF0 <= b < 0xF8 && 4 <= |ts| && IsContinuation(ts[1]) && IsContinuation(ts[2]) && IsContinuation(ts[3]) then
          var cp := (b - 0xF0) * 262144 + Payload(ts[1]) * 4096 + Payload(ts[2]) * 64 + Payload(ts[3]);
          if 0x10000 <= cp < 0x110000 then Prepend([cp as char], Assemble(ts[4..])) else None
        else None
  }

  /** `decodeURIComponent(s)`; None stands for the URIError it throws. */
  function DecodeUriComponent(s: string): Option<string>
  {
    match Unescape(s)
    case None => None
    case Some(ts) => Assemble(ts)
  }

  // ---------------------------------------------------------------------------------------
  // Decoding undoes encoding.
  // ---------------------------------------------------------------------------------------

  function ByteTokens(bs: seq<int>): seq<Token>
  {
    seq(|bs|, k requires 0 <= k < |bs| => Byte(bs[k]))
  }

  /** The tokens a code point's encoding splits into. */
  function CharTokens(c: char): seq<Token>
  {
    if Unreserved(c) then [Lit(c)] else ByteTokens(Utf8(c))
  }

  function TokensOf(s: string): seq<Token>
  {
    if s == [] then [] else CharTokens(s[0]) + TokensOf(s[1..])
  }

  lemma PrependAssoc<T>(a: seq<T>, b: seq<T>, o: Option<seq<T>>)
    ensures Prepend(a, Prepend(b, o)) == Prepend(a + b, o)
  {
    if o.Some? {
      assert a + (b + o.value) == (a + b) + o.value;
    }
  }

  /** One `%XY` escape unescapes to its byte, whatever follows it. */
  lemma UnescapePercentByte(b: int, t: string)
    requires IsByte(b)
    ensures Unescape(PercentByte(b) + t) == Prepend([Byte(b)], Unescape(t))
  {
    var s := PercentByte(b) + t;
    assert s[0] == '%' && s[1] == PercentByte(b)[1] && s[2] == PercentByte(b)[2];
    assert s[3..] == t;
  }

  lemma {:induction false} UnescapePercentBytes(bs: seq<int>, t: string)
    requires forall k :: 0 <= k < |bs| ==> IsByte(bs[k])
    ensures Unescape(PercentBytes(bs) + t) == Prepend(ByteTokens(bs), Unescape(t))
  {
    if bs == [] {
      assert PercentBytes(bs) + t == t;
      assert ByteTokens(bs) == [];
      match Unescape(t) {
        case None =>
        case Some(r) => assert [] + r == r;
      }
    } else {
      var tail := PercentBytes(bs[1..]) + t;
      assert PercentBytes(bs) + t == PercentByte(bs[0]) + tail;
      UnescapePercentByte(bs[0], tail);
      UnescapePercentBytes(bs[1..], t);
      assert ByteTokens(bs) == [Byte(bs[0])] + ByteTokens(bs[1..]);
      PrependAssoc([Byte(bs[0])], ByteTokens(bs[1..]), Unescape(t));
    }
  }

  lemma UnescapeEncodeChar(c: char, t: string)
    ensures Unescape(EncodeChar(c) + t) == Prepend(CharTokens(c), Unescape(t))
  {
    if Unreserved(c) {
      assert ([c] + t)[1..] == t;
    } else {
      UnescapePercentBytes(Utf8(c), t);
    }
  }

  lemma {:induction false} UnescapeEncoded(s: string)
    ensures Unescape(EncodeUriComponent(s)) == Some(TokensOf(s))
  {
    if s != [] {
      UnescapeEncodeChar(s[0], EncodeUriComponent(s[1..]));
      UnescapeEncoded(s[1..]);
    }
  }

  /** The bytes of one code point reassemble into that code point, whatever follows them. */
  lemma AssembleCharTokens(c: char, rest: seq<Token>)
    ensures Assemble(CharTokens(c) + rest) == Prepend([c], Assemble(rest))
  {
    var cp := c as int;
    if Unreserved(c) {
      assert (CharTokens(c) + rest)[1..] == rest;
    } else if cp < 0x80 {
      AssembleOneByte(c, rest);
    } else if cp < 0x800 {
      AssembleTwoBytes(c, rest);
    } else if cp < 0x10000 {
      AssembleThreeBytes(c, rest);
    } else {
      AssembleFourBytes(c, rest);
    }
  }

  lemma AssembleOneByte(c: char, rest: seq<Token>)
    requires c as int < 0x80
    ensures Assemble(ByteTokens(Utf8(c)) + rest) == Prepend([c], Assemble(rest))
  {
    var ts := ByteTokens(Utf8(c)) + rest;
    assert ts[0] == Byte(c as int) && ts[1..] == rest;
  }

  lemma AssembleTwoBytes(c: char, rest: seq<Token>)
    requires 0x80 <= c as int < 0x800
    ensures Assemble(ByteTokens(Utf8(c)) + rest) == Prepend([c], Assemble(rest))
  {
    var cp := c as int;
    var ts := ByteTokens(Utf8(c)) + rest;
    assert ts[0] == Byte(0xC0 + cp / 64) && ts[1] == Byte(0x80 + cp % 64) && ts[2..] == rest;
    assert (cp / 64) * 64 + cp % 64 == cp;
  }

  lemma AssembleThreeBytes(c: char, rest: seq<Token>)
    requires 0x800 <= c as int < 0x10000
    ensures Assemble(ByteTokens(Utf8(c)) + rest) == Prepend([c], Assemble(rest))
  {
    var cp := c as int;
    var ts := ByteTokens(Utf8(c)) + rest;
    assert ts[0] == Byte(0xE0 + cp / 4096) && ts[1] == Byte(0x80 + (cp / 64) % 64);
    assert ts[2] == Byte(0x80 + cp % 64) && ts[3..] == rest;
    assert cp / 64 == (cp / 4096) * 64 + (cp / 64) % 64;
    assert (cp / 4096) * 4096 + ((cp / 64) % 64) * 64 + cp % 64 == cp;
  }

  lemma AssembleFourBytes(c: char, rest: seq<Token>)
    requires 0x10000 <= c as int
    ensures Assemble(ByteTokens(Utf8(c)) + rest) == Prepend([c], Assemble(rest))
  {
    var cp := c as int;
    var ts := ByteTokens(Utf8(c)) + rest;
    assert ts[0] == Byte(0xF0 + cp / 262144) && ts[1] == Byte(0x80 + (cp / 4096) % 64);
    assert ts[2] == Byte(0x80 + (cp / 64) % 64) && ts[3] == Byte(0x80 + cp % 64) && ts[4..] == rest;
    assert cp / 4096 == (cp / 262144) * 64 + (cp / 4096) % 64;
    assert cp / 64 == (cp / 4096) * 64 + (cp / 64) % 64;
    assert (cp / 262144) * 262144 + ((cp / 4096) % 64) * 4096 + ((cp / 64) % 64) * 64 + cp % 64 == cp;
  }

  lemma {:induction false} AssembleTokensOf(s: string)
    ensures Assemble(TokensOf(s)) == Some(s)
  {
    if s != [] {
      AssembleCharTokens(s[0], TokensOf(s[1..]));
      AssembleTokensOf(s[1..]);
      assert [s[0]] + s[1..] == s;
    }
  }

  /** Round trip: `decodeURIComponent(encodeURIComponent(s)) == s` for every string. */
  lemma DecodeEncode(s: string)
    ensures DecodeUriComponent(EncodeUriComponent(s)) == Some(s)
  {
    UnescapeEncoded(s);
    AssembleTokensOf(s);
  }

  /** Text made of unreserved characters only is copied unchanged. */
  lemma {:induction false} EncodeUnreservedUnchanged(s: string)
    requires forall k :: 0 <= k < |s| ==> Unreserved(s[k])
    ensures EncodeUriComponent(s) == s
  {
    if s != [] {
      EncodeUnreservedUnchanged(s[1..]);
      assert [s[0]] + s[1..] == s;
    }
  }
}
