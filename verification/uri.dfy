/** `encodeURIComponent` (section 19.2.6.5 of ECMA-262): every character
    outside the unreserved set becomes the percent-escaped bytes of its UTF-8
    encoding. `Decode` is the matching `decodeURIComponent`, written
    independently, and `DecodeEncode` proves that it undoes the encoding. */
module Uri {
  import opened Optional

  /** The characters `encodeURIComponent` leaves as they are. */
  predicate IsUnreserved(c: char) {
    ('A' <= c <= 'Z') || ('a' <= c <= 'z') || ('0' <= c <= '9') ||
    c == '-' || c == '_' || c == '.' || c == '!' || c == '~' || c == '*' || c == '\'' || c == '(' || c == ')'
  }

  /** An upper-case hexadecimal digit. */
  function HexDigit(d: nat): (c: char)
    requires d < 16
    ensures IsUnreserved(c)
  {
    if d < 10 then (48 + d) as char else (55 + d) as char
  }

  /** The value of a hexadecimal digit of either case. */
  function HexValue(c: char): (d: Option<nat>)
    ensures d.Some? ==> d.value < 16
  {
    if '0' <= c <= '9' then Some(c as int - 48)
    else if 'A' <= c <= 'F' then Some(c as int - 55)
    else if 'a' <= c <= 'f' then Some(c as int - 87)
    else None
  }

  lemma HexRoundTrip(d: nat)
    requires d < 16
    ensures HexValue(HexDigit(d)) == Some(d)
  {
  }

  predicate IsByte(b: nat) {
    b < 256
  }

  /** The UTF-8 encoding of one character. */
  function Utf8(c: char): (bytes: seq<nat>)
    ensures 1 <= |bytes| <= 4
    ensures forall k :: 0 <= k < |bytes| ==> IsByte(bytes[k])
  {
    var cp := c as int;
    if cp < 0x80 then [cp]
    else if cp < 0x800 then [0xC0 + cp / 64, 0x80 + cp % 64]
    else if cp < 0x10000 then [0xE0 + cp / 4096, 0x80 + (cp / 64) % 64, 0x80 + cp % 64]
    else [0xF0 + cp / 262144, 0x80 + (cp / 4096) % 64, 0x80 + (cp / 64) % 64, 0x80 + cp % 64]
  }

  /** Bytes written as `%XY` each. */
  function PercentBytes(bytes: seq<nat>): (s: string)
    requires forall k :: 0 <= k < |bytes| ==> IsByte(bytes[k])
    ensures |s| == 3 * |bytes|
    ensures forall k :: 0 <= k < |s| ==> IsUnreserved(s[k]) || s[k] == '%'
  {
    if bytes == [] then ""
    else
      assert IsByte(bytes[0]);
      ['%', HexDigit(bytes[0] / 16), HexDigit(bytes[0] % 16)] + PercentBytes(bytes[1..])
  }

  function EncodeChar(c: char): (s: string)
    ensures forall k :: 0 <= k < |s| ==> IsUnreserved(s[k]) || s[k] == '%'
  {
    if IsUnreserved(c) then [c] else PercentBytes(Utf8(c))
  }

  /** `encodeURIComponent(s)`. Every character of the result is unreserved
      or '%', so it never holds a separator such as '&', '=' or '?'. */
  function Encode(s: string): (e: string)
    ensures forall k :: 0 <= k < |e| ==> IsUnreserved(e[k]) || e[k] == '%'
  {
    if s == [] then "" else EncodeChar(s[0]) + Encode(s[1..])
  }

  /** A string of unreserved characters is its own encoding. */
  lemma {:induction false} EncodeUnreserved(s: string)
    requires forall k :: 0 <= k < |s| ==> IsUnreserved(s[k])
    ensures Encode(s) == s
  {
    if s != [] {
      EncodeUnreserved(s[1..]);
    }
  }

  // ---- decoding ------------------------------------------------------------

  /** The byte written as `%XY` at position 3k of t, if there is one. */
  function ByteAt(t: string, k: nat): (b: Option<nat>)
    ensures b.Some? ==> IsByte(b.value)
  {
    if 3 * k + 3 <= |t| && t[3 * k] == '%' && HexValue(t[3 * k + 1]).Some? && HexValue(t[3 * k + 2]).Some?
    then Some(16 * HexValue(t[3 * k + 1]).value + HexValue(t[3 * k + 2]).value)
    else None
  }

  predicate IsContinuation(b: Option<nat>) {
    b.Some? && 0x80 <= b.value < 0xC0
  }

  /** The character a `%`-escape sequence at the start of t stands for and
      the length of that sequence; `None` for a malformed sequence (bad hex,
      a bad lead or continuation byte, an overlong form, a surrogate or a
      code point beyond U+10FFFF), where `decodeURIComponent` throws. */
  function DecodeSequence(t: string): (r: Option<(char, nat)>)
    ensures r.Some? ==> 3 <= r.value.1 <= |t|
  {
    match ByteAt(t, 0)
    case None => None
    case Some(b0) =>
      if b0 < 0x80 then Some((b0 as char, 3))
      else if 0xC2 <= b0 < 0xE0 then
        if IsContinuation(ByteAt(t, 1)) then
          Some((((b0 - 0xC0) * 64 + (ByteAt(t, 1).value - 0x80)) as char, 6))
        else None
      else if 0xE0 <= b0 < 0xF0 then
        if IsContinuation(ByteAt(t, 1)) && IsContinuation(ByteAt(t, 2)) then
          var cp := (b0 - 0xE0) * 4096 + (ByteAt(t, 1).value - 0x80) * 64 + (ByteAt(t, 2).value - 0x80);
          if 0x800 <= cp && !(0xD800 <= cp < 0xE000) then Some((cp as char, 9)) else None
        else None
      else if 0xF0 <= b0 < 0xF5 then
        if IsContinuation(ByteAt(t, 1)) && IsContinuation(ByteAt(t, 2)) && IsContinuation(ByteAt(t, 3)) then
          var cp := (b0 - 0xF0) * 262144 + (ByteAt(t, 1).value - 0x80) * 4096 +
                    (ByteAt(t, 2).value - 0x80) * 64 + (ByteAt(t, 3).value - 0x80);
          if 0x10000 <= cp < 0x110000 then Some((cp as char, 12)) else None
        else None
      else None
  }

  /** `decodeURIComponent(t)`, `None` where it throws a URIError. */
  function Decode(t: string): (s: Option<string>)
    decreases |t|
  {
    if t == [] then Some("")
    else if t[0] != '%' then
      match Decode(t[1..])
      case Some(rest) => Some([t[0]] + rest)
      case None => None
    else
      match DecodeSequence(t)
      case None => None
      case Some((c, n)) =>
        match Decode(t[n..])
        case Some(rest) => Some([c] + rest)
        case None => None
  }

  // ---- the round trip ------------------------------------------------------

  /** `%` and two hexadecimal digits read back as the byte they spell,
      whatever follows them. */
  lemma EscapeReads(hi: nat, lo: nat, tail: string)
    requires hi < 16 && lo < 16
    ensures ByteAt(['%', HexDigit(hi), HexDigit(lo)] + tail, 0) == Some(16 * hi + lo)
  {
    var t := ['%', HexDigit(hi), HexDigit(lo)] + tail;
    assert t[0] == '%' && t[1] == HexDigit(hi) && t[2] == HexDigit(lo);
    HexRoundTrip(hi);
    HexRoundTrip(lo);
  }

  /** A byte is sixteen times its high digit plus its low digit. */
  lemma SplitByte(b: nat) returns (hi: nat, lo: nat)
    requires IsByte(b)
    ensures hi == b / 16 && lo == b % 16
    ensures hi < 16 && lo < 16 && 16 * hi + lo == b
  {
    hi, lo := b / 16, b % 16;
  }

  lemma PercentBytesUnfold(bytes: seq<nat>)
    requires forall j :: 0 <= j < |bytes| ==> IsByte(bytes[j])
    requires |bytes| >= 1
    ensures PercentBytes(bytes) == ['%', HexDigit(bytes[0] / 16), HexDigit(bytes[0] % 16)] + PercentBytes(bytes[1..])
  {
  }

  lemma SeqAssoc(a: string, b: string, c: string)
    ensures (a + b) + c == a + (b + c)
  {
  }

  /** The first escape of a percent-escaped run reads back. */
  lemma PercentBytesHead(bytes: seq<nat>, rest: string)
    requires forall j :: 0 <= j < |bytes| ==> IsByte(bytes[j])
    requires |bytes| >= 1
    ensures ByteAt(PercentBytes(bytes) + rest, 0) == Some(bytes[0])
  {
    var hi, lo := SplitByte(bytes[0]);
    var escape := ['%', HexDigit(hi), HexDigit(lo)];
    var tail := PercentBytes(bytes[1..]);
    PercentBytesUnfold(bytes);
    SeqAssoc(escape, tail, rest);
    EscapeReads(hi, lo, tail + rest);
  }

  /** Three characters in front move every escape one place on. */
  lemma ByteAtShift(front: string, tail: string, k: nat)
    requires |front| == 3 && k >= 1
    ensures ByteAt(front + tail, k) == ByteAt(tail, k - 1)
  {
    var t := front + tail;
    if 3 * k + 3 <= |t| {
      assert t[3 * k] == tail[3 * (k - 1)];
      assert t[3 * k + 1] == tail[3 * (k - 1) + 1];
      assert t[3 * k + 2] == tail[3 * (k - 1) + 2];
    }
  }

  /** Each byte of a percent-escaped run reads back at its own position. */
  lemma {:induction false} PercentBytesRead(bytes: seq<nat>, rest: string, k: nat)
    requires forall j :: 0 <= j < |bytes| ==> IsByte(bytes[j])
    requires k < |bytes|
    ensures ByteAt(PercentBytes(bytes) + rest, k) == Some(bytes[k])
  {
    if k == 0 {
      PercentBytesHead(bytes, rest);
    } else {
      var front := ['%', HexDigit(bytes[0] / 16), HexDigit(bytes[0] % 16)];
      PercentBytesRead(bytes[1..], rest, k - 1);
      PercentBytesUnfold(bytes);
      SeqAssoc(front, PercentBytes(bytes[1..]), rest);
      ByteAtShift(front, PercentBytes(bytes[1..]) + rest, k);
    }
  }

  /** A one-byte character written as an escape reads back. */
  lemma DecodeOneByte(c: char, rest: string)
    requires c as int < 0x80
    ensures DecodeSequence(PercentBytes(Utf8(c)) + rest) == Some((c, 3))
  {
    PercentBytesRead(Utf8(c), rest, 0);
  }

  lemma TwoByteArithmetic(cp: int)
    requires 0x80 <= cp < 0x800
    ensures 0xC2 <= 0xC0 + cp / 64 < 0xE0
    ensures (cp / 64) * 64 + cp % 64 == cp
  {
  }

  lemma ThreeByteArithmetic(cp: int)
    requires 0x800 <= cp < 0x10000
    ensures 0xE0 <= 0xE0 + cp / 4096 < 0xF0
    ensures (cp / 4096) * 4096 + ((cp / 64) % 64) * 64 + cp % 64 == cp
  {
  }

  lemma FourByteArithmetic(cp: int)
    requires 0x10000 <= cp < 0x110000
    ensures 0xF0 <= 0xF0 + cp / 262144 < 0xF5
    ensures (cp / 262144) * 262144 + ((cp / 4096) % 64) * 4096 + ((cp / 64) % 64) * 64 + cp % 64 == cp
  {
  }

  /** Two escapes of a lead and a continuation byte decode to the code
      point they carry. */
  lemma SequenceOfTwo(t: string, b0: nat, b1: nat)
    requires ByteAt(t, 0) == Some(b0) && ByteAt(t, 1) == Some(b1)
    requires 0xC2 <= b0 < 0xE0 && 0x80 <= b1 < 0xC0
    ensures DecodeSequence(t) == Some((((b0 - 0xC0) * 64 + (b1 - 0x80)) as char, 6))
  {
  }

  lemma SequenceOfThree(t: string, b0: nat, b1: nat, b2: nat, cp: int)
    requires ByteAt(t, 0) == Some(b0) && ByteAt(t, 1) == Some(b1) && ByteAt(t, 2) == Some(b2)
    requires 0xE0 <= b0 < 0xF0 && 0x80 <= b1 < 0xC0 && 0x80 <= b2 < 0xC0
    requires cp == (b0 - 0xE0) * 4096 + (b1 - 0x80) * 64 + (b2 - 0x80)
    requires 0x800 <= cp && !(0xD800 <= cp < 0xE000)
    ensures DecodeSequence(t) == Some((cp as char, 9))
  {
  }

  lemma SequenceOfFour(t: string, b0: nat, b1: nat, b2: nat, b3: nat, cp: int)
    requires ByteAt(t, 0) == Some(b0) && ByteAt(t, 1) == Some(b1) && ByteAt(t, 2) == Some(b2) && ByteAt(t, 3) == Some(b3)
    requires 0xF0 <= b0 < 0xF5 && 0x80 <= b1 < 0xC0 && 0x80 <= b2 < 0xC0 && 0x80 <= b3 < 0xC0
    requires cp == (b0 - 0xF0) * 262144 + (b1 - 0x80) * 4096 + (b2 - 0x80) * 64 + (b3 - 0x80)
    requires 0x10000 <= cp < 0x110000
    ensures DecodeSequence(t) == Some((cp as char, 12))
  {
  }

  /** A two-byte character written as escapes reads back. */
  lemma DecodeTwoBytes(c: char, rest: string)
    requires 0x80 <= c as int < 0x800
    ensures DecodeSequence(PercentBytes(Utf8(c)) + rest) == Some((c, 6))
  {
    var cp := c as int;
    var bytes := Utf8(c);
    var q, r := cp / 64, cp % 64;
    assert bytes == [0xC0 + q, 0x80 + r];
    TwoByteArithmetic(cp);
    PercentBytesRead(bytes, rest, 0);
    PercentBytesRead(bytes, rest, 1);
    SequenceOfTwo(PercentBytes(bytes) + rest, bytes[0], bytes[1]);
  }

  /** A three-byte character written as escapes reads back. */
  lemma DecodeThreeBytes(c: char, rest: string)
    requires 0x800 <= c as int < 0x10000
    ensures DecodeSequence(PercentBytes(Utf8(c)) + rest) == Some((c, 9))
  {
    var cp := c as int;
    var bytes := Utf8(c);
    var q0, q1, q2 := cp / 4096, (cp / 64) % 64, cp % 64;
    assert bytes == [0xE0 + q0, 0x80 + q1, 0x80 + q2];
    ThreeByteArithmetic(cp);
    PercentBytesRead(bytes, rest, 0);
    PercentBytesRead(bytes, rest, 1);
    PercentBytesRead(bytes, rest, 2);
    SequenceOfThree(PercentBytes(bytes) + rest, bytes[0], bytes[1], bytes[2], cp);
  }

  /** A four-byte character written as escapes reads back. */
  lemma DecodeFourBytes(c: char, rest: string)
    requires 0x10000 <= c as int
    ensures DecodeSequence(PercentBytes(Utf8(c)) + rest) == Some((c, 12))
  {
    var cp := c as int;
    var bytes := Utf8(c);
    var q0, q1, q2, q3 := cp / 262144, (cp / 4096) % 64, (cp / 64) % 64, cp % 64;
    assert bytes == [0xF0 + q0, 0x80 + q1, 0x80 + q2, 0x80 + q3];
    FourByteArithmetic(cp);
    PercentBytesRead(bytes, rest, 0);
    PercentBytesRead(bytes, rest, 1);
    PercentBytesRead(bytes, rest, 2);
    PercentBytesRead(bytes, rest, 3);
    SequenceOfFour(PercentBytes(bytes) + rest, bytes[0], bytes[1], bytes[2], bytes[3], cp);
  }

  /** The escape sequence of an encoded character decodes to it. */
  lemma DecodeSequenceOfChar(c: char, rest: string)
    requires !IsUnreserved(c)
    ensures DecodeSequence(PercentBytes(Utf8(c)) + rest) == Some((c, |PercentBytes(Utf8(c))|))
  {
    var cp := c as int;
    if cp < 0x80 {
      DecodeOneByte(c, rest);
    } else if cp < 0x800 {
      DecodeTwoBytes(c, rest);
    } else if cp < 0x10000 {
      DecodeThreeBytes(c, rest);
    } else {
      DecodeFourBytes(c, rest);
    }
  }

  /** Decoding an encoded character followed by anything decodes the
      character and then the rest. */
  lemma DecodeEncodedChar(c: char, rest: string)
    ensures Decode(EncodeChar(c) + rest) ==
      match Decode(rest)
      case Some(r) => Some([c] + r)
      case None => None
  {
    var t := EncodeChar(c) + rest;
    if IsUnreserved(c) {
      assert t[0] == c && t[1..] == rest;
    } else {
      DecodeSequenceOfChar(c, rest);
      assert t[0] == '%';
      assert t[|EncodeChar(c)|..] == rest;
    }
  }

  /** `decodeURIComponent(encodeURIComponent(s)) == s` for every string. */
  lemma {:induction false} DecodeEncode(s: string)
    ensures Decode(Encode(s)) == Some(s)
  {
    if s != [] {
      DecodeEncode(s[1..]);
      assert Encode(s) == EncodeChar(s[0]) + Encode(s[1..]);
      DecodeEncodedChar(s[0], Encode(s[1..]));
      assert Decode(Encode(s)) == Some([s[0]] + s[1..]);
      assert [s[0]] + s[1..] == s;
    }
  }
}
