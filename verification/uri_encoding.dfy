/**
 * `encodeURIComponent` (ECMAScript, section 19.2.6.5 of the 2023 edition):
 * every character outside the unreserved set is written as the
 * percent-encoded octets of its UTF-8 form (RFC 3986 section 2.1, upper-case
 * hexadecimal digits), and `decodeURIComponent`, its inverse.
 * Characters are Unicode scalar values, so the lone-surrogate error of the
 * JavaScript function cannot arise.
 */
module UriEncoding {
  import opened Wrappers

  /**
   * The characters `encodeURIComponent` leaves as they are: ASCII letters and
   * digits and `- _ . ! ~ * ' ( )`.
   */
  predicate Unreserved(c: char) {
    ('A' <= c <= 'Z') || ('a' <= c <= 'z') || ('0' <= c <= '9') ||
    c == '-' || c == '_' || c == '.' || c == '!' || c == '~' || c == '*' ||
    c == '\'' || c == '(' || c == ')'
  }

  predicate IsByte(b: int) { 0 <= b < 256 }

  /** The UTF-8 encoding of one Unicode scalar value (RFC 3629 section 3). */
  function Utf8(c: char): (bytes: seq<int>)
    ensures 1 <= |bytes| <= 4
    ensures forall i :: 0 <= i < |bytes| ==> IsByte(bytes[i])
  {
    var cp := c as int;
    if cp < 0x80 then [cp]
    else if cp < 0x800 then [0xC0 + cp / 64, 0x80 + cp % 64]
    else if cp < 0x10000 then [0xE0 + cp / 4096, 0x80 + (cp / 64) % 64, 0x80 + cp % 64]
    else [0xF0 + cp / 262144, 0x80 + (cp / 4096) % 64, 0x80 + (cp / 64) % 64, 0x80 + cp % 64]
  }

  predicate IsUpperHexDigit(c: char) {
    ('0' <= c <= '9') || ('A' <= c <= 'F')
  }

  function HexDigit(d: int): (c: char)
    requires 0 <= d < 16
    ensures IsUpperHexDigit(c)
  {
    "0123456789ABCDEF"[d]
  }

  /** The value of a hexadecimal digit, either case. */
  function HexValue(c: char): Option<int> {
    if '0' <= c <= '9' then Some(c as int - '0' as int)
    else if 'A' <= c <= 'F' then Some(c as int - 'A' as int + 10)
    else if 'a' <= c <= 'f' then Some(c as int - 'a' as int + 10)
    else None
  }

  /** `%XY` for one octet. */
  function Escape(b: int): string
    requires IsByte(b)
  {
    ['%', HexDigit(b / 16), HexDigit(b % 16)]
  }

  function EscapeAll(bytes: seq<int>): (t: string)
    requires forall i :: 0 <= i < |bytes| ==> IsByte(bytes[i])
    ensures |t| == 3 * |bytes|
  {
    if bytes == [] then [] else Escape(bytes[0]) + EscapeAll(bytes[1..])
  }

  function EncodeChar(c: char): string {
    if Unreserved(c) then [c] else EscapeAll(Utf8(c))
  }

  /** `encodeURIComponent(s)` */
  function Encode(s: string): string {
    if s == [] then [] else EncodeChar(s[0]) + Encode(s[1..])
  }

  /**
   * Each character becomes itself or escapes of three characters each, so the
   * encoding is never shorter than the text.
   */
  lemma {:induction false} EncodeLength(s: string)
    ensures |Encode(s)| >= |s|
    ensures s != [] ==> Encode(s) != []
  {
    if s != [] {
      var t := EncodeChar(s[0]);
      assert |t| >= 1 by {
        if !Unreserved(s[0]) {
          assert |Utf8(s[0])| >= 1;
        }
      }
      EncodeLength(s[1..]);
    }
  }

  /** The characters an encoded string is made of. */
  predicate EncodedAlphabet(c: char) {
    Unreserved(c) || c == '%' || IsUpperHexDigit(c)
  }

  predicate AllEncodedAlphabet(t: string) {
    forall i :: 0 <= i < |t| ==> EncodedAlphabet(t[i])
  }

  lemma ConcatAlphabet(a: string, b: string)
    requires AllEncodedAlphabet(a) && AllEncodedAlphabet(b)
    ensures AllEncodedAlphabet(a + b)
  {
    forall i | 0 <= i < |a + b| ensures EncodedAlphabet((a + b)[i]) {
      if i >= |a| {
        assert (a + b)[i] == b[i - |a|];
      }
    }
  }

  lemma {:induction false} EscapeAllAlphabet(bytes: seq<int>)
    requires forall i :: 0 <= i < |bytes| ==> IsByte(bytes[i])
    ensures AllEncodedAlphabet(EscapeAll(bytes))
  {
    if bytes != [] {
      EscapeAllAlphabet(bytes[1..]);
      ConcatAlphabet(Escape(bytes[0]), EscapeAll(bytes[1..]));
    }
  }

  /**
   * An encoded string holds only unreserved characters, '%' and upper-case hex
   * digits; in particular no '&', '#', '=', '+' or space can end the query
   * parameter it is placed in.
   */
  lemma EncodeAlphabet(s: string)
    ensures AllEncodedAlphabet(Encode(s))
    ensures '&' !in Encode(s) && '#' !in Encode(s) && '=' !in Encode(s) && '+' !in Encode(s) && ' ' !in Encode(s)
  {
    EncodeInAlphabet(s);
    AlphabetExcludes(Encode(s));
  }

  lemma {:induction false} EncodeInAlphabet(s: string)
    ensures AllEncodedAlphabet(Encode(s))
  {
    if s != [] {
      EncodeInAlphabet(s[1..]);
      if !Unreserved(s[0]) {
        EscapeAllAlphabet(Utf8(s[0]));
      }
      ConcatAlphabet(EncodeChar(s[0]), Encode(s[1..]));
    }
  }

  lemma AlphabetExcludes(t: string)
    requires AllEncodedAlphabet(t)
    ensures '&' !in t && '#' !in t && '=' !in t && '+' !in t && ' ' !in t
  {
  }

  /** A string of unreserved characters is left exactly as it is. */
  lemma {:induction false} EncodeUnreserved(s: string)
    requires forall i :: 0 <= i < |s| ==> Unreserved(s[i])
    ensures Encode(s) == s
  {
    if s != [] {
      EncodeUnreserved(s[1..]);
    }
  }

  /** The octet written as `%XY` at position `i` of `t`, if there is one. */
  function EscapedByteAt(t: string, i: nat): Option<int> {
    if i + 3 <= |t| && t[i] == '%' && HexValue(t[i + 1]).Some? && HexValue(t[i + 2]).Some?
    then Some(HexValue(t[i + 1]).value * 16 + HexValue(t[i + 2]).value)
    else None
  }

  /** `n` consecutive escaped octets starting at position `i` of `t`. */
  function EscapedBytes(t: string, i: nat, n: nat): Option<seq<int>>
    decreases n
  {
    if n == 0 then Some([])
    else
      match EscapedByteAt(t, i)
      case None => None
      case Some(b) =>
        match EscapedBytes(t, i + 3, n - 1)
        case None => None
        case Some(rest) => Some([b] + rest)
  }

  /** The length of the UTF-8 sequence a lead octet announces; 0 if it is not a lead octet. */
  function SequenceLength(b0: int): nat {
    if 0 <= b0 < 0x80 then 1
    else if 0xC0 <= b0 < 0xE0 then 2
    else if 0xE0 <= b0 < 0xF0 then 3
    else if 0xF0 <= b0 < 0xF8 then 4
    else 0
  }

  predicate IsContinuation(b: int) { 0x80 <= b < 0xC0 }

  predicate IsScalar(cp: int) {
    (0 <= cp < 0xD800) || (0xE000 <= cp < 0x11_0000)
  }

  /** Decodes one complete UTF-8 sequence, rejecting overlong forms and surrogates. */
  function Utf8Decode(bytes: seq<int>): Option<char> {
    if |bytes| == 1 && 0 <= bytes[0] < 0x80 then Some(bytes[0] as char)
    else if |bytes| == 2 && SequenceLength(bytes[0]) == 2 && IsContinuation(bytes[1]) then
      var cp := (bytes[0] - 0xC0) * 64 + (bytes[1] - 0x80);
      if cp >= 0x80 then Some(cp as char) else None
    else if |bytes| == 3 && SequenceLength(bytes[0]) == 3 && IsContinuation(bytes[1]) && IsContinuation(bytes[2]) then
      var cp := (bytes[0] - 0xE0) * 4096 + (bytes[1] - 0x80) * 64 + (bytes[2] - 0x80);
      if cp >= 0x800 && IsScalar(cp) then Some(cp as char) else None
    else if |bytes| == 4 && SequenceLength(bytes[0]) == 4 && IsContinuation(bytes[1]) && IsContinuation(bytes[2]) && IsContinuation(bytes[3]) then
      var cp := (bytes[0] - 0xF0) * 262144 + (bytes[1] - 0x80) * 4096 + (bytes[2] - 0x80) * 64 + (bytes[3] - 0x80);
      if 0x1_0000 <= cp && IsScalar(cp) then Some(cp as char) else None
    else None
  }

  /** `decodeURIComponent(t)`; `None` where the JavaScript function throws a URIError. */
  function Decode(t: string): Option<string>
    decreases |t|
  {
    if t == [] then Some([])
    else if t[0] != '%' then
      match Decode(t[1..])
      case None => None
      case Some(rest) => Some([t[0]] + rest)
    else
      match EscapedByteAt(t, 0)
      case None => None
      case Some(b0) =>
        var n := SequenceLength(b0);
        if n == 0 || 3 * n > |t| then None
        else
          match EscapedBytes(t, 0, n)
          case None => None
          case Some(bytes) =>
            match Utf8Decode(bytes)
            case None => None
            case Some(c) =>
              match Decode(t[3 * n..])
              case None => None
              case Some(rest) => Some([c] + rest)
  }

  lemma Utf8RoundTrip(c: char)
    ensures Utf8Decode(Utf8(c)) == Some(c)
    ensures SequenceLength(Utf8(c)[0]) == |Utf8(c)|
    ensures forall i :: 1 <= i < |Utf8(c)| ==> IsContinuation(Utf8(c)[i])
  {
    var cp := c as int;
    if cp < 0x80 {
    } else if cp < 0x800 {
      TwoByteRoundTrip(c);
    } else if cp < 0x10000 {
      ThreeByteRoundTrip(c);
    } else {
      FourByteRoundTrip(c);
    }
  }

  lemma TwoByteRoundTrip(c: char)
    requires 0x80 <= c as int < 0x800
    ensures Utf8Decode(Utf8(c)) == Some(c) && SequenceLength(Utf8(c)[0]) == 2
    ensures IsContinuation(Utf8(c)[1])
  {
    var cp := c as int;
    var q, r := cp / 64, cp % 64;
    assert q * 64 + r == cp;
    assert Utf8(c) == [0xC0 + q, 0x80 + r];
  }

  lemma ThreeByteRoundTrip(c: char)
    requires 0x800 <= c as int < 0x1_0000
    ensures Utf8Decode(Utf8(c)) == Some(c) && SequenceLength(Utf8(c)[0]) == 3
    ensures IsContinuation(Utf8(c)[1]) && IsContinuation(Utf8(c)[2])
  {
    var cp := c as int;
    var a, m, r := cp / 4096, (cp / 64) % 64, cp % 64;
    var q := cp / 64;
    assert q * 64 + r == cp;
    assert q == a * 64 + m;
    assert a * 4096 + m * 64 + r == cp;
    assert Utf8(c) == [0xE0 + a, 0x80 + m, 0x80 + r];
  }

  lemma FourByteRoundTrip(c: char)
    requires 0x1_0000 <= c as int
    ensures Utf8Decode(Utf8(c)) == Some(c) && SequenceLength(Utf8(c)[0]) == 4
    ensures IsContinuation(Utf8(c)[1]) && IsContinuation(Utf8(c)[2]) && IsContinuation(Utf8(c)[3])
  {
    var cp := c as int;
    FourByteDigits(cp);
    var a, k, m, r := cp / 262144, (cp / 4096) % 64, (cp / 64) % 64, cp % 64;
    assert Utf8(c) == [0xF0 + a, 0x80 + k, 0x80 + m, 0x80 + r];
  }

  /** The four base-64 digits of a supplementary code point recombine to it. */
  lemma FourByteDigits(cp: int)
    requires 0x1_0000 <= cp < 0x11_0000
    ensures 0 <= cp / 262144 < 5
    ensures (cp / 262144) * 262144 + ((cp / 4096) % 64) * 4096 + ((cp / 64) % 64) * 64 + cp % 64 == cp
  {
    var a, k, m, r := cp / 262144, (cp / 4096) % 64, (cp / 64) % 64, cp % 64;
    var q, p := cp / 64, cp / 4096;
    assert q * 64 + r == cp;
    assert q == p * 64 + m;
    assert p == a * 64 + k;
  }

  lemma HexRoundTrip(d: int)
    requires 0 <= d < 16
    ensures HexValue(HexDigit(d)) == Some(d)
  {
    if d < 10 {
      assert HexDigit(d) as int == '0' as int + d;
    } else {
      assert HexDigit(d) as int == 'A' as int + d - 10;
    }
  }

  lemma EscapedByteAtEscape(b: int, rest: string)
    requires IsByte(b)
    ensures EscapedByteAt(Escape(b) + rest, 0) == Some(b)
  {
    var t := Escape(b) + rest;
    assert t[0] == '%' && t[1] == HexDigit(b / 16) && t[2] == HexDigit(b % 16);
    HexRoundTrip(b / 16);
    HexRoundTrip(b % 16);
  }

  lemma {:induction false} EscapedBytesOfEscapeAll(bytes: seq<int>, rest: string)
    requires forall i :: 0 <= i < |bytes| ==> IsByte(bytes[i])
    ensures EscapedBytes(EscapeAll(bytes) + rest, 0, |bytes|) == Some(bytes)
    decreases |bytes|
  {
    if bytes != [] {
      var b, more := bytes[0], bytes[1..];
      var tail := EscapeAll(more) + rest;
      var u := Escape(b) + tail;
      assert EscapeAll(bytes) + rest == u by {
        assert EscapeAll(bytes) == Escape(b) + EscapeAll(more);
      }
      EscapedBytesOfEscapeAll(more, rest);
      ShiftEscapedBytes(Escape(b), tail, |more|);
      EscapedByteAtEscape(b, tail);
      assert EscapedBytes(u, 0, |bytes|) == Some([b] + more);
      assert [b] + more == bytes;
    }
  }

  /** Reading escapes after a three-character prefix is reading them in the suffix. */
  lemma {:induction false} ShiftEscapedBytes(prefix: string, t: string, n: nat)
    requires |prefix| == 3
    ensures EscapedBytes(prefix + t, 3, n) == EscapedBytes(t, 0, n)
    decreases n
  {
    if n > 0 {
      ShiftEscapedByteAt(prefix, t, 0);
      ShiftMore(prefix, t, 3, n - 1);
    }
  }

  lemma ShiftEscapedByteAt(prefix: string, t: string, i: nat)
    ensures EscapedByteAt(prefix + t, |prefix| + i) == EscapedByteAt(t, i)
  {
    var u := prefix + t;
    if i + 3 <= |t| {
      assert u[|prefix| + i] == t[i] && u[|prefix| + i + 1] == t[i + 1] && u[|prefix| + i + 2] == t[i + 2];
    }
  }

  lemma {:induction false} ShiftMore(prefix: string, t: string, i: nat, n: nat)
    ensures EscapedBytes(prefix + t, |prefix| + i, n) == EscapedBytes(t, i, n)
    decreases n
  {
    if n > 0 {
      ShiftEscapedByteAt(prefix, t, i);
      ShiftMore(prefix, t, i + 3, n - 1);
    }
  }

  /** Decoding an encoded character followed by anything decodes that character first. */
  lemma DecodeEncodedChar(c: char, rest: string)
    ensures Decode(EncodeChar(c) + rest) ==
      match Decode(rest)
      case None => None
      case Some(r) => Some([c] + r)
  {
    if Unreserved(c) {
      var t := EncodeChar(c) + rest;
      assert t[0] == c && t[1..] == rest;
    } else {
      DecodeEscapedChar(c, rest);
    }
  }

  lemma DecodeEscapedChar(c: char, rest: string)
    requires !Unreserved(c)
    ensures Decode(EscapeAll(Utf8(c)) + rest) ==
      match Decode(rest)
      case None => None
      case Some(r) => Some([c] + r)
  {
    var bytes := Utf8(c);
    var t := EscapeAll(bytes) + rest;
    Utf8RoundTrip(c);
    EscapedBytesOfEscapeAll(bytes, rest);
    FirstEscapedByte(bytes, rest);
    assert t[3 * |bytes|..] == rest;
    DecodeAtEscape(t, bytes, c);
  }

  lemma {:induction false} FirstEscapedByte(bytes: seq<int>, rest: string)
    requires |bytes| >= 1 && forall i :: 0 <= i < |bytes| ==> IsByte(bytes[i])
    ensures EscapedByteAt(EscapeAll(bytes) + rest, 0) == Some(bytes[0])
  {
    var head, tail := Escape(bytes[0]), EscapeAll(bytes[1..]) + rest;
    EscapedByteAtEscape(bytes[0], tail);
    var t := EscapeAll(bytes) + rest;
    assert t == head + tail by {
      assert EscapeAll(bytes) == head + EscapeAll(bytes[1..]);
    }
  }

  /** `Decode` at a complete escaped sequence: its character, then the rest decoded. */
  lemma DecodeAtEscape(t: string, bytes: seq<int>, c: char)
    requires |bytes| >= 1 && 3 * |bytes| <= |t| && t[0] == '%'
    requires EscapedByteAt(t, 0) == Some(bytes[0]) && SequenceLength(bytes[0]) == |bytes|
    requires EscapedBytes(t, 0, |bytes|) == Some(bytes) && Utf8Decode(bytes) == Some(c)
    ensures Decode(t) ==
      match Decode(t[3 * |bytes|..])
      case None => None
      case Some(r) => Some([c] + r)
  {
  }

  /** `decodeURIComponent(encodeURIComponent(s)) === s` for every string. */
  lemma {:induction false} DecodeEncode(s: string)
    ensures Decode(Encode(s)) == Some(s)
  {
    if s != [] {
      DecodeEncode(s[1..]);
      DecodeEncodedChar(s[0], Encode(s[1..]));
      assert [s[0]] + s[1..] == s;
    }
  }
}
