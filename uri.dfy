// encodeURIComponent, encodeURI and decodeURIComponent: every character
// outside the set an encoder leaves alone is written as the %XX escapes of
// its UTF-8 bytes, and decoding turns each escape sequence back into its
// character. A malformed escape (a '%' without two hex digits, a broken or
// overlong UTF-8 sequence, a surrogate) makes decodeURIComponent throw
// URIError, modelled as None.

module Uri {

  import opened Optional

  /** The characters encodeURIComponent leaves as they are. */
  predicate Unreserved(c: char)
  {
    ('A' <= c <= 'Z') || ('a' <= c <= 'z') || ('0' <= c <= '9') ||
    c == '-' || c == '_' || c == '.' || c == '!' || c == '~' || c == '*' || c == '\'' || c == '(' || c == ')'
  }

  const HexDigits: string := "0123456789ABCDEF"

  function HexChar(v: nat): char
    requires v < 16
  {
    HexDigits[v]
  }

  /** The value of a hex digit in either case. */
  function HexValue(c: char): (r: Option<nat>)
    ensures r.Some? ==> r.value < 16
  {
    if '0' <= c <= '9' then Some(c as int - '0' as int)
    else if 'A' <= c <= 'F' then Some(c as int - 'A' as int + 10)
    else if 'a' <= c <= 'f' then Some(c as int - 'a' as int + 10)
    else None
  }

  lemma HexValueOfHexChar(v: nat)
    requires v < 16
    ensures HexValue(HexChar(v)) == Some(v)
  {
  }

  /** One byte as an escape: '%' and two upper-case hex digits. */
  function EscapeByte(b: nat): (s: string)
    requires b < 256
    ensures |s| == 3 && s[0] == '%'
  {
    ['%', HexChar(b / 16), HexChar(b % 16)]
  }

  function EscapeBytes(bs: seq<nat>): (s: string)
    requires forall i :: 0 <= i < |bs| ==> bs[i] < 256
    ensures |s| == 3 * |bs|
  {
    if bs == [] then [] else EscapeByte(bs[0]) + EscapeBytes(bs[1..])
  }

  /** The UTF-8 bytes of a Unicode scalar value. */
  function Utf8(c: char): (bs: seq<nat>)
    ensures 1 <= |bs| <= 4 && forall i :: 0 <= i < |bs| ==> bs[i] < 256
  {
    var cp := c as int;
    if cp < 0x80 then [cp]
    else if cp < 0x800 then [0xC0 + cp / 64, 0x80 + cp % 64]
    else if cp < 0x10000 then [0xE0 + cp / 4096, 0x80 + (cp / 64) % 64, 0x80 + cp % 64]
    else [0xF0 + cp / 262144, 0x80 + (cp / 4096) % 64, 0x80 + (cp / 64) % 64, 0x80 + cp % 64]
  }

  function EncodeChar(c: char): (s: string)
  {
    if Unreserved(c) then [c] else EscapeBytes(Utf8(c))
  }

  /** encodeURIComponent */
  function Encode(s: string): (r: string)
    ensures forall i :: 0 <= i < |r| ==> Unreserved(r[i]) || r[i] == '%'
  {
    if s == [] then [] else
      EncodeCharSafe(s[0]);
      EncodeChar(s[0]) + Encode(s[1..])
  }

  lemma {:induction false} EscapeBytesSafe(bs: seq<nat>)
    requires forall i :: 0 <= i < |bs| ==> bs[i] < 256
    ensures forall i :: 0 <= i < |EscapeBytes(bs)| ==> EscapeBytes(bs)[i] == '%' || Unreserved(EscapeBytes(bs)[i])
    decreases |bs|
  {
    if bs != [] {
      EscapeBytesSafe(bs[1..]);
      HexCharUnreserved(bs[0] / 16);
      HexCharUnreserved(bs[0] % 16);
    }
  }

  /** Hex digits are themselves unreserved characters. */
  lemma HexCharUnreserved(v: nat)
    requires v < 16
    ensures Unreserved(HexChar(v))
  {
  }

  lemma EncodeCharSafe(c: char)
    ensures forall i :: 0 <= i < |EncodeChar(c)| ==> Unreserved(EncodeChar(c)[i]) || EncodeChar(c)[i] == '%'
  {
    if !Unreserved(c) {
      EscapeBytesSafe(Utf8(c));
    }
  }

  /** The byte escaped at position i, if s holds a '%' and two hex digits there. */
  function EscapedByte(s: string, i: nat): (r: Option<nat>)
    ensures r.Some? ==> i + 3 <= |s| && r.value < 256
  {
    if i + 3 <= |s| && s[i] == '%' && HexValue(s[i + 1]).Some? && HexValue(s[i + 2]).Some?
    then Some(HexValue(s[i + 1]).value * 16 + HexValue(s[i + 2]).value)
    else None
  }

  /** The number of bytes a UTF-8 sequence with this lead byte has; 0 when it cannot lead one. */
  function SequenceLength(b0: nat): (n: nat)
    ensures n == 0 || 2 <= n <= 4
  {
    if 0xC0 <= b0 < 0xE0 then 2
    else if 0xE0 <= b0 < 0xF0 then 3
    else if 0xF0 <= b0 < 0xF8 then 4
    else 0
  }

  /** `count` continuation bytes (10xxxxxx) escaped from escape k on. */
  function ContinuationBytes(s: string, k: nat, count: nat): (r: Option<seq<nat>>)
    ensures r.Some? ==> |r.value| == count && (count > 0 ==> 3 * (k + count) <= |s|)
    ensures r.Some? ==> forall i :: 0 <= i < count ==> 0x80 <= r.value[i] < 0xC0
    decreases count
  {
    if count == 0 then Some([])
    else
      match EscapedByte(s, 3 * k)
      case None => None
      case Some(b) =>
        if b < 0x80 || b >= 0xC0 then None
        else
          match ContinuationBytes(s, k + 1, count - 1)
          case None => None
          case Some(rest) => Some([b] + rest)
  }

  /** The code point a lead byte and its continuation bytes carry. */
  function Utf8Value(b0: nat, cs: seq<nat>): int
    requires 1 <= |cs| <= 3
  {
    var b, c0 := b0 as int, cs[0] as int;
    if |cs| == 1 then (b - 0xC0) * 64 + (c0 - 0x80)
    else if |cs| == 2 then (b - 0xE0) * 4096 + (c0 - 0x80) * 64 + (cs[1] as int - 0x80)
    else (b - 0xF0) * 262144 + (c0 - 0x80) * 4096 + (cs[1] as int - 0x80) * 64 + (cs[2] as int - 0x80)
  }

  /** A decoded n-byte value is a character when it is not overlong, not a surrogate and in range. */
  predicate ValidScalar(cp: int, n: nat)
  {
    (if n == 2 then 0x80 else if n == 3 then 0x800 else 0x10000) <= cp <= 0x10FFFF
    && !(0xD800 <= cp <= 0xDFFF)
  }

  /** Decodes the escape sequence at the start of s: the character and how many characters it spans. */
  function DecodeEscape(s: string): (r: Option<(char, nat)>)
    ensures r.Some? ==> 3 <= r.value.1 <= |s|
  {
    match EscapedByte(s, 0)
    case None => None
    case Some(b0) =>
      if b0 < 0x80 then Some((b0 as char, 3))
      else
        var n := SequenceLength(b0);
        if n == 0 then None
        else
          match ContinuationBytes(s, 1, n - 1)
          case None => None
          case Some(cs) =>
            var cp := Utf8Value(b0, cs);
            if ValidScalar(cp, n) then Some((cp as char, 3 * n)) else None
  }

  /** decodeURIComponent; None stands for the URIError it throws. */
  function Decode(s: string): (r: Option<string>)
    decreases |s|
  {
    if s == [] then Some([])
    else if s[0] != '%' then
      match Decode(s[1..])
      case None => None
      case Some(t) => Some([s[0]] + t)
    else
      match DecodeEscape(s)
      case None => None
      case Some((c, n)) =>
        match Decode(s[n..])
        case None => None
        case Some(t) => Some([c] + t)
  }

  lemma EscapedByteOfEscape(s: string, i: nat, b: nat)
    requires b < 256 && i + 3 <= |s| && s[i..i + 3] == EscapeByte(b)
    ensures EscapedByte(s, i) == Some(b)
  {
    assert s[i] == '%' && s[i + 1] == HexChar(b / 16) && s[i + 2] == HexChar(b % 16);
    HexValueOfHexChar(b / 16);
    HexValueOfHexChar(b % 16);
  }

  lemma {:induction false} EscapeBytesAt(bs: seq<nat>, k: nat, rest: string)
    requires forall i :: 0 <= i < |bs| ==> bs[i] < 256
    requires k < |bs|
    ensures (EscapeBytes(bs) + rest)[3 * k..3 * k + 3] == EscapeByte(bs[k])
    decreases k
  {
    var s := EscapeBytes(bs) + rest;
    if k == 0 {
      assert s == EscapeByte(bs[0]) + (EscapeBytes(bs[1..]) + rest);
    } else {
      EscapeBytesAt(bs[1..], k - 1, rest);
      assert s == EscapeByte(bs[0]) + (EscapeBytes(bs[1..]) + rest);
      assert s[3 * k..3 * k + 3] == (EscapeBytes(bs[1..]) + rest)[3 * (k - 1)..3 * (k - 1) + 3];
    }
  }

  lemma {:induction false} ContinuationBytesOfEscapes(bs: seq<nat>, k: nat, count: nat, rest: string)
    requires forall i :: 0 <= i < |bs| ==> 0x80 <= bs[i] < 0xC0 || i == 0
    requires forall i :: 0 <= i < |bs| ==> bs[i] < 256
    requires 1 <= k && k + count == |bs|
    ensures ContinuationBytes(EscapeBytes(bs) + rest, k, count) == Some(bs[k..])
    decreases count
  {
    if count > 0 {
      EscapedByteAt(bs, k, rest);
      ContinuationBytesOfEscapes(bs, k + 1, count - 1, rest);
      ContinuationBytesStep(EscapeBytes(bs) + rest, k, count, bs[k], bs[k + 1..]);
      assert bs[k..] == [bs[k]] + bs[k + 1..];
    }
  }

  lemma EscapedByteAt(bs: seq<nat>, k: nat, rest: string)
    requires forall i :: 0 <= i < |bs| ==> bs[i] < 256
    requires k < |bs|
    ensures EscapedByte(EscapeBytes(bs) + rest, 3 * k) == Some(bs[k])
  {
    EscapeBytesAt(bs, k, rest);
    EscapedByteOfEscape(EscapeBytes(bs) + rest, 3 * k, bs[k]);
  }

  lemma ContinuationBytesStep(s: string, k: nat, count: nat, b: nat, tail: seq<nat>)
    requires count > 0 && EscapedByte(s, 3 * k) == Some(b) && 0x80 <= b < 0xC0
    requires ContinuationBytes(s, k + 1, count - 1) == Some(tail)
    ensures ContinuationBytes(s, k, count) == Some([b] + tail)
  {
  }

  /** The UTF-8 bytes of a character carry its code point, with valid lead and continuation bytes. */
  lemma Utf8Shape(c: char)
    ensures var bs := Utf8(c);
      (|bs| == 1 ==> bs[0] == c as int && bs[0] < 0x80) &&
      (|bs| > 1 ==> 0x80 <= bs[0] && SequenceLength(bs[0]) == |bs|
                    && Utf8Value(bs[0], bs[1..]) == c as int && ValidScalar(c as int, |bs|)) &&
      (forall i :: 1 <= i < |bs| ==> 0x80 <= bs[i] < 0xC0)
  {
    var cp := c as int;
    if 0x80 <= cp < 0x800 {
      Utf8Shape2(cp);
    } else if 0x800 <= cp < 0x10000 {
      Utf8Shape3(cp);
    } else if 0x10000 <= cp {
      Utf8Shape4(cp);
    }
  }

  lemma Utf8Shape2(cp: int)
    requires 0x80 <= cp < 0x800
    ensures 0xC0 <= 0xC0 + cp / 64 < 0xE0 && 0 <= cp % 64 < 64
    ensures (0xC0 + cp / 64 - 0xC0) * 64 + (0x80 + cp % 64 - 0x80) == cp
  {
    assert cp == (cp / 64) * 64 + cp % 64;
  }

  lemma Utf8Shape3(cp: int)
    requires 0x800 <= cp < 0x10000
    ensures 0xE0 <= 0xE0 + cp / 4096 < 0xF0 && 0 <= (cp / 64) % 64 < 64 && 0 <= cp % 64 < 64
    ensures (0xE0 + cp / 4096 - 0xE0) * 4096 + (0x80 + (cp / 64) % 64 - 0x80) * 64 + (0x80 + cp % 64 - 0x80) == cp
  {
    assert cp / 64 == (cp / 4096) * 64 + (cp / 64) % 64;
    assert cp == (cp / 64) * 64 + cp % 64;
  }

  lemma Utf8Shape4(cp: int)
    requires 0x10000 <= cp < 0x110000
    ensures 0xF0 <= 0xF0 + cp / 262144 < 0xF8 && 0 <= (cp / 4096) % 64 < 64
    ensures 0 <= (cp / 64) % 64 < 64 && 0 <= cp % 64 < 64
    ensures (0xF0 + cp / 262144 - 0xF0) * 262144 + (0x80 + (cp / 4096) % 64 - 0x80) * 4096
            + (0x80 + (cp / 64) % 64 - 0x80) * 64 + (0x80 + cp % 64 - 0x80) == cp
  {
    assert cp / 4096 == (cp / 262144) * 64 + (cp / 4096) % 64;
    assert cp / 64 == (cp / 4096) * 64 + (cp / 64) % 64;
    assert cp == (cp / 64) * 64 + cp % 64;
  }

  /** The escapes of a character decode back to that character and exactly span them. */
  lemma DecodeEscapeOfEncoded(c: char, rest: string)
    requires !Unreserved(c)
    ensures DecodeEscape(EncodeChar(c) + rest) == Some((c, |EncodeChar(c)|))
  {
    var bs := Utf8(c);
    var s := EncodeChar(c) + rest;
    assert s == EscapeBytes(bs) + rest;
    Utf8Shape(c);
    EscapeBytesAt(bs, 0, rest);
    EscapedByteOfEscape(s, 0, bs[0]);
    if |bs| > 1 {
      ContinuationBytesOfEscapes(bs, 1, |bs| - 1, rest);
      DecodeMultibyte(s, bs, c);
    }
  }

  lemma DecodeMultibyte(s: string, bs: seq<nat>, c: char)
    requires 2 <= |bs| <= 4 && 0x80 <= bs[0] && SequenceLength(bs[0]) == |bs|
    requires EscapedByte(s, 0) == Some(bs[0]) && ContinuationBytes(s, 1, |bs| - 1) == Some(bs[1..])
    requires Utf8Value(bs[0], bs[1..]) == c as int && ValidScalar(c as int, |bs|)
    ensures DecodeEscape(s) == Some((c, 3 * |bs|))
  {
  }

  /** A character other than '%' is copied, ahead of whatever the rest decodes to. */
  lemma DecodePlain(c: char, t: string)
    requires c != '%'
    ensures Decode([c] + t) == (if Decode(t).Some? then Some([c] + Decode(t).value) else None)
  {
    assert ([c] + t)[1..] == t;
  }

  /** An escape sequence decodes to its character, ahead of whatever follows decodes to. */
  lemma DecodeEscaped(e: string, t: string, c: char)
    requires DecodeEscape(e + t) == Some((c, |e|))
    ensures Decode(e + t) == (if Decode(t).Some? then Some([c] + Decode(t).value) else None)
  {
    assert (e + t)[|e|..] == t;
  }

  /** decodeURIComponent(encodeURIComponent(s)) == s, and it never throws on an encoded text. */
  lemma {:induction false} DecodeEncode(s: string)
    ensures Decode(Encode(s)) == Some(s)
    decreases |s|
  {
    if s != [] {
      DecodeEncode(s[1..]);
      var t := Encode(s[1..]);
      assert Encode(s) == EncodeChar(s[0]) + t;
      if Unreserved(s[0]) {
        DecodePlain(s[0], t);
      } else {
        DecodeEscapeOfEncoded(s[0], t);
        DecodeEscaped(EncodeChar(s[0]), t, s[0]);
      }
      assert [s[0]] + s[1..] == s;
    }
  }

  /** A text with no '%' decodes to itself. */
  lemma {:induction false} DecodeNoPercent(s: string)
    requires '%' !in s
    ensures Decode(s) == Some(s)
    decreases |s|
  {
    if s != [] {
      assert s[0] in s;
      DecodeNoPercent(s[1..]);
      assert [s[0]] + s[1..] == s;
    }
  }

  /** A text of unreserved characters encodes to itself. */
  lemma {:induction false} EncodeUnreserved(s: string)
    requires forall i :: 0 <= i < |s| ==> Unreserved(s[i])
    ensures Encode(s) == s
    decreases |s|
  {
    if s != [] {
      EncodeUnreserved(s[1..]);
      assert [s[0]] + s[1..] == s;
    }
  }

  /** The characters encodeURI leaves as they are: the unreserved ones and the reserved ones of a URI. */
  predicate UriUnescaped(c: char)
  {
    Unreserved(c) || c == ';' || c == '/' || c == '?' || c == ':' || c == '@' || c == '&' || c == '='
    || c == '+' || c == '$' || c == ',' || c == '#'
  }

  function EncodeUriChar(c: char): (s: string)
    ensures |s| == 1 <==> UriUnescaped(c)
  {
    if UriUnescaped(c) then [c] else EscapeBytes(Utf8(c))
  }

  /** encodeURI: as encodeURIComponent, but the reserved characters of a URI stay as they are. */
  function EncodeUri(s: string): (r: string)
    ensures |r| >= |s|
    ensures |r| == |s| ==> forall i :: 0 <= i < |s| ==> UriUnescaped(s[i])
  {
    if s == [] then [] else
      var r := EncodeUriChar(s[0]) + EncodeUri(s[1..]);
      assert forall i :: 1 <= i < |s| ==> s[i] == s[1..][i - 1];
      r
  }

  /** encodeURI works character by character, so it distributes over concatenation. */
  lemma {:induction false} EncodeUriAppend(a: string, b: string)
    ensures EncodeUri(a + b) == EncodeUri(a) + EncodeUri(b)
    decreases |a|
  {
    if a == [] {
      assert a + b == b;
    } else {
      assert (a + b)[0] == a[0] && (a + b)[1..] == a[1..] + b;
      EncodeUriAppend(a[1..], b);
    }
  }

  /** encodeURI leaves a text as it is exactly when every character of it is one it does not escape. */
  lemma {:induction false} EncodeUriFixed(s: string)
    ensures EncodeUri(s) == s <==> forall i :: 0 <= i < |s| ==> UriUnescaped(s[i])
    decreases |s|
  {
    if s != [] && forall i :: 0 <= i < |s| ==> UriUnescaped(s[i]) {
      assert forall i :: 0 <= i < |s| - 1 ==> s[1..][i] == s[i + 1];
      EncodeUriFixed(s[1..]);
      assert [s[0]] + s[1..] == s;
    }
  }

  /** decodeURIComponent(encodeURI(s)) == s: decoding every escape undoes encodeURI, and never throws on its output. */
  lemma {:induction false} DecodeEncodeUri(s: string)
    ensures Decode(EncodeUri(s)) == Some(s)
    decreases |s|
  {
    if s != [] {
      DecodeEncodeUri(s[1..]);
      var t := EncodeUri(s[1..]);
      assert EncodeUri(s) == EncodeUriChar(s[0]) + t;
      if UriUnescaped(s[0]) {
        DecodePlain(s[0], t);
      } else {
        assert EncodeUriChar(s[0]) == EncodeChar(s[0]);
        DecodeEscapeOfEncoded(s[0], t);
        DecodeEscaped(EncodeChar(s[0]), t, s[0]);
      }
      assert [s[0]] + s[1..] == s;
    }
  }

  /** A lone '%' or a bad hex digit makes decoding throw. */
  lemma DecodeMalformed()
    ensures Decode("%") == None
    ensures Decode("%G0") == None
    ensures Decode("%C3") == None
  {
    assert DecodeEscape("%") == None;
    assert HexValue('G') == None;
    assert DecodeEscape("%G0") == None;
    assert EscapedByte("%C3", 0) == Some(0xC3);
    assert ContinuationBytes("%C3", 1, 1) == None;
  }
}
