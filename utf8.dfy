/**
 * UTF-8, as `Buffer.from(string)` and `encodeURIComponent` apply it to a
 * JavaScript string. A Dafny `char` is a Unicode scalar value, so every
 * string here is well formed and encodes without replacement characters.
 */
module Utf8 {
  import opened Wrappers

  type byte = b: int | 0 <= b < 0x100

  /** A continuation byte `10xxxxxx` carrying the six bits `v`. */
  function Cont(v: int): byte
    requires 0 <= v < 0x40
  {
    0x80 + v
  }

  /** The one to four bytes of a scalar value, shortest form. */
  function EncodeChar(c: char): (bs: seq<byte>)
    ensures 1 <= |bs| <= 4
    ensures |bs| == 1 <==> c as int < 0x80
  {
    var n := c as int;
    if n < 0x80 then [n]
    else if n < 0x800 then [0xC0 + n / 0x40, Cont(n % 0x40)]
    else if n < 0x1_0000 then [0xE0 + n / 0x1000, Cont(n / 0x40 % 0x40), Cont(n % 0x40)]
    else [0xF0 + n / 0x4_0000, Cont(n / 0x1000 % 0x40), Cont(n / 0x40 % 0x40), Cont(n % 0x40)]
  }

  function Encode(s: string): (bs: seq<byte>)
    ensures |s| <= |bs| <= 4 * |s|
  {
    if s == [] then [] else EncodeChar(s[0]) + Encode(s[1..])
  }

  predicate IsCont(b: byte)
  {
    0x80 <= b < 0xC0
  }

  /** A code point that is a scalar value (not a surrogate, at most U+10FFFF). */
  predicate IsScalar(n: int)
  {
    (0 <= n < 0xD800) || (0xE000 <= n < 0x11_0000)
  }

  /**
   * Decodes the character at the start of `bs`: the character and the number
   * of bytes it used, or `None` for a malformed, overlong or surrogate sequence.
   */
  function DecodeChar(bs: seq<byte>): (r: Option<(char, nat)>)
    ensures r.Some? ==> 1 <= r.value.1 <= |bs| && r.value.1 <= 4
  {
    if bs == [] then None
    else
      var b0: int := bs[0];
      if b0 < 0x80 then Some((b0 as char, 1))
      else if 0xC0 <= b0 < 0xE0 && |bs| >= 2 && IsCont(bs[1]) then
        var n := (b0 - 0xC0) * 0x40 + (bs[1] as int - 0x80);
        if 0x80 <= n then Some((n as char, 2)) else None
      else if 0xE0 <= b0 < 0xF0 && |bs| >= 3 && IsCont(bs[1]) && IsCont(bs[2]) then
        var n := (b0 - 0xE0) * 0x1000 + (bs[1] as int - 0x80) * 0x40 + (bs[2] as int - 0x80);
        if 0x800 <= n && IsScalar(n) then Some((n as char, 3)) else None
      else if 0xF0 <= b0 < 0xF8 && |bs| >= 4 && IsCont(bs[1]) && IsCont(bs[2]) && IsCont(bs[3]) then
        var n := (b0 - 0xF0) * 0x4_0000 + (bs[1] as int - 0x80) * 0x1000
          + (bs[2] as int - 0x80) * 0x40 + (bs[3] as int - 0x80);
        if 0x1_0000 <= n && IsScalar(n) then Some((n as char, 4)) else None
      else None
  }

  /** Decodes a whole byte sequence, failing on any malformed character. */
  function Decode(bs: seq<byte>): Option<string>
    decreases |bs|
  {
    if bs == [] then Some([])
    else
      match DecodeChar(bs)
      case None => None
      case Some((c, k)) =>
        match Decode(bs[k..])
        case None => None
        case Some(rest) => Some([c] + rest)
  }

  /** Decoding the encoding of one character gives it back, whatever follows. */
  lemma DecodeEncodeChar(c: char, tail: seq<byte>)
    ensures DecodeChar(EncodeChar(c) + tail) == Some((c, |EncodeChar(c)|))
  {
    var n := c as int;
    if n < 0x80 {
    } else if n < 0x800 {
      DecodeTwoBytes(c, tail);
    } else if n < 0x1_0000 {
      DecodeThreeBytes(c, tail);
    } else {
      DecodeFourBytes(c, tail);
    }
  }

  lemma DecodeTwoBytes(c: char, tail: seq<byte>)
    requires 0x80 <= c as int < 0x800
    ensures DecodeChar(EncodeChar(c) + tail) == Some((c, 2))
  {
    var n := c as int;
    var bs := EncodeChar(c) + tail;
    assert n == 0x40 * (n / 0x40) + n % 0x40;
    assert bs[0] == 0xC0 + n / 0x40 && bs[1] == 0x80 + n % 0x40;
    assert (bs[0] as int - 0xC0) * 0x40 + (bs[1] as int - 0x80) == n;
  }

  lemma DecodeThreeBytes(c: char, tail: seq<byte>)
    requires 0x800 <= c as int < 0x1_0000
    ensures DecodeChar(EncodeChar(c) + tail) == Some((c, 3))
  {
    var n := c as int;
    var q1, q2 := n / 0x40, n / 0x1000;
    assert n == 0x40 * q1 + n % 0x40;
    assert q1 / 0x40 == q2;
    assert q1 == 0x40 * q2 + q1 % 0x40;
    var bs := EncodeChar(c) + tail;
    assert bs[0] == 0xE0 + q2 && bs[1] == 0x80 + q1 % 0x40 && bs[2] == 0x80 + n % 0x40;
    assert (bs[0] as int - 0xE0) * 0x1000 + (bs[1] as int - 0x80) * 0x40 + (bs[2] as int - 0x80) == n;
  }

  lemma DecodeFourBytes(c: char, tail: seq<byte>)
    requires 0x1_0000 <= c as int
    ensures DecodeChar(EncodeChar(c) + tail) == Some((c, 4))
  {
    var n := c as int;
    assert n < 0x11_0000;
    var q1, q2, q3 := n / 0x40, n / 0x1000, n / 0x4_0000;
    assert n == 0x40 * q1 + n % 0x40;
    assert q1 / 0x40 == q2 && q2 / 0x40 == q3;
    assert q1 == 0x40 * q2 + q1 % 0x40;
    assert q2 == 0x40 * q3 + q2 % 0x40;
    var bs := EncodeChar(c) + tail;
    assert bs[0] == 0xF0 + q3 && bs[1] == 0x80 + q2 % 0x40;
    assert bs[2] == 0x80 + q1 % 0x40 && bs[3] == 0x80 + n % 0x40;
    assert (bs[0] as int - 0xF0) * 0x4_0000 + (bs[1] as int - 0x80) * 0x1000 + (bs[2] as int - 0x80) * 0x40 + (bs[3] as int - 0x80) == n;
  }

  /** Round trip: decoding the UTF-8 of a string gives back the string. */
  lemma {:induction false} DecodeEncode(s: string)
    ensures Decode(Encode(s)) == Some(s)
  {
    if s != [] {
      var head := EncodeChar(s[0]);
      var bs := Encode(s);
      DecodeEncodeChar(s[0], Encode(s[1..]));
      assert bs[|head|..] == Encode(s[1..]);
      DecodeEncode(s[1..]);
      assert [s[0]] + s[1..] == s;
    }
  }

  /** A string of ASCII characters encodes to its character codes. */
  lemma {:induction false} EncodeAscii(s: string)
    requires forall i :: 0 <= i < |s| ==> s[i] as int < 0x80
    ensures |Encode(s)| == |s|
    ensures forall i :: 0 <= i < |s| ==> Encode(s)[i] == s[i] as int
  {
    if s != [] {
      EncodeAscii(s[1..]);
    }
  }
}
