/**
 * Base64 as defined in section 4 of RFC 4648 (the alphabet `A-Z a-z 0-9 + /`
 * with `=` padding), which `Buffer.prototype.toString('base64')` produces.
 * Every 3 input bytes become 4 characters; a final group of 1 or 2 bytes is
 * padded with `==` or `=`.
 */
module Base64 {
  import opened Wrappers
  import opened Utf8

  /** The character for a 6-bit value (Table 1 of RFC 4648). */
  function Char(v: int): (c: char)
    requires 0 <= v < 64
    ensures c != '='
  {
    if v < 26 then ('A' as int + v) as char
    else if v < 52 then ('a' as int + (v - 26)) as char
    else if v < 62 then ('0' as int + (v - 52)) as char
    else if v == 62 then '+'
    else '/'
  }

  /** The 6-bit value of an alphabet character, if it is one. */
  function Value(c: char): (r: Option<int>)
    ensures r.Some? ==> 0 <= r.value < 64 && Char(r.value) == c
  {
    if 'A' <= c <= 'Z' then Some(c as int - 'A' as int)
    else if 'a' <= c <= 'z' then Some(c as int - 'a' as int + 26)
    else if '0' <= c <= '9' then Some(c as int - '0' as int + 52)
    else if c == '+' then Some(62)
    else if c == '/' then Some(63)
    else None
  }

  lemma ValueChar(v: int)
    requires 0 <= v < 64
    ensures Value(Char(v)) == Some(v)
  {
  }

  /** Three bytes as four characters. */
  function Quad(b0: byte, b1: byte, b2: byte): string
  {
    [Char(b0 / 4), Char(b0 % 4 * 16 + b1 / 16), Char(b1 % 16 * 4 + b2 / 64), Char(b2 % 64)]
  }

  /** Encodes `bs`; the result has length 4 * ceil(|bs| / 3). */
  function Encode(bs: seq<byte>): (s: string)
    ensures |s| == (|bs| + 2) / 3 * 4
    decreases |bs|
  {
    if |bs| == 0 then []
    else if |bs| == 1 then [Char(bs[0] / 4), Char(bs[0] % 4 * 16), '=', '=']
    else if |bs| == 2 then [Char(bs[0] / 4), Char(bs[0] % 4 * 16 + bs[1] / 16), Char(bs[1] % 16 * 4), '=']
    else Quad(bs[0], bs[1], bs[2]) + Encode(bs[3..])
  }

  /** Decodes one group of four characters into one to three bytes. */
  function DecodeQuad(q: string, last: bool): Option<seq<byte>>
    requires |q| == 4
  {
    if Value(q[0]).None? || Value(q[1]).None? then None
    else
      var a, b := Value(q[0]).value, Value(q[1]).value;
      if last && q[2] == '=' && q[3] == '=' then
        if b % 16 == 0 then Some([a * 4 + b / 16]) else None
      else
        match Value(q[2])
        case None => None
        case Some(c) =>
          if last && q[3] == '=' then
            if c % 4 == 0 then Some([a * 4 + b / 16, b % 16 * 16 + c / 4]) else None
          else
            match Value(q[3])
            case None => None
            case Some(d) => Some([a * 4 + b / 16, b % 16 * 16 + c / 4, c % 4 * 64 + d])
  }

  /**
   * Decodes a padded Base64 string; `None` for a length that is not a
   * multiple of 4, a character outside the alphabet, padding before the
   * last group, or non-zero pad bits.
   */
  function Decode(s: string): Option<seq<byte>>
    decreases |s|
  {
    if |s| == 0 then Some([])
    else if |s| < 4 then None
    else
      match DecodeQuad(s[..4], |s| == 4)
      case None => None
      case Some(head) =>
        match Decode(s[4..])
        case None => None
        case Some(tail) => Some(head + tail)
  }

  lemma DecodeQuadFull(b0: byte, b1: byte, b2: byte, last: bool)
    ensures DecodeQuad(Quad(b0, b1, b2), last) == Some([b0, b1, b2])
  {
    var v0, v1, v2, v3 := b0 / 4, b0 % 4 * 16 + b1 / 16, b1 % 16 * 4 + b2 / 64, b2 % 64;
    ValueChar(v0);
    ValueChar(v1);
    ValueChar(v2);
    ValueChar(v3);
    GroupBits(b0, b1, b2);
    assert Quad(b0, b1, b2) == [Char(v0), Char(v1), Char(v2), Char(v3)];
  }

  /** The four 6-bit values of a group put back together give the three bytes. */
  lemma GroupBits(b0: byte, b1: byte, b2: byte)
    ensures (b0 / 4) * 4 + (b0 % 4 * 16 + b1 / 16) / 16 == b0
    ensures (b0 % 4 * 16 + b1 / 16) % 16 * 16 + (b1 % 16 * 4 + b2 / 64) / 4 == b1
    ensures (b1 % 16 * 4 + b2 / 64) % 4 * 64 + b2 % 64 == b2
  {
    var v1, v2 := b0 % 4 * 16 + b1 / 16, b1 % 16 * 4 + b2 / 64;
    assert b1 / 16 < 16 && b2 / 64 < 4;
    assert v1 / 16 == b0 % 4 && v1 % 16 == b1 / 16;
    assert v2 / 4 == b1 % 16 && v2 % 4 == b2 / 64;
  }

  /** A final group of one byte, `xx==`, decodes back to that byte. */
  lemma DecodeOne(b0: byte)
    ensures Decode(Encode([b0])) == Some([b0])
  {
    var s := Encode([b0]);
    ValueChar(b0 / 4);
    ValueChar(b0 % 4 * 16);
    assert (b0 % 4 * 16) % 16 == 0 && b0 / 4 * 4 + (b0 % 4 * 16) / 16 == b0;
    assert s[..4] == s && s[4..] == [];
    assert DecodeQuad(s[..4], true) == Some([b0]);
    assert Decode(s[4..]) == Some([]);
    assert [b0] + [] == [b0];
  }

  /** A final group of two bytes, `xxx=`, decodes back to those bytes. */
  lemma DecodeTwo(b0: byte, b1: byte)
    ensures Decode(Encode([b0, b1])) == Some([b0, b1])
  {
    var s := Encode([b0, b1]);
    ValueChar(b0 / 4);
    ValueChar(b0 % 4 * 16 + b1 / 16);
    ValueChar(b1 % 16 * 4);
    var b := b0 % 4 * 16 + b1 / 16;
    var c := b1 % 16 * 4;
    assert b0 / 4 * 4 + b / 16 == b0;
    assert b % 16 * 16 + c / 4 == b1 && c % 4 == 0;
    assert s[..4] == s && s[4..] == [];
    assert DecodeQuad(s[..4], true) == Some([b0, b1]);
    assert Decode(s[4..]) == Some([]);
    assert [b0, b1] + [] == [b0, b1];
  }

  /** Decoding proceeds group by group. */
  lemma DecodeCons(q: string, rest: string)
    requires |q| == 4
    requires DecodeQuad(q, rest == []).Some? && Decode(rest).Some?
    ensures Decode(q + rest) == Some(DecodeQuad(q, rest == []).value + Decode(rest).value)
  {
    var s := q + rest;
    assert s[..4] == q && s[4..] == rest;
  }

  /** Round trip: decoding the encoding of any byte sequence gives it back. */
  lemma {:induction false} DecodeEncode(bs: seq<byte>)
    ensures Decode(Encode(bs)) == Some(bs)
    decreases |bs|
  {
    if |bs| == 1 {
      assert bs == [bs[0]];
      DecodeOne(bs[0]);
    } else if |bs| == 2 {
      assert bs == [bs[0], bs[1]];
      DecodeTwo(bs[0], bs[1]);
    } else if |bs| >= 3 {
      DecodeEncode(bs[3..]);
      DecodeEncodeGroup(bs, Encode(bs[3..]));
    }
  }

  /** A full leading group decodes back, given that the rest does. */
  lemma DecodeEncodeGroup(bs: seq<byte>, rest: string)
    requires |bs| >= 3 && rest == Encode(bs[3..])
    requires Decode(rest) == Some(bs[3..])
    ensures Decode(Encode(bs)) == Some(bs)
  {
    var q := Quad(bs[0], bs[1], bs[2]);
    DecodeQuadFull(bs[0], bs[1], bs[2], rest == []);
    DecodeCons(q, rest);
    assert Encode(bs) == q + rest;
    assert [bs[0], bs[1], bs[2]] + bs[3..] == bs;
  }

  /** The encoding uses only the 64 alphabet characters and `=`. */
  lemma {:induction false} EncodeAlphabet(bs: seq<byte>)
    ensures forall i :: 0 <= i < |Encode(bs)| ==> Encode(bs)[i] == '=' || Value(Encode(bs)[i]).Some?
    decreases |bs|
  {
    var s := Encode(bs);
    if |bs| >= 3 {
      EncodeAlphabet(bs[3..]);
      var q := Quad(bs[0], bs[1], bs[2]);
      ValueChar(bs[0] / 4);
      ValueChar(bs[0] % 4 * 16 + bs[1] / 16);
      ValueChar(bs[1] % 16 * 4 + bs[2] / 64);
      ValueChar(bs[2] % 64);
      forall i | 0 <= i < |s|
        ensures s[i] == '=' || Value(s[i]).Some?
      {
        if i >= 4 {
          assert s[i] == Encode(bs[3..])[i - 4];
        }
      }
    } else if |bs| == 2 {
      ValueChar(bs[0] / 4);
      ValueChar(bs[0] % 4 * 16 + bs[1] / 16);
      ValueChar(bs[1] % 16 * 4);
    } else if |bs| == 1 {
      ValueChar(bs[0] / 4);
      ValueChar(bs[0] % 4 * 16);
    }
  }
}
