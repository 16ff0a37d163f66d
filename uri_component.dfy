/**
 * `encodeURIComponent`: the percent-encoding of section 2.1 of RFC 3986
 * applied to the UTF-8 bytes of a string. The characters JavaScript leaves
 * as they are are the unreserved set of section 2.3 of RFC 3986 (letters,
 * digits, `-`, `.`, `_`, `~`) together with `!`, `*`, `'`, `(` and `)`;
 * every other byte becomes `%` and two upper-case hexadecimal digits.
 */
module UriComponent {
  import opened Wrappers
  import opened Utf8

  /** Bytes `encodeURIComponent` copies through unchanged. */
  predicate Unescaped(b: byte)
  {
    ('A' as int <= b <= 'Z' as int) || ('a' as int <= b <= 'z' as int) || ('0' as int <= b <= '9' as int)
    || b == '-' as int || b == '_' as int || b == '.' as int || b == '!' as int
    || b == '~' as int || b == '*' as int || b == '\'' as int || b == '(' as int || b == ')' as int
  }

  /** An upper-case hexadecimal digit. */
  function HexDigit(v: int): (c: char)
    requires 0 <= v < 16
  {
    if v < 10 then ('0' as int + v) as char else ('A' as int + (v - 10)) as char
  }

  /** The value of a hexadecimal digit of either case. */
  function HexValue(c: char): (r: Option<int>)
    ensures r.Some? ==> 0 <= r.value < 16
  {
    if '0' <= c <= '9' then Some(c as int - '0' as int)
    else if 'A' <= c <= 'F' then Some(c as int - 'A' as int + 10)
    else if 'a' <= c <= 'f' then Some(c as int - 'a' as int + 10)
    else None
  }

  function EncodeByte(b: byte): string
  {
    if Unescaped(b) then [b as char] else ['%', HexDigit(b / 16), HexDigit(b % 16)]
  }

  function EncodeBytes(bs: seq<byte>): string
  {
    if bs == [] then [] else EncodeByte(bs[0]) + EncodeBytes(bs[1..])
  }

  /** `encodeURIComponent(s)`. */
  function Encode(s: string): string
  {
    EncodeBytes(Utf8.Encode(s))
  }

  /**
   * The byte level of `decodeURIComponent`: `%XX` gives the byte `XX`, any
   * other ASCII character its own code; `None` for a `%` without two hex
   * digits after it or a character outside ASCII.
   */
  function DecodeBytes(s: string): Option<seq<byte>>
    decreases |s|
  {
    if s == [] then Some([])
    else if s[0] == '%' then
      if |s| < 3 || HexValue(s[1]).None? || HexValue(s[2]).None? then None
      else
        match DecodeBytes(s[3..])
        case None => None
        case Some(rest) => Some([HexValue(s[1]).value * 16 + HexValue(s[2]).value] + rest)
    else if s[0] as int < 0x80 then
      match DecodeBytes(s[1..])
      case None => None
      case Some(rest) => Some([s[0] as int] + rest)
    else None
  }

  /**
   * The inverse of `Encode` on its image: the escaped bytes, read back as
   * UTF-8 (`None` for a malformed escape or byte sequence).
   */
  function Decode(s: string): Option<string>
  {
    match DecodeBytes(s)
    case None => None
    case Some(bs) => Utf8.Decode(bs)
  }

  /** The characters that can appear in an encoding. */
  predicate Safe(c: char)
  {
    c == '%' || (c as int < 0x100 && Unescaped(c as int)) || HexValue(c).Some?
  }

  lemma HexDigitValue(v: int)
    requires 0 <= v < 16
    ensures HexValue(HexDigit(v)) == Some(v)
  {
  }

  lemma {:induction false} DecodeEncodeBytes(bs: seq<byte>)
    ensures DecodeBytes(EncodeBytes(bs)) == Some(bs)
  {
    if bs != [] {
      DecodeEncodeBytes(bs[1..]);
      assert EncodeBytes(bs) == EncodeByte(bs[0]) + EncodeBytes(bs[1..]);
      DecodeEncodeByte(bs[0], EncodeBytes(bs[1..]), bs[1..]);
      assert [bs[0]] + bs[1..] == bs;
    }
  }

  /** One encoded byte in front decodes to that byte in front. */
  lemma DecodeEncodeByte(b: byte, rest: string, tail: seq<byte>)
    requires DecodeBytes(rest) == Some(tail)
    ensures DecodeBytes(EncodeByte(b) + rest) == Some([b] + tail)
  {
    var s := EncodeByte(b) + rest;
    if Unescaped(b) {
      assert s[1..] == rest;
    } else {
      HexDigitValue(b / 16);
      HexDigitValue(b % 16);
      assert s[3..] == rest;
    }
  }

  /** Round trip: `decodeURIComponent(encodeURIComponent(s)) == s`. */
  lemma DecodeEncode(s: string)
    ensures Decode(Encode(s)) == Some(s)
  {
    DecodeEncodeBytes(Utf8.Encode(s));
    Utf8.DecodeEncode(s);
  }

  /** A string made only of characters left unescaped encodes to itself. */
  lemma {:induction false} EncodeUnescaped(s: string)
    requires forall i :: 0 <= i < |s| ==> s[i] as int < 0x80 && Unescaped(s[i] as int)
    ensures Encode(s) == s
  {
    if s != [] {
      EncodeUnescaped(s[1..]);
      assert Utf8.Encode(s) == [s[0] as int] + Utf8.Encode(s[1..]);
      assert Utf8.Encode(s)[1..] == Utf8.Encode(s[1..]);
      assert [s[0]] + s[1..] == s;
    }
  }

  /**
   * Every character of an encoding is safe; in particular none of the
   * delimiters `&`, `=`, `#`, `?`, `/` or a space survives, so the encoded
   * value cannot end the query parameter it is placed in.
   */
  lemma {:induction false} EncodeBytesSafe(bs: seq<byte>)
    ensures forall i :: 0 <= i < |EncodeBytes(bs)| ==> Safe(EncodeBytes(bs)[i])
    ensures forall c :: c in EncodeBytes(bs) ==> c !in "&=#?/ "
  {
    if bs != [] {
      EncodeBytesSafe(bs[1..]);
      var head := EncodeByte(bs[0]);
      var s := EncodeBytes(bs);
      forall i | 0 <= i < |s|
        ensures Safe(s[i])
      {
        if i >= |head| {
          assert s[i] == EncodeBytes(bs[1..])[i - |head|];
        } else if !Unescaped(bs[0]) && i > 0 {
          HexDigitValue(if i == 1 then bs[0] / 16 else bs[0] % 16);
        }
      }
    }
  }
}
