/**
 * The two byte-level steps of the ClearKey license URI: String.toByteArray()
 * (UTF-8) and android.util.Base64.encodeToString(..., NO_WRAP), which is the
 * Base64 encoding of section 4 of RFC 4648 with '=' padding and no line
 * breaks. A strict decoder is the partner the encoder is proved against.
 */
module Base64 {
  import opened Wrappers

  type byte = x: int | 0 <= x < 256

  /** A six-bit value. */
  type sextet = x: int | 0 <= x < 64

  /** The alphabet of Table 1 in section 4 of RFC 4648. */
  function EncodeSextet(v: sextet): char {
    if v < 26 then ('A' as int + v) as char
    else if v < 52 then ('a' as int + (v - 26)) as char
    else if v < 62 then ('0' as int + (v - 52)) as char
    else if v == 62 then '+'
    else '/'
  }

  /** The value of an alphabet character; None for anything else, the pad '=' included. */
  function DecodeSextet(c: char): Option<sextet> {
    if 'A' <= c <= 'Z' then Some(c as int - 'A' as int)
    else if 'a' <= c <= 'z' then Some(c as int - 'a' as int + 26)
    else if '0' <= c <= '9' then Some(c as int - '0' as int + 52)
    else if c == '+' then Some(62)
    else if c == '/' then Some(63)
    else None
  }

  lemma DecodeEncodeSextet(v: sextet)
    ensures DecodeSextet(EncodeSextet(v)) == Some(v)
    ensures EncodeSextet(v) != '='
  {
  }

  /** The four characters for the group b0 b1 b2 (bits 8+8+8 regrouped as 6+6+6+6). */
  function Quartet(b0: byte, b1: byte, b2: byte): string {
    [EncodeSextet(b0 / 4), EncodeSextet((b0 % 4) * 16 + b1 / 16),
     EncodeSextet((b1 % 16) * 4 + b2 / 64), EncodeSextet(b2 % 64)]
  }

  /**
   * Three bytes become four characters; a final group of one or two bytes
   * becomes two or three characters followed by "==" or "=".
   */
  function Encode(bs: seq<byte>): (r: string)
    decreases |bs|
  {
    if |bs| == 0 then ""
    else if |bs| == 1 then
      [EncodeSextet(bs[0] / 4), EncodeSextet((bs[0] % 4) * 16), '=', '=']
    else if |bs| == 2 then
      [EncodeSextet(bs[0] / 4), EncodeSextet((bs[0] % 4) * 16 + bs[1] / 16), EncodeSextet((bs[1] % 16) * 4), '=']
    else Quartet(bs[0], bs[1], bs[2]) + Encode(bs[3..])
  }

  /** The three bytes that four sextets carry. */
  function Bytes(x: sextet, y: sextet, z: sextet, w: sextet): seq<byte> {
    var r: seq<byte> := [x * 4 + y / 16, (y % 16) * 16 + z / 4, (z % 4) * 64 + w];
    r
  }

  /** A complete quartet of alphabet characters. */
  function DecodeQuartet(a: char, b: char, c: char, d: char): Option<seq<byte>> {
    match (DecodeSextet(a), DecodeSextet(b), DecodeSextet(c), DecodeSextet(d))
    case (Some(x), Some(y), Some(z), Some(w)) => Some(Bytes(x, y, z, w))
    case _ => None
  }

  /** The final quartet: a complete one, or two data characters and "==", or three and "=", with the unused bits zero. */
  function DecodeLast(a: char, b: char, c: char, d: char): Option<seq<byte>> {
    match (DecodeSextet(a), DecodeSextet(b), DecodeSextet(c), DecodeSextet(d))
    case (Some(x), Some(y), Some(z), Some(w)) => Some(Bytes(x, y, z, w))
    case (Some(x), Some(y), Some(z), None) =>
      if d == '=' && z % 4 == 0 then Some(Bytes(x, y, z, 0)[..2]) else None
    case (Some(x), Some(y), None, None) =>
      if c == '=' && d == '=' && y % 16 == 0 then Some(Bytes(x, y, 0, 0)[..1]) else None
    case _ => None
  }

  /** Strict decoding: a multiple of four characters, padding only at the very end, no other characters. */
  function Decode(s: string): Option<seq<byte>>
    decreases |s|
  {
    if |s| == 0 then Some([])
    else if |s| < 4 then None
    else if |s| == 4 then DecodeLast(s[0], s[1], s[2], s[3])
    else
      match (DecodeQuartet(s[0], s[1], s[2], s[3]), Decode(s[4..]))
      case (Some(head), Some(rest)) => Some(head + rest)
      case _ => None
  }

  /** Encoding length: four characters per started group of three bytes. */
  lemma {:induction false} EncodeLength(bs: seq<byte>)
    ensures |Encode(bs)| == 4 * ((|bs| + 2) / 3)
    decreases |bs|
  {
    if |bs| > 2 {
      EncodeLength(bs[3..]);
      assert (|bs| + 2) / 3 == (|bs[3..]| + 2) / 3 + 1;
    }
  }

  /** Decoding undoes encoding: the bytes come back exactly. */
  lemma {:induction false} DecodeEncode(bs: seq<byte>)
    ensures Decode(Encode(bs)) == Some(bs)
    decreases |bs|
  {
    if |bs| == 0 {
    } else if |bs| <= 2 {
      ShortGroup(bs);
    } else if |bs| == 3 {
      LastFullGroup(bs);
    } else {
      DecodeEncode(bs[3..]);
      GroupThenMore(bs);
    }
  }

  lemma LastFullGroup(bs: seq<byte>)
    requires |bs| == 3
    ensures Decode(Encode(bs)) == Some(bs)
  {
    var q := Quartet(bs[0], bs[1], bs[2]);
    QuartetRoundTrip(bs[0], bs[1], bs[2]);
    assert Encode(bs) == q;
    assert bs == [bs[0], bs[1], bs[2]];
    assert DecodeLast(q[0], q[1], q[2], q[3]) == DecodeQuartet(q[0], q[1], q[2], q[3]);
  }

  lemma GroupThenMore(bs: seq<byte>)
    requires |bs| > 3 && Decode(Encode(bs[3..])) == Some(bs[3..])
    ensures Decode(Encode(bs)) == Some(bs)
  {
    var q := Quartet(bs[0], bs[1], bs[2]);
    QuartetRoundTrip(bs[0], bs[1], bs[2]);
    EncodeLength(bs[3..]);
    assert Encode(bs) == q + Encode(bs[3..]);
    DecodeCons(q, Encode(bs[3..]));
    assert Decode(Encode(bs)) == Some([bs[0], bs[1], bs[2]] + bs[3..]);
    SplitThree(bs);
  }

  lemma SplitThree<T>(s: seq<T>)
    requires |s| >= 3
    ensures s == [s[0], s[1], s[2]] + s[3..]
  {
    assert s[..3] == [s[0], s[1], s[2]];
    assert s[..3] + s[3..] == s;
  }

  /** Decoding a complete quartet followed by more text. */
  lemma DecodeCons(q: string, rest: string)
    requires |q| == 4 && |rest| > 0
    ensures Decode(q + rest) ==
              match (DecodeQuartet(q[0], q[1], q[2], q[3]), Decode(rest))
              case (Some(head), Some(tail)) => Some(head + tail)
              case _ => None
  {
    var s := q + rest;
    assert s[4..] == rest;
    assert s[0] == q[0] && s[1] == q[1] && s[2] == q[2] && s[3] == q[3];
  }

  lemma QuartetRoundTrip(b0: byte, b1: byte, b2: byte)
    ensures var q := Quartet(b0, b1, b2);
            DecodeQuartet(q[0], q[1], q[2], q[3]) == Some([b0, b1, b2])
  {
    var x, y, z, w := b0 / 4, (b0 % 4) * 16 + b1 / 16, (b1 % 16) * 4 + b2 / 64, b2 % 64;
    DecodeEncodeSextet(x);
    DecodeEncodeSextet(y);
    DecodeEncodeSextet(z);
    DecodeEncodeSextet(w);
    assert Bytes(x, y, z, w) == [b0, b1, b2];
  }

  lemma ShortGroup(bs: seq<byte>)
    requires 1 <= |bs| <= 2
    ensures Decode(Encode(bs)) == Some(bs)
  {
    if |bs| == 1 {
      OneByte(bs[0]);
      assert bs == [bs[0]];
    } else {
      TwoBytes(bs[0], bs[1]);
      assert bs == [bs[0], bs[1]];
    }
  }

  lemma OneByte(b0: byte)
    ensures Decode(Encode([b0])) == Some([b0])
  {
    var x, y := b0 / 4, (b0 % 4) * 16;
    var e := Encode([b0]);
    assert e == [EncodeSextet(x), EncodeSextet(y), '=', '='];
    DecodeEncodeSextet(x);
    DecodeEncodeSextet(y);
    assert Bytes(x, y, 0, 0)[..1] == [b0];
  }

  lemma TwoBytes(b0: byte, b1: byte)
    ensures Decode(Encode([b0, b1])) == Some([b0, b1])
  {
    var x, y, z := b0 / 4, (b0 % 4) * 16 + b1 / 16, (b1 % 16) * 4;
    var e := Encode([b0, b1]);
    assert e == [EncodeSextet(x), EncodeSextet(y), EncodeSextet(z), '='];
    DecodeEncodeSextet(x);
    DecodeEncodeSextet(y);
    DecodeEncodeSextet(z);
    assert Bytes(x, y, z, 0)[..2] == [b0, b1];
  }

  /** Every character of an encoding is from the alphabet or the pad. */
  lemma {:induction false} EncodeAlphabet(bs: seq<byte>)
    ensures forall k :: 0 <= k < |Encode(bs)| ==> Encode(bs)[k] == '=' || DecodeSextet(Encode(bs)[k]).Some?
    decreases |bs|
  {
    if |bs| > 2 {
      EncodeAlphabet(bs[3..]);
    }
  }

  // -------------------------------------------------------------------
  // String.toByteArray(): UTF-8
  // -------------------------------------------------------------------

  /** The UTF-8 form of one Unicode scalar value (section 3 of RFC 3629). */
  function Utf8Char(c: char): (r: seq<byte>)
    ensures 1 <= |r| <= 4
  {
    var n := c as int;
    if n < 0x80 then [n]
    else if n < 0x800 then [0xC0 + n / 0x40, 0x80 + n % 0x40]
    else if n < 0x10000 then [0xE0 + n / 0x1000, 0x80 + (n / 0x40) % 0x40, 0x80 + n % 0x40]
    else [0xF0 + n / 0x40000, 0x80 + (n / 0x1000) % 0x40, 0x80 + (n / 0x40) % 0x40, 0x80 + n % 0x40]
  }

  /** The scalar value a one-to-four-byte UTF-8 sequence carries in its payload bits. */
  function Utf8CharValue(r: seq<byte>): int
    requires 1 <= |r| <= 4
  {
    var b := seq(|r|, k requires 0 <= k < |r| => r[k] as int);
    if |b| == 1 then b[0]
    else if |b| == 2 then (b[0] - 0xC0) * 0x40 + (b[1] - 0x80)
    else if |b| == 3 then (b[0] - 0xE0) * 0x1000 + (b[1] - 0x80) * 0x40 + (b[2] - 0x80)
    else (b[0] - 0xF0) * 0x40000 + (b[1] - 0x80) * 0x1000 + (b[2] - 0x80) * 0x40 + (b[3] - 0x80)
  }

  /**
   * The bytes of one character are UTF-8: one byte below 0x80, else a lead
   * byte that announces the length (C0..DF, E0..EF, F0..F4) followed by
   * continuation bytes 80..BF, whose payload bits give back the character.
   */
  lemma Utf8CharBytes(c: char)
    ensures var n, r := c as int, Utf8Char(c);
            && (n < 0x80 ==> |r| == 1 && r[0] == n)
            && (0x80 <= n < 0x800 ==> |r| == 2 && 0xC0 <= r[0] <= 0xDF)
            && (0x800 <= n < 0x10000 ==> |r| == 3 && 0xE0 <= r[0] <= 0xEF)
            && (0x10000 <= n ==> |r| == 4 && 0xF0 <= r[0] <= 0xF4)
            && (forall k :: 1 <= k < |r| ==> 0x80 <= r[k] <= 0xBF)
            && Utf8CharValue(r) == n
  {
    var n := c as int;
    if n < 0x80 {
    } else if n < 0x800 {
      TwoByteChar(n);
    } else if n < 0x10000 {
      ThreeByteChar(n);
    } else {
      assert n <= 0x10FFFF;
      FourByteChar(n);
    }
  }

  lemma TwoByteChar(n: int)
    requires 0x80 <= n < 0x800
    ensures 0xC0 <= 0xC0 + n / 0x40 <= 0xDF
    ensures (0xC0 + n / 0x40 - 0xC0) * 0x40 + (0x80 + n % 0x40 - 0x80) == n
  {
  }

  lemma ThreeByteChar(n: int)
    requires 0x800 <= n < 0x10000
    ensures 0xE0 <= 0xE0 + n / 0x1000 <= 0xEF
    ensures (n / 0x1000) * 0x1000 + ((n / 0x40) % 0x40) * 0x40 + n % 0x40 == n
  {
    var h, m := n / 0x1000, n / 0x40;
    assert m == h * 0x40 + m % 0x40;
    assert n == m * 0x40 + n % 0x40;
  }

  lemma FourByteChar(n: int)
    requires 0x10000 <= n <= 0x10FFFF
    ensures 0xF0 <= 0xF0 + n / 0x40000 <= 0xF4
    ensures (n / 0x40000) * 0x40000 + ((n / 0x1000) % 0x40) * 0x1000 + ((n / 0x40) % 0x40) * 0x40 + n % 0x40 == n
  {
    var h, t, m := n / 0x40000, n / 0x1000, n / 0x40;
    assert t == h * 0x40 + t % 0x40;
    assert m == t * 0x40 + m % 0x40;
    assert n == m * 0x40 + n % 0x40;
  }

  function Utf8(s: string): seq<byte> {
    if |s| == 0 then [] else Utf8Char(s[0]) + Utf8(s[1..])
  }

  lemma {:induction false} Utf8Append(a: string, b: string)
    ensures Utf8(a + b) == Utf8(a) + Utf8(b)
  {
    if |a| > 0 {
      assert (a + b)[1..] == a[1..] + b;
      Utf8Append(a[1..], b);
    } else {
      assert a + b == b;
    }
  }

  /** On ASCII text, UTF-8 is one byte per character, the character's code. */
  lemma {:induction false} Utf8Ascii(s: string)
    requires forall k :: 0 <= k < |s| ==> s[k] as int < 0x80
    ensures |Utf8(s)| == |s|
    ensures forall k :: 0 <= k < |s| ==> Utf8(s)[k] == s[k] as int
  {
    if |s| > 0 {
      Utf8Ascii(s[1..]);
    }
  }
}
