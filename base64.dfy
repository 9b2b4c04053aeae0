/**
 * Base64 with the standard alphabet and `=` padding (section 4 of RFC 4648),
 * the encoding of the audio payload sent to the Whisper worker.
 *
 * The decoder is the strict one: it accepts exactly the strings the encoder
 * produces (length a multiple of four, alphabet characters only, padding only
 * at the end, unused bits zero), so the two are inverse bijections.
 */
module Base64 {
  import opened Wrappers

  type Byte = bv8

  /** A 6-bit value, the index of an alphabet character. */
  type Sextet = b: bv8 | b < 64

  const Pad: char := '='

  /** The alphabet character for a 6-bit value (Table 1 of RFC 4648). */
  function CharOf(i: Sextet): char {
    if i < 26 then ('A' as int + i as int) as char
    else if i < 52 then ('a' as int + (i as int - 26)) as char
    else if i < 62 then ('0' as int + (i as int - 52)) as char
    else if i == 62 then '+'
    else '/'
  }

  /** The 6-bit value of an alphabet character; `None` for any other character, `=` included. */
  function IndexOf(c: char): Option<Sextet> {
    if 'A' <= c <= 'Z' then Some((c as int - 'A' as int) as bv8)
    else if 'a' <= c <= 'z' then Some((c as int - 'a' as int + 26) as bv8)
    else if '0' <= c <= '9' then Some((c as int - '0' as int + 52) as bv8)
    else if c == '+' then Some(62)
    else if c == '/' then Some(63)
    else None
  }

  /** Every alphabet character is the character of its own value. */
  lemma CharOfIndexOf(c: char)
    requires IndexOf(c).Some?
    ensures CharOf(IndexOf(c).value) == c
  {
    if 'A' <= c <= 'Z' {
      RunInverse(c, 'A', 0);
    } else if 'a' <= c <= 'z' {
      RunInverse(c, 'a', 26);
    } else if '0' <= c <= '9' {
      RunInverse(c, '0', 52);
    }
  }

  /** Within one run of the alphabet (upper case, lower case, digits) the value maps back to the character. */
  lemma RunInverse(c: char, first: char, base: int)
    requires (first == 'A' && base == 0 && 'A' <= c <= 'Z') || (first == 'a' && base == 26 && 'a' <= c <= 'z') ||
             (first == '0' && base == 52 && '0' <= c <= '9')
    ensures IndexOf(c).Some? && IndexOf(c).value as int == base + (c as int - first as int)
    ensures CharOf(IndexOf(c).value) == c
  {
    var k := c as int - first as int;
    SmallCast(base + k);
    assert IndexOf(c) == Some((base + k) as bv8);
  }

  /** A number below 64 survives the round trip through a byte. */
  lemma SmallCast(k: int)
    requires 0 <= k < 64
    ensures (k as bv8) as int == k
  {
    if k < 8 { } else if k < 16 { } else if k < 24 { } else if k < 32 { }
    else if k < 40 { } else if k < 48 { } else if k < 56 { } else { }
  }

  predicate InAlphabet(c: char) {
    IndexOf(c).Some?
  }

  /** Every 6-bit value has its own character, which decodes back to it. */
  lemma IndexOfCharOf(i: Sextet)
    ensures IndexOf(CharOf(i)) == Some(i)
  {
    if i < 26 {
      assert CharOf(i) == ('A' as int + i as int) as char;
    } else if i < 52 {
      assert CharOf(i) == ('a' as int + (i as int - 26)) as char;
    } else if i < 62 {
      assert CharOf(i) == ('0' as int + (i as int - 52)) as char;
    }
  }

  /** The four characters of a full group of three bytes. */
  function EncodeGroup(b0: Byte, b1: Byte, b2: Byte): (g: string)
    ensures |g| == 4 {
    [CharOf(b0 >> 2), CharOf(((b0 & 3) << 4) | (b1 >> 4)), CharOf(((b1 & 15) << 2) | (b2 >> 6)), CharOf(b2 & 63)]
  }

  /** A final group of one byte: two characters and two pads. */
  function EncodeOne(b0: Byte): (g: string)
    ensures |g| == 4 {
    [CharOf(b0 >> 2), CharOf((b0 & 3) << 4), Pad, Pad]
  }

  /** A final group of two bytes: three characters and one pad. */
  function EncodeTwo(b0: Byte, b1: Byte): (g: string)
    ensures |g| == 4 {
    [CharOf(b0 >> 2), CharOf(((b0 & 3) << 4) | (b1 >> 4)), CharOf((b1 & 15) << 2), Pad]
  }

  /** `base64.b64encode`. */
  function Encode(data: seq<Byte>): (s: string)
    ensures |s| % 4 == 0
    decreases |data|
  {
    if |data| == 0 then ""
    else if |data| == 1 then EncodeOne(data[0])
    else if |data| == 2 then EncodeTwo(data[0], data[1])
    else EncodeGroup(data[0], data[1], data[2]) + Encode(data[3..])
  }

  /** Bytes of a group of four alphabet characters. */
  function DecodeGroup(c0: Sextet, c1: Sextet, c2: Sextet, c3: Sextet): seq<Byte> {
    [(c0 << 2) | (c1 >> 4), ((c1 & 15) << 4) | (c2 >> 2), ((c2 & 3) << 6) | c3]
  }

  /** Strict decoding; `None` when the string is not an encoder output. */
  function Decode(s: string): Option<seq<Byte>>
    decreases |s|
  {
    if |s| == 0 then Some([])
    else if |s| < 4 then None
    else
      var i0, i1, i2, i3 := IndexOf(s[0]), IndexOf(s[1]), IndexOf(s[2]), IndexOf(s[3]);
      if i0.None? || i1.None? then None
      else if |s| == 4 && s[2] == Pad && s[3] == Pad then
        if i1.value & 15 == 0 then Some([(i0.value << 2) | (i1.value >> 4)]) else None
      else if |s| == 4 && i2.Some? && s[3] == Pad then
        if i2.value & 3 == 0 then Some([(i0.value << 2) | (i1.value >> 4), ((i1.value & 15) << 4) | (i2.value >> 2)]) else None
      else if i2.None? || i3.None? then None
      else match Decode(s[4..])
        case None => None
        case Some(rest) => Some(DecodeGroup(i0.value, i1.value, i2.value, i3.value) + rest)
  }

  /** Splitting three bytes into four sextets and joining them again gives the bytes back. */
  lemma GroupBits(b0: Byte, b1: Byte, b2: Byte)
    ensures DecodeGroup(b0 >> 2, ((b0 & 3) << 4) | (b1 >> 4), ((b1 & 15) << 2) | (b2 >> 6), b2 & 63) == [b0, b1, b2]
  {
    assert ((b0 >> 2) << 2) | ((((b0 & 3) << 4) | (b1 >> 4)) >> 4) == b0;
    assert (((((b0 & 3) << 4) | (b1 >> 4)) & 15) << 4) | ((((b1 & 15) << 2) | (b2 >> 6)) >> 2) == b1;
    assert (((((b1 & 15) << 2) | (b2 >> 6)) & 3) << 6) | (b2 & 63) == b2;
  }

  /** A lone final byte survives its two characters, whose unused bits are zero. */
  lemma OneBits(b0: Byte)
    ensures ((b0 >> 2) << 2) | (((b0 & 3) << 4) >> 4) == b0
    ensures ((b0 & 3) << 4) & 15 == 0
  {
  }

  /** Two final bytes survive their three characters, whose unused bits are zero. */
  lemma TwoBits(b0: Byte, b1: Byte)
    ensures ((b0 >> 2) << 2) | ((((b0 & 3) << 4) | (b1 >> 4)) >> 4) == b0
    ensures (((((b0 & 3) << 4) | (b1 >> 4)) & 15) << 4) | (((b1 & 15) << 2) >> 2) == b1
    ensures ((b1 & 15) << 2) & 3 == 0
  {
  }

  /** Joining four sextets into three bytes and splitting them again gives the sextets back. */
  lemma SextetBits(c0: Sextet, c1: Sextet, c2: Sextet, c3: Sextet)
    ensures var d := DecodeGroup(c0, c1, c2, c3);
      d[0] >> 2 == c0 && ((d[0] & 3) << 4) | (d[1] >> 4) == c1 && ((d[1] & 15) << 2) | (d[2] >> 6) == c2 && d[2] & 63 == c3
  {
  }

  /** Joining two sextets (the last with four zero bits) into a byte and splitting it again gives them back. */
  lemma OneSextetBits(c0: Sextet, c1: Sextet)
    requires c1 & 15 == 0
    ensures var b0: Byte := (c0 << 2) | (c1 >> 4); b0 >> 2 == c0 && (b0 & 3) << 4 == c1
  {
  }

  /** Joining three sextets (the last with two zero bits) into two bytes and splitting them again gives them back. */
  lemma TwoSextetBits(c0: Sextet, c1: Sextet, c2: Sextet)
    requires c2 & 3 == 0
    ensures var b0: Byte := (c0 << 2) | (c1 >> 4);
      var b1: Byte := ((c1 & 15) << 4) | (c2 >> 2);
      b0 >> 2 == c0 && ((b0 & 3) << 4) | (b1 >> 4) == c1 && (b1 & 15) << 2 == c2
  {
  }

  /** A string opening with four alphabet characters decodes as that group followed by the rest. */
  lemma DecodeFullGroup(s: string)
    requires |s| >= 4 && InAlphabet(s[0]) && InAlphabet(s[1]) && InAlphabet(s[2]) && InAlphabet(s[3])
    ensures Decode(s) ==
      if Decode(s[4..]).None? then None
      else Some(DecodeGroup(IndexOf(s[0]).value, IndexOf(s[1]).value, IndexOf(s[2]).value, IndexOf(s[3]).value) + Decode(s[4..]).value)
  {
    assert s[3] != Pad;
  }

  /** A lone final byte decodes back from its padded group. */
  lemma DecodeEncodeOne(b0: Byte)
    ensures Decode(EncodeOne(b0)) == Some([b0])
  {
    var c0: Sextet, c1: Sextet := b0 >> 2, (b0 & 3) << 4;
    OneBits(b0);
    IndexOfCharOf(c0);
    IndexOfCharOf(c1);
    var s := [CharOf(c0), CharOf(c1), Pad, Pad];
    assert EncodeOne(b0) == s;
    DecodeOnePadded(s);
  }

  /** A four-character group ending in two pads decodes to one byte when its second character has four zero low bits. */
  lemma DecodeOnePadded(s: string)
    requires |s| == 4 && InAlphabet(s[0]) && InAlphabet(s[1]) && s[2] == Pad && s[3] == Pad
    requires IndexOf(s[1]).value & 15 == 0
    ensures var c0, c1 := IndexOf(s[0]).value, IndexOf(s[1]).value;
      Decode(s) == Some([(c0 << 2) | (c1 >> 4)])
  {
  }

  /** Two final bytes decode back from their padded group. */
  lemma DecodeEncodeTwo(b0: Byte, b1: Byte)
    ensures Decode(EncodeTwo(b0, b1)) == Some([b0, b1])
  {
    var c0: Sextet, c1: Sextet, c2: Sextet := b0 >> 2, ((b0 & 3) << 4) | (b1 >> 4), (b1 & 15) << 2;
    TwoBits(b0, b1);
    IndexOfCharOf(c0);
    IndexOfCharOf(c1);
    IndexOfCharOf(c2);
    var s := [CharOf(c0), CharOf(c1), CharOf(c2), Pad];
    assert EncodeTwo(b0, b1) == s;
    assert IndexOf(s[0]).value == c0 && IndexOf(s[1]).value == c1 && IndexOf(s[2]).value == c2;
    DecodeTwoPadded(s);
  }

  /** A four-character group ending in one pad decodes to two bytes when its third character has two zero low bits. */
  lemma DecodeTwoPadded(s: string)
    requires |s| == 4 && InAlphabet(s[0]) && InAlphabet(s[1]) && InAlphabet(s[2]) && s[3] == Pad
    requires IndexOf(s[2]).value & 3 == 0
    ensures var c0, c1, c2 := IndexOf(s[0]).value, IndexOf(s[1]).value, IndexOf(s[2]).value;
      Decode(s) == Some([(c0 << 2) | (c1 >> 4), ((c1 & 15) << 4) | (c2 >> 2)])
  {
    assert s[2] != Pad;
  }

  /** A full group followed by more text decodes as its three bytes followed by the rest's decoding. */
  lemma DecodeEncodeGroup(b0: Byte, b1: Byte, b2: Byte, rest: string)
    ensures Decode(EncodeGroup(b0, b1, b2) + rest) == if Decode(rest).None? then None else Some([b0, b1, b2] + Decode(rest).value)
  {
    var g := EncodeGroup(b0, b1, b2);
    IndexOfCharOf(b0 >> 2);
    IndexOfCharOf(((b0 & 3) << 4) | (b1 >> 4));
    IndexOfCharOf(((b1 & 15) << 2) | (b2 >> 6));
    IndexOfCharOf(b2 & 63);
    assert (g + rest)[4..] == rest;
    DecodeFullGroup(g + rest);
    GroupBits(b0, b1, b2);
  }

  /** The strict decoder inverts the encoder: the worker recovers exactly the bytes that were sent. */
  lemma {:induction false} DecodeEncode(data: seq<Byte>)
    ensures Decode(Encode(data)) == Some(data)
    decreases |data|
  {
    if |data| == 1 {
      DecodeEncodeOne(data[0]);
      assert data == [data[0]];
    } else if |data| == 2 {
      DecodeEncodeTwo(data[0], data[1]);
      assert data == [data[0], data[1]];
    } else if |data| > 2 {
      SplitThree(data);
      DecodeEncode(data[3..]);
      DecodeEncodeGroup(data[0], data[1], data[2], Encode(data[3..]));
    }
  }

  /** A sequence of three or more elements is its first three followed by the rest. */
  lemma SplitThree(data: seq<Byte>)
    requires |data| > 2
    ensures data == [data[0], data[1], data[2]] + data[3..]
  {
    assert data == data[..3] + data[3..];
  }

  /** A final group with two pads encodes back to itself. */
  lemma EncodeDecodeOne(s: string)
    requires |s| == 4 && s[2] == Pad && s[3] == Pad && Decode(s).Some?
    ensures Encode(Decode(s).value) == s
  {
    OneSextetBits(IndexOf(s[0]).value, IndexOf(s[1]).value);
    CharOfIndexOf(s[0]);
    CharOfIndexOf(s[1]);
  }

  /** A final group with one pad encodes back to itself. */
  lemma EncodeDecodeTwo(s: string)
    requires |s| == 4 && s[2] != Pad && s[3] == Pad && Decode(s).Some?
    ensures Encode(Decode(s).value) == s
  {
    assert InAlphabet(s[0]) && InAlphabet(s[1]) && InAlphabet(s[2]) && IndexOf(s[2]).value & 3 == 0;
    DecodeTwoPadded(s);
    EncodeTwoBack(IndexOf(s[0]).value, IndexOf(s[1]).value, IndexOf(s[2]).value);
    CharOfIndexOf(s[0]);
    CharOfIndexOf(s[1]);
    CharOfIndexOf(s[2]);
    assert s == [s[0], s[1], s[2], Pad];
  }

  /** Two bytes joined from three sextets (the last with two zero bits) encode as those sextets' characters and a pad. */
  lemma EncodeTwoBack(c0: Sextet, c1: Sextet, c2: Sextet)
    requires c2 & 3 == 0
    ensures Encode([(c0 << 2) | (c1 >> 4), ((c1 & 15) << 4) | (c2 >> 2)]) == [CharOf(c0), CharOf(c1), CharOf(c2), Pad]
  {
    var b0: Byte := (c0 << 2) | (c1 >> 4);
    var b1: Byte := ((c1 & 15) << 4) | (c2 >> 2);
    TwoSextetBits(c0, c1, c2);
    assert Encode([b0, b1]) == EncodeTwo(b0, b1);
  }

  /** What an accepted, non-empty string looks like: a final padded group, or a full group followed by an accepted rest. */
  lemma DecodeCases(s: string)
    requires |s| > 0 && Decode(s).Some?
    ensures |s| >= 4
    ensures (|s| == 4 && s[3] == Pad) ||
            (InAlphabet(s[0]) && InAlphabet(s[1]) && InAlphabet(s[2]) && InAlphabet(s[3]) && Decode(s[4..]).Some?)
  {
  }

  /** Conversely, every string the strict decoder accepts is the encoding of what it decodes to. */
  lemma {:induction false} EncodeDecode(s: string)
    requires Decode(s).Some?
    ensures Encode(Decode(s).value) == s
    decreases |s|
  {
    if |s| == 0 {
    } else {
      DecodeCases(s);
      if |s| == 4 && s[3] == Pad && s[2] == Pad {
        EncodeDecodeOne(s);
      } else if |s| == 4 && s[3] == Pad {
        EncodeDecodeTwo(s);
      } else {
        var c0, c1, c2, c3 := IndexOf(s[0]).value, IndexOf(s[1]).value, IndexOf(s[2]).value, IndexOf(s[3]).value;
        DecodeFullGroup(s);
        assert Decode(s).value == DecodeGroup(c0, c1, c2, c3) + Decode(s[4..]).value;
        CharOfIndexOf(s[0]);
        CharOfIndexOf(s[1]);
        CharOfIndexOf(s[2]);
        CharOfIndexOf(s[3]);
        EncodeDecode(s[4..]);
        EncodeDecodeGroup(c0, c1, c2, c3, Decode(s[4..]).value);
        assert s == [s[0], s[1], s[2], s[3]] + s[4..];
      }
    }
  }

  /** A full group of decoded bytes, followed by more, encodes as the group's four characters followed by the rest's encoding. */
  lemma EncodeDecodeGroup(c0: Sextet, c1: Sextet, c2: Sextet, c3: Sextet, rest: seq<Byte>)
    ensures Encode(DecodeGroup(c0, c1, c2, c3) + rest) == [CharOf(c0), CharOf(c1), CharOf(c2), CharOf(c3)] + Encode(rest)
  {
    var d := DecodeGroup(c0, c1, c2, c3);
    var x := d + rest;
    assert x[0] == d[0] && x[1] == d[1] && x[2] == d[2] && x[3..] == rest;
    assert Encode(x) == EncodeGroup(d[0], d[1], d[2]) + Encode(rest);
    SextetBits(c0, c1, c2, c3);
  }

  /** Every three bytes become four characters, a final one or two bytes a padded group of four. */
  lemma {:induction false} EncodeLength(data: seq<Byte>)
    ensures |Encode(data)| == 4 * ((|data| + 2) / 3)
    decreases |data|
  {
    if |data| > 2 {
      EncodeLength(data[3..]);
    }
  }
}
