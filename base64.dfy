/**
 * Base64 with the standard alphabet and `=` padding, as section 4 of RFC 4648
 * defines it. Decoding is strict: the length must be a multiple of four, padding
 * may only close the last group, and the unused bits before the padding must be
 * zero.
 */
module Base64 {
  import opened Wrappers
  import opened Bytes

  /** The padding character `=`. */
  const PAD: Byte := 61

  /** The 64 characters of the alphabet of RFC 4648, section 4. */
  predicate IsAlphabet(c: Byte)
  {
    IsAsciiAlpha(c) || IsAsciiDigit(c) || c == 43 || c == 47
  }

  /** The character that encodes the 6-bit value `v`. */
  function CharOf(v: int): (c: Byte)
    requires 0 <= v < 64
    ensures IsAlphabet(c) && c != PAD
    ensures ValueOf(c) == v
  {
    if v < 26 then 65 + v
    else if v < 52 then 97 + (v - 26)
    else if v < 62 then 48 + (v - 52)
    else if v == 62 then 43
    else 47
  }

  /** The 6-bit value an alphabet character stands for. */
  function ValueOf(c: Byte): (v: int)
    requires IsAlphabet(c)
    ensures 0 <= v < 64
  {
    if 65 <= c <= 90 then c - 65
    else if 97 <= c <= 122 then c - 97 + 26
    else if 48 <= c <= 57 then c - 48 + 52
    else if c == 43 then 62
    else 63
  }

  //---- Encoding --------------------------------------------------------------

  /** Three octets as four characters: their 24 bits cut into four 6-bit values. */
  function EncodeGroup(b0: Byte, b1: Byte, b2: Byte): seq<Byte>
  {
    [CharOf(b0 / 4), CharOf(b0 % 4 * 16 + b1 / 16), CharOf(b1 % 16 * 4 + b2 / 64), CharOf(b2 % 64)]
  }

  /** A final single octet: two characters and two pads. */
  function EncodeOne(b0: Byte): seq<Byte>
  {
    [CharOf(b0 / 4), CharOf(b0 % 4 * 16), PAD, PAD]
  }

  /** Two final octets: three characters and one pad. */
  function EncodeTwo(b0: Byte, b1: Byte): seq<Byte>
  {
    [CharOf(b0 / 4), CharOf(b0 % 4 * 16 + b1 / 16), CharOf(b1 % 16 * 4), PAD]
  }

  /** True of the characters an encoding is made of. */
  predicate IsEncodingChar(c: Byte) { IsAlphabet(c) || c == PAD }

  /** The padded Base64 encoding of `s`. */
  function Encode(s: seq<Byte>): (r: seq<Byte>)
    ensures |r| % 4 == 0 && (|r| == 0 <==> |s| == 0)
    ensures forall i :: 0 <= i < |r| ==> IsEncodingChar(r[i])
    decreases |s|
  {
    if |s| == 0 then []
    else if |s| == 1 then EncodeOne(s[0])
    else if |s| == 2 then EncodeTwo(s[0], s[1])
    else EncodeGroup(s[0], s[1], s[2]) + Encode(s[3..])
  }

  //---- Decoding --------------------------------------------------------------

  /** Four alphabet characters as three octets: four 6-bit values joined into 24 bits. */
  function DecodeGroup(c0: Byte, c1: Byte, c2: Byte, c3: Byte): Option<seq<Byte>>
  {
    if IsAlphabet(c0) && IsAlphabet(c1) && IsAlphabet(c2) && IsAlphabet(c3) then
      var v0, v1, v2, v3 := ValueOf(c0), ValueOf(c1), ValueOf(c2), ValueOf(c3);
      Some([v0 * 4 + v1 / 16, v1 % 16 * 16 + v2 / 4, v2 % 4 * 64 + v3])
    else
      None
  }

  /** The last group, which may carry one or two pads; the bits the pads stand over must be zero. */
  function DecodeFinal(c0: Byte, c1: Byte, c2: Byte, c3: Byte): Option<seq<Byte>>
  {
    if c2 == PAD && c3 == PAD then
      if IsAlphabet(c0) && IsAlphabet(c1) && ValueOf(c1) % 16 == 0 then
        Some([ValueOf(c0) * 4 + ValueOf(c1) / 16])
      else
        None
    else if c3 == PAD then
      if IsAlphabet(c0) && IsAlphabet(c1) && IsAlphabet(c2) && ValueOf(c2) % 4 == 0 then
        var v0, v1, v2 := ValueOf(c0), ValueOf(c1), ValueOf(c2);
        Some([v0 * 4 + v1 / 16, v1 % 16 * 16 + v2 / 4])
      else
        None
    else
      DecodeGroup(c0, c1, c2, c3)
  }

  /** Decodes `s`, or None when `s` is not a padded Base64 encoding. */
  function Decode(s: seq<Byte>): (r: Option<seq<Byte>>)
    ensures r.Some? ==> |s| % 4 == 0
    decreases |s|
  {
    if |s| == 0 then Some([])
    else if |s| < 4 then None
    else if |s| == 4 then DecodeFinal(s[0], s[1], s[2], s[3])
    else
      match DecodeGroup(s[0], s[1], s[2], s[3])
      case None => None
      case Some(g) =>
        match Decode(s[4..])
        case None => None
        case Some(rest) => Some(g + rest)
  }

  //---- Round trip --------------------------------------------------------------

  lemma GroupRoundTrip(b0: Byte, b1: Byte, b2: Byte)
    ensures var e := EncodeGroup(b0, b1, b2); DecodeGroup(e[0], e[1], e[2], e[3]) == Some([b0, b1, b2])
  {
    var q0, r0, q1, r1, q2, r2 := b0 / 4, b0 % 4, b1 / 16, b1 % 16, b2 / 64, b2 % 64;
    assert b0 == q0 * 4 + r0 && b1 == q1 * 16 + r1 && b2 == q2 * 64 + r2;
    assert q1 < 16 && q2 < 4;
    var e := EncodeGroup(b0, b1, b2);
    assert ValueOf(e[0]) == q0 && ValueOf(e[1]) == r0 * 16 + q1;
    assert ValueOf(e[2]) == r1 * 4 + q2 && ValueOf(e[3]) == r2;
    SplitJoin16(r0, q1);
    SplitJoin4(r1, q2);
  }

  /** Cutting `hi * 16 + lo` at 16 gives back its two parts. */
  lemma SplitJoin16(hi: nat, lo: nat)
    requires lo < 16
    ensures (hi * 16 + lo) / 16 == hi && (hi * 16 + lo) % 16 == lo
  {
  }

  /** Cutting `hi * 4 + lo` at 4 gives back its two parts. */
  lemma SplitJoin4(hi: nat, lo: nat)
    requires lo < 4
    ensures (hi * 4 + lo) / 4 == hi && (hi * 4 + lo) % 4 == lo
  {
  }

  lemma OneRoundTrip(b0: Byte)
    ensures var e := EncodeOne(b0); DecodeFinal(e[0], e[1], e[2], e[3]) == Some([b0])
  {
  }

  lemma TwoRoundTrip(b0: Byte, b1: Byte)
    ensures var e := EncodeTwo(b0, b1); DecodeFinal(e[0], e[1], e[2], e[3]) == Some([b0, b1])
  {
    SplitJoin16(b0 % 4, b1 / 16);
  }

  /** Decoding undoes encoding, for every octet string. */
  lemma {:induction false} DecodeEncode(s: seq<Byte>)
    ensures Decode(Encode(s)) == Some(s)
    decreases |s|
  {
    if |s| == 0 {
    } else if |s| == 1 {
      OneRoundTrip(s[0]);
      assert s == [s[0]];
    } else if |s| == 2 {
      TwoRoundTrip(s[0], s[1]);
      assert s == [s[0], s[1]];
    } else {
      var g := EncodeGroup(s[0], s[1], s[2]);
      var e := Encode(s[3..]);
      GroupRoundTrip(s[0], s[1], s[2]);
      assert Encode(s) == g + e;
      assert (g + e)[..4] == g;
      if |s| == 3 {
        assert e == [];
        assert s == [s[0], s[1], s[2]];
        assert g[3] != PAD;
      } else {
        assert (g + e)[4..] == e;
        DecodeEncode(s[3..]);
        assert s == [s[0], s[1], s[2]] + s[3..];
      }
    }
  }

  //---- Strictness: only encodings decode ---------------------------------------

  /** Every alphabet character is the character of its own value. */
  lemma CharOfValue(c: Byte)
    requires IsAlphabet(c)
    ensures CharOf(ValueOf(c)) == c
  {
  }

  /** Cutting `hi * 64 + lo` at 64 gives back its two parts. */
  lemma SplitJoin64(hi: nat, lo: nat)
    requires lo < 64
    ensures (hi * 64 + lo) / 64 == hi && (hi * 64 + lo) % 64 == lo
  {
  }

  /** A full group that decodes is the encoding of what it decodes to. */
  lemma GroupEncodes(c0: Byte, c1: Byte, c2: Byte, c3: Byte)
    requires DecodeGroup(c0, c1, c2, c3).Some?
    ensures var g := DecodeGroup(c0, c1, c2, c3).value;
      |g| == 3 && EncodeGroup(g[0], g[1], g[2]) == [c0, c1, c2, c3]
  {
    var v0, v1, v2, v3 := ValueOf(c0), ValueOf(c1), ValueOf(c2), ValueOf(c3);
    var x0, x1, x2 := v0 * 4 + v1 / 16, v1 % 16 * 16 + v2 / 4, v2 % 4 * 64 + v3;
    assert DecodeGroup(c0, c1, c2, c3).value == [x0, x1, x2];
    assert x0 / 4 == v0 && x0 % 4 * 16 + x1 / 16 == v1 by {
      SplitJoin4(v0, v1 / 16);
      SplitJoin16(v1 % 16, v2 / 4);
    }
    assert x1 % 16 * 4 + x2 / 64 == v2 && x2 % 64 == v3 by {
      SplitJoin16(v1 % 16, v2 / 4);
      SplitJoin64(v2 % 4, v3);
    }
    CharOfValue(c0);
    CharOfValue(c1);
    CharOfValue(c2);
    CharOfValue(c3);
  }

  /** A final group with two pads that decodes is the encoding of its one octet. */
  lemma OnePadEncodes(c0: Byte, c1: Byte)
    requires DecodeFinal(c0, c1, PAD, PAD).Some?
    ensures Encode(DecodeFinal(c0, c1, PAD, PAD).value) == [c0, c1, PAD, PAD]
  {
    var v0, v1 := ValueOf(c0), ValueOf(c1);
    var x := v0 * 4 + v1 / 16;
    assert DecodeFinal(c0, c1, PAD, PAD).value == [x];
    assert x / 4 == v0 && x % 4 * 16 == v1 by {
      SplitJoin4(v0, v1 / 16);
    }
    CharOfValue(c0);
    CharOfValue(c1);
  }

  /** A final group with one pad that decodes is the encoding of its two octets. */
  lemma TwoPadEncodes(c0: Byte, c1: Byte, c2: Byte)
    requires c2 != PAD && DecodeFinal(c0, c1, c2, PAD).Some?
    ensures Encode(DecodeFinal(c0, c1, c2, PAD).value) == [c0, c1, c2, PAD]
  {
    var v0, v1, v2 := ValueOf(c0), ValueOf(c1), ValueOf(c2);
    var x0, x1 := v0 * 4 + v1 / 16, v1 % 16 * 16 + v2 / 4;
    assert DecodeFinal(c0, c1, c2, PAD).value == [x0, x1];
    assert x0 / 4 == v0 && x0 % 4 * 16 + x1 / 16 == v1 by {
      SplitJoin4(v0, v1 / 16);
      SplitJoin16(v1 % 16, v2 / 4);
    }
    assert x1 % 16 * 4 == v2 by {
      SplitJoin16(v1 % 16, v2 / 4);
    }
    CharOfValue(c0);
    CharOfValue(c1);
    CharOfValue(c2);
  }

  /** A final group that decodes is the encoding of what it decodes to, pads included. */
  lemma FinalEncodes(c0: Byte, c1: Byte, c2: Byte, c3: Byte)
    requires DecodeFinal(c0, c1, c2, c3).Some?
    ensures Encode(DecodeFinal(c0, c1, c2, c3).value) == [c0, c1, c2, c3]
  {
    if c2 == PAD && c3 == PAD {
      OnePadEncodes(c0, c1);
    } else if c3 == PAD {
      TwoPadEncodes(c0, c1, c2);
    } else {
      var b := DecodeGroup(c0, c1, c2, c3).value;
      GroupEncodes(c0, c1, c2, c3);
      assert Encode(b) == EncodeGroup(b[0], b[1], b[2]) + Encode(b[3..]);
      assert b[3..] == [];
    }
  }

  /**
   * Encoding undoes decoding: a string decodes only when it is the padded
   * encoding of its result, so no other spelling of the same octets (a stray
   * pad, non-zero bits under the padding) is accepted.
   */
  lemma {:induction false} EncodeDecode(s: seq<Byte>)
    ensures Decode(s).Some? ==> Encode(Decode(s).value) == s
    decreases |s|
  {
    if Decode(s).Some? && |s| > 0 {
      if |s| == 4 {
        FinalEncodes(s[0], s[1], s[2], s[3]);
        assert s == [s[0], s[1], s[2], s[3]];
      } else {
        var g := DecodeGroup(s[0], s[1], s[2], s[3]).value;
        var rest := Decode(s[4..]).value;
        var b := g + rest;
        assert Decode(s).value == b;
        assert Encode(b) == EncodeGroup(g[0], g[1], g[2]) + Encode(rest) by {
          GroupEncodes(s[0], s[1], s[2], s[3]);
          assert b[..3] == g && b[3..] == rest;
        }
        assert EncodeGroup(g[0], g[1], g[2]) == s[..4] by {
          GroupEncodes(s[0], s[1], s[2], s[3]);
        }
        EncodeDecode(s[4..]);
        assert s == s[..4] + s[4..];
      }
    }
  }
}
