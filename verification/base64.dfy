/**
 Base64 as defined in section 4 of RFC 4648: every group of three octets becomes
 four characters of a 64-character alphabet, and a final group of one or two octets
 is completed with '=' padding. This is the encoding PHP's base64_encode produces.

 The decoder is the strict inverse: it accepts only canonical encodings (length a
 multiple of four, padding only at the end, unused bits of the last character zero),
 which makes Encode and Decode a bijection between octet strings and canonical text.
 */
module Base64 {
  import opened Basics

  /** The alphabet of Table 1 in section 4 of RFC 4648, value 0 first. */
  const Alphabet: string :=
    "ABCDEFGH" + "IJKLMNOP" + "QRSTUVWX" + "YZabcdef" + "ghijklmn" + "opqrstuv" + "wxyz0123" + "456789+/"

  /** The padding character. */
  const Pad: char := '='

  type sextet = x: int | 0 <= x < 64

  /** The character that encodes a 6-bit value. */
  function CharOf(v: sextet): char
  {
    if v < 26 then ('A' as int + v) as char
    else if v < 52 then ('a' as int + (v - 26)) as char
    else if v < 62 then ('0' as int + (v - 52)) as char
    else if v == 62 then '+'
    else '/'
  }

  /** The 6-bit value a character encodes, or None when it is not in the alphabet. */
  function ValueOf(c: char): Option<sextet>
  {
    if 'A' <= c <= 'Z' then Some(c as int - 'A' as int)
    else if 'a' <= c <= 'z' then Some(c as int - 'a' as int + 26)
    else if '0' <= c <= '9' then Some(c as int - '0' as int + 52)
    else if c == '+' then Some(62)
    else if c == '/' then Some(63)
    else None
  }

  /** ValueOf reads back the value CharOf encodes, which is never the padding character. */
  lemma ValueOfCharOf(v: sextet)
    ensures ValueOf(CharOf(v)) == Some(v)
    ensures CharOf(v) != Pad
  {
  }

  /** Every character ValueOf accepts is the one CharOf gives for its value. */
  lemma CharOfValueOf(c: char)
    requires ValueOf(c).Some?
    ensures CharOf(ValueOf(c).value) == c
  {
  }

  /** The arithmetic table agrees with the alphabet of RFC 4648, in both directions. */
  lemma AlphabetTable(v: sextet)
    ensures |Alphabet| == 64
    ensures CharOf(v) == Alphabet[v]
  {
    if v < 32 {
      AlphabetLowHalf(v);
    } else {
      AlphabetHighHalf(v);
    }
  }

  lemma AlphabetLowHalf(v: sextet)
    requires v < 32
    ensures CharOf(v) == Alphabet[v]
  {
  }

  lemma AlphabetHighHalf(v: sextet)
    requires v >= 32
    ensures CharOf(v) == Alphabet[v]
  {
  }

  /** The characters ValueOf accepts are exactly those of the alphabet. */
  lemma AlphabetMembership(c: char)
    ensures c in Alphabet <==> ValueOf(c).Some?
  {
    if c in Alphabet {
      var i :| 0 <= i < |Alphabet| && Alphabet[i] == c;
      AlphabetTable(i);
    }
    if ValueOf(c).Some? {
      CharOfValueOf(c);
      AlphabetTable(ValueOf(c).value);
    }
  }

  /** A character of the alphabet or the padding character. */
  predicate IsEncodingChar(c: char)
  {
    ValueOf(c).Some? || c == Pad
  }

  /** Three octets as four characters (24 bits split into four 6-bit values). */
  function EncodeTriple(b0: uint8, b1: uint8, b2: uint8): string
  {
    [CharOf(b0 / 4), CharOf((b0 % 4) * 16 + b1 / 16), CharOf((b1 % 16) * 4 + b2 / 64), CharOf(b2 % 64)]
  }

  /** A final single octet: two characters and two padding characters. */
  function EncodeSingle(b0: uint8): string
  {
    [CharOf(b0 / 4), CharOf((b0 % 4) * 16), Pad, Pad]
  }

  /** A final pair of octets: three characters and one padding character. */
  function EncodePair(b0: uint8, b1: uint8): string
  {
    [CharOf(b0 / 4), CharOf((b0 % 4) * 16 + b1 / 16), CharOf((b1 % 16) * 4), Pad]
  }

  /** The Base64 encoding of an octet string, as PHP's base64_encode computes it. */
  function Encode(b: seq<uint8>): (s: string)
    ensures |s| == 4 * ((|b| + 2) / 3)
    ensures forall i | 0 <= i < |s| :: IsEncodingChar(s[i])
    ensures forall i | 0 <= i < |s| - 2 :: s[i] != Pad
    decreases |b|
  {
    if |b| == 0 then ""
    else if |b| == 1 then EncodeSingle(b[0])
    else if |b| == 2 then EncodePair(b[0], b[1])
    else EncodeTriple(b[0], b[1], b[2]) + Encode(b[3..])
  }

  /** The first octet of a quantum: all six bits of v0 and the high two of v1. */
  function First(v0: sextet, v1: sextet): uint8
  {
    v0 as int * 4 + v1 as int / 16
  }

  /** The second octet: the low four bits of v1 and the high four of v2. */
  function Second(v1: sextet, v2: sextet): uint8
  {
    (v1 as int % 16) * 16 + v2 as int / 4
  }

  /** The third octet: the low two bits of v2 and all six of v3. */
  function Third(v2: sextet, v3: sextet): uint8
  {
    (v2 as int % 4) * 64 + v3 as int
  }

  /**
   Decodes one four-character quantum. A quantum without padding gives three octets;
   "xxx=" gives two and "xx==" gives one, provided the bits the padding leaves
   unused are zero. Anything else is rejected.
   */
  function DecodeQuantum(q: string): (r: Option<seq<uint8>>)
    requires |q| == 4
    ensures r.Some? ==> 1 <= |r.value| <= 3
  {
    if ValueOf(q[0]).None? || ValueOf(q[1]).None? then None
    else
      var v0, v1 := ValueOf(q[0]).value, ValueOf(q[1]).value;
      if q[2] == Pad then
        if q[3] == Pad && v1 % 16 == 0 then Some([First(v0, v1)]) else None
      else if ValueOf(q[2]).None? then None
      else
        var v2 := ValueOf(q[2]).value;
        if q[3] == Pad then
          if v2 % 4 == 0 then Some([First(v0, v1), Second(v1, v2)]) else None
        else if ValueOf(q[3]).None? then None
        else Some([First(v0, v1), Second(v1, v2), Third(v2, ValueOf(q[3]).value)])
  }

  /** Strict Base64 decoding; None for text that Encode never produces. */
  function Decode(s: string): (r: Option<seq<uint8>>)
    decreases |s|
  {
    if |s| == 0 then Some([])
    else if |s| < 4 then None
    else match DecodeQuantum(s[..4])
      case None => None
      case Some(g) =>
        if |s| == 4 then Some(g)
        else if |g| < 3 then None
        else match Decode(s[4..])
          case None => None
          case Some(rest) => Some(g + rest)
  }

  /** Splitting three octets into sextets and joining them again gives the octets back. */
  lemma JoinSplit(b0: uint8, b1: uint8, b2: uint8)
    ensures First(b0 / 4, (b0 % 4) * 16 + b1 / 16) == b0
    ensures Second((b0 % 4) * 16 + b1 / 16, (b1 % 16) * 4 + b2 / 64) == b1
    ensures Third((b1 % 16) * 4 + b2 / 64, b2 % 64) == b2
  {
  }

  /** Joining four sextets into octets and splitting them again gives the sextets back. */
  lemma SplitJoin(v0: sextet, v1: sextet, v2: sextet, v3: sextet)
    ensures First(v0, v1) / 4 == v0
    ensures (First(v0, v1) % 4) * 16 + Second(v1, v2) / 16 == v1
    ensures (Second(v1, v2) % 16) * 4 + Third(v2, v3) / 64 == v2
    ensures Third(v2, v3) % 64 == v3
  {
  }

  /** Decoding the quantum of a final single octet gives that octet back. */
  lemma SingleRoundTrip(b0: uint8)
    ensures DecodeQuantum(EncodeSingle(b0)) == Some([b0])
  {
    var q := EncodeSingle(b0);
    var v0, v1 := b0 / 4, (b0 % 4) * 16;
    ValueOfCharOf(v0);
    ValueOfCharOf(v1);
    assert q[2] == Pad && q[3] == Pad;
    assert v1 % 16 == 0 && First(v0, v1) == b0;
  }

  /** Decoding the quantum of a final pair of octets gives the pair back. */
  lemma PairRoundTrip(b0: uint8, b1: uint8)
    ensures DecodeQuantum(EncodePair(b0, b1)) == Some([b0, b1])
  {
    JoinSplit(b0, b1, 0);
    var q := EncodePair(b0, b1);
    var v0, v1, v2 := b0 / 4, (b0 % 4) * 16 + b1 / 16, (b1 % 16) * 4;
    ValueOfCharOf(v0);
    ValueOfCharOf(v1);
    ValueOfCharOf(v2);
    assert q[2] != Pad && q[3] == Pad;
    assert v2 % 4 == 0 && First(v0, v1) == b0 && Second(v1, v2) == b1;
  }

  /** Decoding the quantum of three octets gives the three octets back. */
  lemma TripleRoundTrip(b0: uint8, b1: uint8, b2: uint8)
    ensures DecodeQuantum(EncodeTriple(b0, b1, b2)) == Some([b0, b1, b2])
  {
    JoinSplit(b0, b1, b2);
    var q := EncodeTriple(b0, b1, b2);
    var v0, v1, v2, v3 := b0 / 4, (b0 % 4) * 16 + b1 / 16, (b1 % 16) * 4 + b2 / 64, b2 % 64;
    ValueOfCharOf(v0);
    ValueOfCharOf(v1);
    ValueOfCharOf(v2);
    ValueOfCharOf(v3);
    assert q[2] != Pad && q[3] != Pad;
  }

  /** A quantum that decodes to three octets is the encoding of those octets. */
  lemma TripleCanonical(q: string)
    requires |q| == 4 && DecodeQuantum(q).Some? && |DecodeQuantum(q).value| == 3
    ensures var g := DecodeQuantum(q).value; EncodeTriple(g[0], g[1], g[2]) == q
  {
    var v0, v1, v2, v3 := ValueOf(q[0]).value, ValueOf(q[1]).value, ValueOf(q[2]).value, ValueOf(q[3]).value;
    SplitJoin(v0, v1, v2, v3);
    CharOfValueOf(q[0]);
    CharOfValueOf(q[1]);
    CharOfValueOf(q[2]);
    CharOfValueOf(q[3]);
  }

  /** A quantum that decodes to two octets is the encoding of that final pair. */
  lemma PairCanonical(q: string)
    requires |q| == 4 && DecodeQuantum(q).Some? && |DecodeQuantum(q).value| == 2
    ensures var g := DecodeQuantum(q).value; EncodePair(g[0], g[1]) == q
  {
    var v0, v1, v2 := ValueOf(q[0]).value, ValueOf(q[1]).value, ValueOf(q[2]).value;
    SplitJoin(v0, v1, v2, 0);
    CharOfValueOf(q[0]);
    CharOfValueOf(q[1]);
    CharOfValueOf(q[2]);
  }

  /** A quantum that decodes to one octet is the encoding of that final octet. */
  lemma SingleCanonical(q: string)
    requires |q| == 4 && DecodeQuantum(q).Some? && |DecodeQuantum(q).value| == 1
    ensures var g := DecodeQuantum(q).value; EncodeSingle(g[0]) == q
  {
    var v0, v1 := ValueOf(q[0]).value, ValueOf(q[1]).value;
    SplitJoin(v0, v1, 0, 0);
    CharOfValueOf(q[0]);
    CharOfValueOf(q[1]);
  }

  /** Text of exactly one quantum decodes as that quantum. */
  lemma DecodeOneQuantum(q: string)
    requires |q| == 4
    ensures Decode(q) == DecodeQuantum(q)
  {
    assert q[..4] == q;
  }

  /** A full leading quantum followed by more text decodes piecewise. */
  lemma DecodeLeadingQuantum(q: string, rest: string, tail: seq<uint8>)
    requires |q| == 4 && |rest| > 0
    requires DecodeQuantum(q).Some? && |DecodeQuantum(q).value| == 3
    requires Decode(rest) == Some(tail)
    ensures Decode(q + rest) == Some(DecodeQuantum(q).value + tail)
  {
    assert (q + rest)[..4] == q;
    assert (q + rest)[4..] == rest;
  }

  /** More than three octets: a leading triple in front of the encoding of the rest. */
  lemma EncodeLeadingTriple(b: seq<uint8>)
    requires |b| > 3
    ensures Encode(b) == EncodeTriple(b[0], b[1], b[2]) + Encode(b[3..])
    ensures |Encode(b[3..])| > 0
  {
  }

  /** A sequence of more than three elements is its first three followed by the rest. */
  lemma SplitAfterThree(b: seq<uint8>)
    requires |b| > 3
    ensures b == [b[0], b[1], b[2]] + b[3..]
  {
  }

  /** Three octets preceding an encoding that round-trips decode in front of its decoding. */
  lemma DecodeTriplePrefix(b0: uint8, b1: uint8, b2: uint8, rest: string, tail: seq<uint8>)
    requires |rest| > 0 && Decode(rest) == Some(tail)
    ensures Decode(EncodeTriple(b0, b1, b2) + rest) == Some([b0, b1, b2] + tail)
  {
    TripleRoundTrip(b0, b1, b2);
    DecodeLeadingQuantum(EncodeTriple(b0, b1, b2), rest, tail);
  }

  /** The encoding of a final single octet decodes back to it. */
  lemma DecodeEncodedSingle(b0: uint8)
    ensures Decode(EncodeSingle(b0)) == Some([b0])
  {
    SingleRoundTrip(b0);
    DecodeOneQuantum(EncodeSingle(b0));
  }

  /** The encoding of a final pair of octets decodes back to it. */
  lemma DecodeEncodedPair(b0: uint8, b1: uint8)
    ensures Decode(EncodePair(b0, b1)) == Some([b0, b1])
  {
    PairRoundTrip(b0, b1);
    DecodeOneQuantum(EncodePair(b0, b1));
  }

  /** The encoding of a final triple of octets decodes back to it. */
  lemma DecodeEncodedTriple(b0: uint8, b1: uint8, b2: uint8)
    ensures Decode(EncodeTriple(b0, b1, b2)) == Some([b0, b1, b2])
  {
    TripleRoundTrip(b0, b1, b2);
    DecodeOneQuantum(EncodeTriple(b0, b1, b2));
  }

  /** Decode inverts Encode on every octet string. */
  lemma {:induction false} DecodeEncode(b: seq<uint8>)
    ensures Decode(Encode(b)) == Some(b)
    decreases |b|
  {
    if |b| == 0 {
    } else if |b| == 1 {
      assert Encode(b) == EncodeSingle(b[0]);
      DecodeEncodedSingle(b[0]);
      assert b == [b[0]];
    } else if |b| == 2 {
      assert Encode(b) == EncodePair(b[0], b[1]);
      DecodeEncodedPair(b[0], b[1]);
      assert b == [b[0], b[1]];
    } else if |b| == 3 {
      assert Encode(b) == EncodeTriple(b[0], b[1], b[2]) + Encode([]);
      DecodeEncodedTriple(b[0], b[1], b[2]);
      assert b == [b[0], b[1], b[2]];
    } else {
      DecodeEncode(b[3..]);
      EncodeLeadingTriple(b);
      DecodeTriplePrefix(b[0], b[1], b[2], Encode(b[3..]), b[3..]);
      SplitAfterThree(b);
    }
  }

  /** Text longer than one quantum decodes as a full leading quantum followed by the rest. */
  lemma DecodeSplit(s: string)
    requires |s| > 4 && Decode(s).Some?
    ensures DecodeQuantum(s[..4]).Some? && |DecodeQuantum(s[..4]).value| == 3
    ensures Decode(s[4..]).Some?
    ensures Decode(s).value == DecodeQuantum(s[..4]).value + Decode(s[4..]).value
  {
  }

  /** Text of one quantum that decodes is the encoding of its decoding. */
  lemma EncodeDecodeOneQuantum(q: string)
    requires |q| == 4 && DecodeQuantum(q).Some?
    ensures Encode(DecodeQuantum(q).value) == q
  {
    var g := DecodeQuantum(q).value;
    if |g| == 1 {
      SingleCanonical(q);
    } else if |g| == 2 {
      PairCanonical(q);
    } else {
      TripleCanonical(q);
      assert Encode(g) == EncodeTriple(g[0], g[1], g[2]) + Encode([]);
    }
  }

  /** A full quantum followed by a nonempty rest: the encoding of the joined octets. */
  lemma EncodeJoin(g: seq<uint8>, tail: seq<uint8>)
    requires |g| == 3 && |tail| > 0
    ensures Encode(g + tail) == EncodeTriple(g[0], g[1], g[2]) + Encode(tail)
  {
    var b := g + tail;
    EncodeLeadingTriple(b);
    assert b[3..] == tail;
  }

  /** Encode inverts Decode wherever Decode succeeds: no text has two decodings. */
  lemma {:induction false} EncodeDecode(s: string)
    requires Decode(s).Some?
    ensures Encode(Decode(s).value) == s
    decreases |s|
  {
    if |s| == 0 {
    } else if |s| == 4 {
      DecodeOneQuantum(s);
      EncodeDecodeOneQuantum(s);
    } else {
      DecodeSplit(s);
      var q, rest := s[..4], s[4..];
      var g, tail := DecodeQuantum(q).value, Decode(rest).value;
      EncodeDecode(rest);
      TripleCanonical(q);
      EncodeJoin(g, tail);
      assert s == q + rest;
    }
  }

  /** Encode and Decode are inverse to each other: the two directions together. */
  lemma EncodeDecodeIff(b: seq<uint8>, s: string)
    ensures Decode(s) == Some(b) <==> Encode(b) == s
  {
    DecodeEncode(b);
    if Decode(s) == Some(b) {
      EncodeDecode(s);
    }
  }

  /** Different octet strings never share an encoding. */
  lemma EncodeInjective(b1: seq<uint8>, b2: seq<uint8>)
    requires Encode(b1) == Encode(b2)
    ensures b1 == b2
  {
    DecodeEncode(b1);
    DecodeEncode(b2);
  }

  /**
   The bit layout of section 4 of RFC 4648: the four characters of a full group
   carry, most significant first, the 24 bits of its three octets.
   */
  lemma TripleBitLayout(b0: uint8, b1: uint8, b2: uint8)
    ensures var q := EncodeTriple(b0, b1, b2);
      && ValueOf(q[0]).Some? && ValueOf(q[1]).Some? && ValueOf(q[2]).Some? && ValueOf(q[3]).Some?
      && ValueOf(q[0]).value * 262144 + ValueOf(q[1]).value * 4096 + ValueOf(q[2]).value * 64 + ValueOf(q[3]).value
         == b0 * 65536 + b1 * 256 + b2
  {
    ValueOfCharOf(b0 / 4);
    ValueOfCharOf((b0 % 4) * 16 + b1 / 16);
    ValueOfCharOf((b1 % 16) * 4 + b2 / 64);
    ValueOfCharOf(b2 % 64);
  }

  /**
   A final pair: three characters carry the 16 bits of the two octets followed by
   two zero bits, and one padding character completes the group.
   */
  lemma PairBitLayout(b0: uint8, b1: uint8)
    ensures var q := EncodePair(b0, b1);
      && ValueOf(q[0]).Some? && ValueOf(q[1]).Some? && ValueOf(q[2]).Some? && q[3] == Pad
      && ValueOf(q[0]).value * 4096 + ValueOf(q[1]).value * 64 + ValueOf(q[2]).value
         == (b0 * 256 + b1) * 4
  {
    ValueOfCharOf(b0 / 4);
    ValueOfCharOf((b0 % 4) * 16 + b1 / 16);
    ValueOfCharOf((b1 % 16) * 4);
  }

  /**
   A final single octet: two characters carry its 8 bits followed by four zero
   bits, and two padding characters complete the group.
   */
  lemma SingleBitLayout(b0: uint8)
    ensures var q := EncodeSingle(b0);
      && ValueOf(q[0]).Some? && ValueOf(q[1]).Some? && q[2] == Pad && q[3] == Pad
      && ValueOf(q[0]).value * 64 + ValueOf(q[1]).value == b0 * 16
  {
    ValueOfCharOf(b0 / 4);
    ValueOfCharOf((b0 % 4) * 16);
  }

  /** The test vectors of section 10 of RFC 4648 for "", "f", "fo" and "foo". */
  lemma ShortTestVectors()
    ensures Encode([]) == ""
    ensures Encode([102]) == "Zg=="
    ensures Encode([102, 111]) == "Zm8="
    ensures Encode([102, 111, 111]) == "Zm9v"
  {
  }

  /** The test vectors of section 10 of RFC 4648 for "foob", "fooba" and "foobar". */
  lemma LongTestVectors()
    ensures Encode([102, 111, 111, 98]) == "Zm9vYg=="
    ensures Encode([102, 111, 111, 98, 97]) == "Zm9vYmE="
    ensures Encode([102, 111, 111, 98, 97, 114]) == "Zm9vYmFy"
  {
    assert [102, 111, 111, 98][3..] == [98];
    assert [102, 111, 111, 98, 97][3..] == [98, 97];
    assert [102, 111, 111, 98, 97, 114][3..] == [98, 97, 114];
    ShortTestVectors();
  }
}
