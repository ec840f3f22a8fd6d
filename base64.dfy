/** Base64 as defined in section 4 of RFC 4648: the standard alphabet, 24-bit quanta encoded
    as four characters, and `=` padding for a final quantum of one or two octets. */
module Base64 {
  import opened Values

  /** The character of the alphabet for the 6-bit group `i` (Table 1 of RFC 4648). */
  function IndexChar(i: nat): (c: char)
    requires i < 64
    ensures c != '='
  {
    if i < 26 then ('A' as int + i) as char
    else if i < 52 then ('a' as int + (i - 26)) as char
    else if i < 62 then ('0' as int + (i - 52)) as char
    else if i == 62 then '+'
    else '/'
  }

  /** The 6-bit group a character stands for, or None when it is outside the alphabet. */
  function CharIndex(c: char): (r: Option<nat>)
    ensures r.Some? ==> r.value < 64
  {
    if 'A' <= c <= 'Z' then Some(c as int - 'A' as int)
    else if 'a' <= c <= 'z' then Some(c as int - 'a' as int + 26)
    else if '0' <= c <= '9' then Some(c as int - '0' as int + 52)
    else if c == '+' then Some(62)
    else if c == '/' then Some(63)
    else None
  }

  lemma IndexCharInverse(i: nat)
    requires i < 64
    ensures CharIndex(IndexChar(i)) == Some(i)
  {
  }

  /** Every character CharIndex accepts is the one IndexChar gives for its group. */
  lemma CharIndexInverse(c: char)
    requires CharIndex(c).Some?
    ensures IndexChar(CharIndex(c).value) == c
  {
  }

  predicate InAlphabet(c: char)
  {
    CharIndex(c).Some?
  }

  /** Four characters for a full 24-bit quantum b0 b1 b2. */
  function EncodeQuantum(b0: byte, b1: byte, b2: byte): string
  {
    [IndexChar(b0 / 4), IndexChar((b0 % 4) * 16 + b1 / 16), IndexChar((b1 % 16) * 4 + b2 / 64), IndexChar(b2 % 64)]
  }

  /** `Buffer.from(bytes).toString("base64")` */
  function Encode(bs: seq<byte>): (s: string)
    ensures |s| == 4 * ((|bs| + 2) / 3)
    decreases |bs|
  {
    if |bs| == 0 then ""
    else if |bs| == 1 then [IndexChar(bs[0] / 4), IndexChar((bs[0] % 4) * 16), '=', '=']
    else if |bs| == 2 then [IndexChar(bs[0] / 4), IndexChar((bs[0] % 4) * 16 + bs[1] / 16), IndexChar((bs[1] % 16) * 4), '=']
    else EncodeQuantum(bs[0], bs[1], bs[2]) + Encode(bs[3..])
  }

  /** The three octets of a quantum of four alphabet characters. */
  function DecodeQuantum(c0: char, c1: char, c2: char, c3: char): (r: Option<seq<byte>>)
    ensures r.Some? ==> |r.value| == 3
  {
    match (CharIndex(c0), CharIndex(c1), CharIndex(c2), CharIndex(c3))
    case (Some(v0), Some(v1), Some(v2), Some(v3)) =>
      Some([v0 * 4 + v1 / 16, (v1 % 16) * 16 + v2 / 4, (v2 % 4) * 64 + v3])
    case _ => None
  }

  /** The last quantum, which may carry one (`xyz=`) or two (`xy==`) padding characters.
      The bits of the last character below the octet boundary are ignored, as decoders do. */
  function DecodeFinal(c0: char, c1: char, c2: char, c3: char): (r: Option<seq<byte>>)
    ensures r.Some? ==> |r.value| == (if c2 == '=' && c3 == '=' then 1 else if c3 == '=' then 2 else 3)
  {
    if c2 == '=' && c3 == '=' then
      match (CharIndex(c0), CharIndex(c1))
      case (Some(v0), Some(v1)) => Some([v0 * 4 + v1 / 16])
      case _ => None
    else if c3 == '=' then
      match (CharIndex(c0), CharIndex(c1), CharIndex(c2))
      case (Some(v0), Some(v1), Some(v2)) => Some([v0 * 4 + v1 / 16, (v1 % 16) * 16 + v2 / 4])
      case _ => None
    else DecodeQuantum(c0, c1, c2, c3)
  }

  /** The number of padding characters at the end of `s`. */
  function PaddingLength(s: string): nat
  {
    if |s| > 0 && s[|s| - 1] == '=' then (if |s| > 1 && s[|s| - 2] == '=' then 2 else 1) else 0
  }

  /** `Buffer.from(s, "base64")` on padded input; None when `s` is not a sequence of complete
      quanta over the alphabet. Every quantum gives three octets, less one per padding
      character. */
  function Decode(s: string): (r: Option<seq<byte>>)
    ensures r.Some? ==> |s| % 4 == 0 && |r.value| == 3 * (|s| / 4) - PaddingLength(s)
    decreases |s|
  {
    if |s| == 0 then Some([])
    else if |s| < 4 then None
    else if |s| == 4 then DecodeFinal(s[0], s[1], s[2], s[3])
    else
      match DecodeQuantum(s[0], s[1], s[2], s[3])
      case None => None
      case Some(q) =>
        match Decode(s[4..])
        case None => None
        case Some(rest) => Some(q + rest)
  }

  /** Alphabet characters, with `=` allowed only in the last two positions. */
  predicate Padded(s: string)
  {
    forall i | 0 <= i < |s| :: InAlphabet(s[i]) || (s[i] == '=' && i >= |s| - 2)
  }

  /** The output of Encode uses only the alphabet, followed by at most two padding characters. */
  lemma {:induction false} EncodeAlphabet(bs: seq<byte>)
    ensures Padded(Encode(bs))
    decreases |bs|
  {
    if |bs| > 2 {
      EncodeAlphabet(bs[3..]);
      EncodeLeadingQuantum(bs);
      QuantumAlphabet(bs[0], bs[1], bs[2]);
      PaddedAfterQuantum(EncodeQuantum(bs[0], bs[1], bs[2]), Encode(bs[3..]));
    } else if |bs| > 0 {
      IndexCharInverse(bs[0] / 4);
      IndexCharInverse((bs[0] % 4) * 16 + (if |bs| == 2 then bs[1] / 16 else 0));
      if |bs| == 2 {
        IndexCharInverse((bs[1] % 16) * 4);
      }
    }
  }

  /** The four characters of a full quantum are in the alphabet. */
  lemma QuantumAlphabet(b0: byte, b1: byte, b2: byte)
    ensures forall i | 0 <= i < 4 :: InAlphabet(EncodeQuantum(b0, b1, b2)[i])
  {
    IndexCharInverse(b0 / 4);
    IndexCharInverse((b0 % 4) * 16 + b1 / 16);
    IndexCharInverse((b1 % 16) * 4 + b2 / 64);
    IndexCharInverse(b2 % 64);
  }

  lemma PaddedAfterQuantum(q: string, rest: string)
    requires |q| == 4 && (forall i | 0 <= i < 4 :: InAlphabet(q[i])) && Padded(rest)
    ensures Padded(q + rest)
  {
    forall i | 0 <= i < |q + rest| ensures InAlphabet((q + rest)[i]) || ((q + rest)[i] == '=' && i >= |q + rest| - 2) {
      if i >= 4 { assert (q + rest)[i] == rest[i - 4]; }
    }
  }

  /** The three octets of a full quantum survive encoding and decoding. */
  lemma QuantumRoundTrip(b0: byte, b1: byte, b2: byte)
    ensures var q := EncodeQuantum(b0, b1, b2); DecodeQuantum(q[0], q[1], q[2], q[3]) == Some([b0, b1, b2])
  {
    var v0, v1, v2, v3 := b0 / 4, (b0 % 4) * 16 + b1 / 16, (b1 % 16) * 4 + b2 / 64, b2 % 64;
    IndexCharInverse(v0); IndexCharInverse(v1); IndexCharInverse(v2); IndexCharInverse(v3);
    assert v1 / 16 == b0 % 4 && v1 % 16 == b1 / 16;
    assert v2 / 4 == b1 % 16 && v2 % 4 == b2 / 64;
  }

  /** A final quantum of one octet, `xy==`, decodes back to that octet. */
  lemma OneOctetRoundTrip(b0: byte)
    ensures Decode(Encode([b0])) == Some([b0])
  {
    var v0, v1 := b0 / 4, (b0 % 4) * 16;
    IndexCharInverse(v0); IndexCharInverse(v1);
    assert v1 / 16 == b0 % 4;
    var s := Encode([b0]);
    assert s == [IndexChar(v0), IndexChar(v1), '=', '='];
    assert DecodeFinal(s[0], s[1], s[2], s[3]) == Some([b0]);
  }

  /** A final quantum of two octets, `xyz=`, decodes back to those octets. */
  lemma TwoOctetRoundTrip(b0: byte, b1: byte)
    ensures Decode(Encode([b0, b1])) == Some([b0, b1])
  {
    var v0, v1, v2 := b0 / 4, (b0 % 4) * 16 + b1 / 16, (b1 % 16) * 4;
    IndexCharInverse(v0); IndexCharInverse(v1); IndexCharInverse(v2);
    assert v1 / 16 == b0 % 4 && v1 % 16 == b1 / 16;
    assert v2 / 4 == b1 % 16;
    var s := Encode([b0, b1]);
    assert s == [IndexChar(v0), IndexChar(v1), IndexChar(v2), '='];
    assert DecodeFinal(s[0], s[1], s[2], s[3]) == Some([b0, b1]);
  }

  /** Decoding a full quantum followed by more input decodes the rest after it. */
  lemma DecodeQuantumThen(q: string, rest: string, octets: seq<byte>)
    requires |q| == 4 && |rest| > 0
    requires DecodeQuantum(q[0], q[1], q[2], q[3]) == Some(octets)
    ensures Decode(q + rest) == if Decode(rest).Some? then Some(octets + Decode(rest).value) else None
  {
    var s := q + rest;
    assert s[0] == q[0] && s[1] == q[1] && s[2] == q[2] && s[3] == q[3];
    assert s[4..] == rest;
  }

  /** A final quantum of three octets is encoded without padding and decodes back. */
  lemma ThreeOctetRoundTrip(b0: byte, b1: byte, b2: byte)
    ensures Decode(Encode([b0, b1, b2])) == Some([b0, b1, b2])
  {
    var q := EncodeQuantum(b0, b1, b2);
    QuantumRoundTrip(b0, b1, b2);
    var bs := [b0, b1, b2];
    assert bs[3..] == [];
    assert Encode(bs) == q + Encode([]) == q;
    assert q[2] != '=' && q[3] != '=';
  }

  /** Decoding what Encode produced gives back the octets: `decode(encode(b)) == b`. */
  lemma {:induction false} DecodeEncode(bs: seq<byte>)
    ensures Decode(Encode(bs)) == Some(bs)
    decreases |bs|
  {
    if |bs| == 1 {
      assert bs == [bs[0]];
      OneOctetRoundTrip(bs[0]);
    } else if |bs| == 2 {
      assert bs == [bs[0], bs[1]];
      TwoOctetRoundTrip(bs[0], bs[1]);
    } else if |bs| == 3 {
      assert bs == [bs[0], bs[1], bs[2]];
      ThreeOctetRoundTrip(bs[0], bs[1], bs[2]);
    } else if |bs| > 3 {
      DecodeEncode(bs[3..]);
      LeadingQuantumRoundTrip(bs);
    }
  }

  /** A leading full quantum survives the round trip when the octets after it do. */
  lemma LeadingQuantumRoundTrip(bs: seq<byte>)
    requires |bs| > 3 && Decode(Encode(bs[3..])) == Some(bs[3..])
    ensures Decode(Encode(bs)) == Some(bs)
  {
    SplitQuantum(bs);
    EncodeLeadingQuantum(bs);
    QuantumRoundTrip(bs[0], bs[1], bs[2]);
    DecodeQuantumThen(EncodeQuantum(bs[0], bs[1], bs[2]), Encode(bs[3..]), [bs[0], bs[1], bs[2]]);
  }

  lemma SplitQuantum(bs: seq<byte>)
    requires |bs| > 3
    ensures [bs[0], bs[1], bs[2]] + bs[3..] == bs
  {
  }

  lemma EncodeLeadingQuantum(bs: seq<byte>)
    requires |bs| >= 3
    ensures Encode(bs) == EncodeQuantum(bs[0], bs[1], bs[2]) + Encode(bs[3..])
    ensures |bs| > 3 ==> |Encode(bs[3..])| > 0
  {
  }
}
