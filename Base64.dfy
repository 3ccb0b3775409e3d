/**
 * Base64 as section 4 of RFC 4648 defines it: the 64-character alphabet
 * `A-Z a-z 0-9 + /`, every 3 input octets written as 4 characters, and a final
 * group of 1 or 2 octets padded with `=` to 4 characters. The encoder is the one
 * `b64encode` computes; the decoder is its inverse, used to state the round trip.
 */
module Base64 {
  import opened Wrappers

  type Byte = x: int | 0 <= x < 256
  type Sextet = x: int | 0 <= x < 64

  /** The character that stands for a 6-bit value. */
  function CharOf(i: Sextet): char {
    if i < 26 then ('A' as int + i) as char
    else if i < 52 then ('a' as int + (i - 26)) as char
    else if i < 62 then ('0' as int + (i - 52)) as char
    else if i == 62 then '+'
    else '/'
  }

  predicate IsAlphabet(c: char) {
    ('A' <= c <= 'Z') || ('a' <= c <= 'z') || ('0' <= c <= '9') || c == '+' || c == '/'
  }

  /** The 6-bit value a character of the alphabet stands for. */
  function IndexOf(c: char): Sextet
    requires IsAlphabet(c)
  {
    if 'A' <= c <= 'Z' then c as int - 'A' as int
    else if 'a' <= c <= 'z' then c as int - 'a' as int + 26
    else if '0' <= c <= '9' then c as int - '0' as int + 52
    else if c == '+' then 62
    else 63
  }

  lemma IndexOfCharOf(i: Sextet)
    ensures IsAlphabet(CharOf(i)) && IndexOf(CharOf(i)) == i
  {
  }

  /** Three octets as four characters. */
  function EncodeTriple(b0: Byte, b1: Byte, b2: Byte): string {
    [CharOf(b0 / 4), CharOf((b0 % 4) * 16 + b1 / 16), CharOf((b1 % 16) * 4 + b2 / 64), CharOf(b2 % 64)]
  }

  /** `b64encode(bs)`, as text. */
  function Encode(bs: seq<Byte>): (r: string)
    ensures |r| == 4 * ((|bs| + 2) / 3)
  {
    if |bs| == 0 then ""
    else if |bs| == 1 then [CharOf(bs[0] / 4), CharOf((bs[0] % 4) * 16), '=', '=']
    else if |bs| == 2 then [CharOf(bs[0] / 4), CharOf((bs[0] % 4) * 16 + bs[1] / 16), CharOf((bs[1] % 16) * 4), '=']
    else EncodeTriple(bs[0], bs[1], bs[2]) + Encode(bs[3..])
  }

  /** Every character of the encoding is in the alphabet or is the pad `=`. */
  lemma {:induction false} EncodeAlphabet(bs: seq<Byte>)
    ensures forall i :: 0 <= i < |Encode(bs)| ==> IsAlphabet(Encode(bs)[i]) || Encode(bs)[i] == '='
    decreases |bs|
  {
    if |bs| == 1 {
      IndexOfCharOf(bs[0] / 4);
      IndexOfCharOf((bs[0] % 4) * 16);
    } else if |bs| == 2 {
      IndexOfCharOf(bs[0] / 4);
      IndexOfCharOf((bs[0] % 4) * 16 + bs[1] / 16);
      IndexOfCharOf((bs[1] % 16) * 4);
    } else if |bs| > 2 {
      var q := EncodeTriple(bs[0], bs[1], bs[2]);
      IndexOfCharOf(bs[0] / 4);
      IndexOfCharOf((bs[0] % 4) * 16 + bs[1] / 16);
      IndexOfCharOf((bs[1] % 16) * 4 + bs[2] / 64);
      IndexOfCharOf(bs[2] % 64);
      EncodeAlphabet(bs[3..]);
      var rest := Encode(bs[3..]);
      assert Encode(bs) == q + rest;
      forall i | 0 <= i < |Encode(bs)|
        ensures IsAlphabet(Encode(bs)[i]) || Encode(bs)[i] == '='
      {
        if i >= 4 {
          assert Encode(bs)[i] == rest[i - 4];
        }
      }
    }
  }

  /** Four alphabet characters back to three octets. */
  function DecodeQuad(q: string): Option<seq<Byte>>
    requires |q| == 4
  {
    if !(IsAlphabet(q[0]) && IsAlphabet(q[1]) && IsAlphabet(q[2]) && IsAlphabet(q[3])) then None
    else
      var c0, c1, c2, c3 := IndexOf(q[0]), IndexOf(q[1]), IndexOf(q[2]), IndexOf(q[3]);
      Some([c0 * 4 + c1 / 16, (c1 % 16) * 16 + c2 / 4, (c2 % 4) * 64 + c3])
  }

  /** The last group, which may carry one or two `=` of padding. */
  function DecodeLast(q: string): Option<seq<Byte>>
    requires |q| == 4
  {
    if q[2] == '=' && q[3] == '=' then
      if IsAlphabet(q[0]) && IsAlphabet(q[1]) then Some([IndexOf(q[0]) * 4 + IndexOf(q[1]) / 16]) else None
    else if q[3] == '=' then
      if IsAlphabet(q[0]) && IsAlphabet(q[1]) && IsAlphabet(q[2]) then
        var c0, c1, c2 := IndexOf(q[0]), IndexOf(q[1]), IndexOf(q[2]);
        Some([c0 * 4 + c1 / 16, (c1 % 16) * 16 + c2 / 4])
      else None
    else DecodeQuad(q)
  }

  /** Strict decoding: groups of four characters, padding only in the last group. */
  function Decode(s: string): Option<seq<Byte>>
    decreases |s|
  {
    if s == [] then Some([])
    else if |s| < 4 then None
    else if |s| == 4 then DecodeLast(s)
    else
      match DecodeQuad(s[..4])
      case None => None
      case Some(g) =>
        match Decode(s[4..])
        case None => None
        case Some(rest) => Some(g + rest)
  }

  /** The high bits of the first octet and the top bits of the next, and back. */
  lemma SplitHigh(a: Byte, b: Byte)
    ensures var c := (a % 4) * 16 + b / 16; 0 <= c < 64 && (a / 4) * 4 + c / 16 == a && c % 16 == b / 16
  {
  }

  lemma SplitMiddle(b: Byte, d: Byte)
    ensures var c := (b % 16) * 4 + d / 64; 0 <= c < 64 && c / 4 == b % 16 && c % 4 == d / 64
  {
  }

  lemma Rejoin16(b: Byte)
    ensures (b / 16) * 16 + b % 16 == b
  {
  }

  lemma Rejoin64(d: Byte)
    ensures (d / 64) * 64 + d % 64 == d
  {
  }

  lemma TripleRoundTrip(b0: Byte, b1: Byte, b2: Byte)
    ensures DecodeQuad(EncodeTriple(b0, b1, b2)) == Some([b0, b1, b2])
  {
    var c0, c1, c2, c3 := b0 / 4, (b0 % 4) * 16 + b1 / 16, (b1 % 16) * 4 + b2 / 64, b2 % 64;
    SplitHigh(b0, b1);
    SplitMiddle(b1, b2);
    Rejoin16(b1);
    Rejoin64(b2);
    IndexOfCharOf(c0);
    IndexOfCharOf(c1);
    IndexOfCharOf(c2);
    IndexOfCharOf(c3);
  }

  lemma TripleLast(b0: Byte, b1: Byte, b2: Byte)
    ensures DecodeLast(Encode([b0, b1, b2])) == Some([b0, b1, b2])
  {
    var q := EncodeTriple(b0, b1, b2);
    EncodeThree(b0, b1, b2);
    SplitMiddle(b1, b2);
    CharOfNotPad((b1 % 16) * 4 + b2 / 64);
    CharOfNotPad(b2 % 64);
    assert DecodeLast(q) == DecodeQuad(q);
    TripleRoundTrip(b0, b1, b2);
  }

  lemma CharOfNotPad(i: Sextet)
    ensures CharOf(i) != '='
  {
  }

  lemma EncodeThree(b0: Byte, b1: Byte, b2: Byte)
    ensures Encode([b0, b1, b2]) == EncodeTriple(b0, b1, b2)
  {
    assert [b0, b1, b2][3..] == [];
    assert Encode([b0, b1, b2]) == EncodeTriple(b0, b1, b2) + Encode([]);
  }

  lemma PairRoundTrip(b0: Byte, b1: Byte)
    ensures DecodeLast(Encode([b0, b1])) == Some([b0, b1])
  {
    var c0, c1, c2 := b0 / 4, (b0 % 4) * 16 + b1 / 16, (b1 % 16) * 4;
    SplitHigh(b0, b1);
    SplitMiddle(b1, 0);
    Rejoin16(b1);
    IndexOfCharOf(c0);
    IndexOfCharOf(c1);
    IndexOfCharOf(c2);
    var q := [CharOf(c0), CharOf(c1), CharOf(c2), '='];
    assert Encode([b0, b1]) == q;
    assert DecodeLast(q) == Some([c0 * 4 + c1 / 16, (c1 % 16) * 16 + c2 / 4]);
  }

  lemma SingleRoundTrip(b0: Byte)
    ensures DecodeLast(Encode([b0])) == Some([b0])
  {
    var c0, c1 := b0 / 4, (b0 % 4) * 16;
    SplitHigh(b0, 0);
    IndexOfCharOf(c0);
    IndexOfCharOf(c1);
  }

  lemma LastRoundTrip(bs: seq<Byte>)
    requires 1 <= |bs| <= 3
    ensures DecodeLast(Encode(bs)) == Some(bs)
  {
    if |bs| == 3 {
      assert bs == [bs[0], bs[1], bs[2]];
      TripleLast(bs[0], bs[1], bs[2]);
    } else if |bs| == 2 {
      assert bs == [bs[0], bs[1]];
      PairRoundTrip(bs[0], bs[1]);
    } else {
      assert bs == [bs[0]];
      SingleRoundTrip(bs[0]);
    }
  }

  /** A full group followed by a non-empty decodable rest decodes to the concatenation. */
  lemma DecodeConcat(q: string, rest: string, g: seq<Byte>, t: seq<Byte>)
    requires |q| == 4 && |rest| > 0
    requires DecodeQuad(q) == Some(g) && Decode(rest) == Some(t)
    ensures Decode(q + rest) == Some(g + t)
  {
    var s := q + rest;
    assert s[..4] == q && s[4..] == rest;
  }

  lemma EncodeCons(bs: seq<Byte>)
    requires |bs| > 3
    ensures Encode(bs) == EncodeTriple(bs[0], bs[1], bs[2]) + Encode(bs[3..])
  {
  }

  lemma FirstThree(bs: seq<Byte>)
    requires |bs| >= 3
    ensures [bs[0], bs[1], bs[2]] + bs[3..] == bs
  {
  }

  /** One step of the round trip: the first group, then the rest. */
  lemma DecodeEncodeStep(bs: seq<Byte>)
    requires |bs| > 3 && Decode(Encode(bs[3..])) == Some(bs[3..])
    ensures Decode(Encode(bs)) == Some(bs)
  {
    var g, t := [bs[0], bs[1], bs[2]], bs[3..];
    var head, rest := EncodeTriple(bs[0], bs[1], bs[2]), Encode(t);
    EncodeCons(bs);
    TripleRoundTrip(bs[0], bs[1], bs[2]);
    DecodeConcat(head, rest, g, t);
    assert Decode(Encode(bs)) == Some(g + t);
    FirstThree(bs);
  }

  /** Decoding what `b64encode` wrote gives the octets back. */
  lemma {:induction false} DecodeEncode(bs: seq<Byte>)
    ensures Decode(Encode(bs)) == Some(bs)
    decreases |bs|
  {
    if 1 <= |bs| <= 3 {
      LastRoundTrip(bs);
    } else if |bs| > 3 {
      DecodeEncode(bs[3..]);
      DecodeEncodeStep(bs);
    }
  }
}
