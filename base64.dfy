/**
 * Base 64 as section 4 of RFC 4648 defines it: every three octets become four
 * characters of a 64-character alphabet, and a final group of one or two
 * octets is padded with `=` to four characters.
 */
module Base64 {
  import opened Wrappers
  import opened Utf8

  /**
   * The alphabet of Table 1 of RFC 4648: `A`-`Z` for 0-25, `a`-`z` for 26-51,
   * `0`-`9` for 52-61, then `+` and `/`. The six-bit value a character
   * stands for, if it is one of the alphabet.
   */
  function ValueOf(c: char): (r: Option<nat>)
    ensures r.Some? ==> r.value < 64
  {
    if 'A' <= c <= 'Z' then Some(c as int - 'A' as int)
    else if 'a' <= c <= 'z' then Some(c as int - 'a' as int + 26)
    else if '0' <= c <= '9' then Some(c as int - '0' as int + 52)
    else if c == '+' then Some(62)
    else if c == '/' then Some(63)
    else None
  }

  /** The character of the alphabet that stands for a six-bit value. */
  function CharOf(v: nat): (c: char)
    requires v < 64
    ensures ValueOf(c) == Some(v)
  {
    if v < 26 then ('A' as int + v) as char
    else if v < 52 then ('a' as int + v - 26) as char
    else if v < 62 then ('0' as int + v - 52) as char
    else if v == 62 then '+'
    else '/'
  }

  /** A character of the output: one of the alphabet, or the pad `=`. */
  predicate IsOutputChar(c: char) {
    ValueOf(c).Some? || c == '='
  }

  /** A full group: three octets as four characters. */
  function FullGroup(b0: byte, b1: byte, b2: byte): (g: string)
    ensures |g| == 4
  {
    [CharOf(b0 / 4), CharOf((b0 % 4) * 16 + b1 / 16), CharOf((b1 % 16) * 4 + b2 / 64), CharOf(b2 % 64)]
  }

  /** The final group of two octets, padded with one `=`. */
  function TwoOctetGroup(b0: byte, b1: byte): (g: string)
    ensures |g| == 4
  {
    [CharOf(b0 / 4), CharOf((b0 % 4) * 16 + b1 / 16), CharOf((b1 % 16) * 4), '=']
  }

  /** The final group of one octet, padded with two `=`. */
  function OneOctetGroup(b0: byte): (g: string)
    ensures |g| == 4
  {
    [CharOf(b0 / 4), CharOf((b0 % 4) * 16), '=', '=']
  }

  /** `base64.b64encode`. */
  function Encode(bs: seq<byte>): (r: string)
    ensures |r| == 4 * ((|bs| + 2) / 3)
    decreases |bs|
  {
    if bs == [] then ""
    else if |bs| == 1 then OneOctetGroup(bs[0])
    else if |bs| == 2 then TwoOctetGroup(bs[0], bs[1])
    else FullGroup(bs[0], bs[1], bs[2]) + Encode(bs[3..])
  }

  /** Every character of the encoding is one of the alphabet or the pad. */
  lemma {:induction false} EncodeAlphabet(bs: seq<byte>)
    ensures forall i | 0 <= i < |Encode(bs)| :: IsOutputChar(Encode(bs)[i])
    decreases |bs|
  {
    if |bs| >= 3 {
      EncodeAlphabet(bs[3..]);
      var s := Encode(bs);
      var g := FullGroup(bs[0], bs[1], bs[2]);
      var rest := Encode(bs[3..]);
      assert forall i | 0 <= i < 4 :: s[i] == g[i];
      assert forall i | 4 <= i < |s| :: s[i] == rest[i - 4];
    }
  }

  /** The three octets four six-bit values stand for. */
  function Octets(v0: nat, v1: nat, v2: nat, v3: nat): seq<byte>
    requires v0 < 64 && v1 < 64 && v2 < 64 && v3 < 64
  {
    [v0 * 4 + v1 / 16, (v1 % 16) * 16 + v2 / 4, (v2 % 4) * 64 + v3]
  }

  /** One group of four characters; `last` allows padding, which only the final group may carry. */
  function DecodeGroup(g: string, last: bool): Option<seq<byte>>
    requires |g| == 4
  {
    var v0 :- ValueOf(g[0]);
    var v1 :- ValueOf(g[1]);
    if last && g[2] == '=' && g[3] == '=' then Some(Octets(v0, v1, 0, 0)[..1])
    else
      var v2 :- ValueOf(g[2]);
      if last && g[3] == '=' then Some(Octets(v0, v1, v2, 0)[..2])
      else
        var v3 :- ValueOf(g[3]);
        Some(Octets(v0, v1, v2, v3))
  }

  /** `base64.b64decode`, the partner of `Encode`, on well-formed input. */
  function Decode(s: string): Option<seq<byte>>
    decreases |s|
  {
    if s == [] then Some([])
    else if |s| < 4 then None
    else
      var group :- DecodeGroup(s[..4], |s| == 4);
      var rest :- Decode(s[4..]);
      Some(group + rest)
  }

  /** Division by the group widths, for the bit-splitting arithmetic below. */
  lemma DivMod(q: int, r: int, k: int)
    requires k in {4, 16, 64} && 0 <= r < k && q >= 0
    ensures (k * q + r) / k == q && (k * q + r) % k == r
  {
    if k == 4 {
      assert (4 * q + r) / 4 == q;
    } else if k == 16 {
      assert (16 * q + r) / 16 == q;
    } else {
      assert (64 * q + r) / 64 == q;
    }
  }

  /** Three octets split into four six-bit values and put back together. */
  lemma {:induction false} OctetsOfGroup(b0: byte, b1: byte, b2: byte)
    ensures Octets(b0 / 4, (b0 % 4) * 16 + b1 / 16, (b1 % 16) * 4 + b2 / 64, b2 % 64) == [b0, b1, b2]
  {
    DivMod(b0 % 4, b1 / 16, 16);
    DivMod(b1 % 16, b2 / 64, 4);
  }

  /** The padded group of one octet decodes back to it. */
  lemma PaddedOneGroup(b0: byte)
    ensures DecodeGroup(OneOctetGroup(b0), true) == Some([b0])
  {
    var g := OneOctetGroup(b0);
    DivMod(b0 % 4, 0, 16);
    assert ((b0 % 4) * 16) / 16 == b0 % 4;
    assert (b0 / 4) * 4 + b0 % 4 == b0;
    assert ValueOf(g[0]) == Some(b0 / 4);
    assert ValueOf(g[1]) == Some((b0 % 4) * 16);
    assert Octets(b0 / 4, (b0 % 4) * 16, 0, 0)[..1] == [b0];
  }

  /** The padded group of two octets decodes back to them. */
  lemma PaddedTwoGroup(b0: byte, b1: byte)
    ensures DecodeGroup(TwoOctetGroup(b0, b1), true) == Some([b0, b1])
  {
    var g := TwoOctetGroup(b0, b1);
    OctetsOfGroup(b0, b1, 0);
    assert ValueOf(g[0]) == Some(b0 / 4);
    assert ValueOf(g[1]) == Some((b0 % 4) * 16 + b1 / 16);
    assert ValueOf(g[2]) == Some((b1 % 16) * 4);
    assert Octets(b0 / 4, (b0 % 4) * 16 + b1 / 16, (b1 % 16) * 4, 0)[..2] == [b0, b1];
  }

  /** Text of exactly four characters is decoded as one final group. */
  lemma DecodeLastGroup(g: string)
    requires |g| == 4
    ensures Decode(g) == DecodeGroup(g, true)
  {
    assert g[..4] == g && g[4..] == [];
    assert Decode(g[4..]) == Some([]);
    if DecodeGroup(g, true).Some? {
      assert DecodeGroup(g, true).value + [] == DecodeGroup(g, true).value;
    }
  }

  /** A single octet is encoded as a padded group that decodes back to it. */
  lemma OneOctetRoundTrip(bs: seq<byte>)
    requires |bs| == 1
    ensures Decode(Encode(bs)) == Some(bs)
  {
    var g := OneOctetGroup(bs[0]);
    PaddedOneGroup(bs[0]);
    DecodeLastGroup(g);
    assert [bs[0]] == bs;
  }

  /** Two octets are encoded as a padded group that decodes back to them. */
  lemma TwoOctetsRoundTrip(bs: seq<byte>)
    requires |bs| == 2
    ensures Decode(Encode(bs)) == Some(bs)
  {
    var g := TwoOctetGroup(bs[0], bs[1]);
    PaddedTwoGroup(bs[0], bs[1]);
    DecodeLastGroup(g);
    assert [bs[0], bs[1]] == bs;
  }

  /** The four characters of a full group decode to the three octets they came from. */
  lemma GroupRoundTrip(b0: byte, b1: byte, b2: byte, last: bool)
    ensures DecodeGroup(FullGroup(b0, b1, b2), last) == Some([b0, b1, b2])
  {
    assert b0 / 4 < 64 && (b0 % 4) * 16 + b1 / 16 < 64 && (b1 % 16) * 4 + b2 / 64 < 64 && b2 % 64 < 64;
    var g := FullGroup(b0, b1, b2);
    OctetsOfGroup(b0, b1, b2);
    assert ValueOf(g[0]) == Some(b0 / 4);
    assert ValueOf(g[1]) == Some((b0 % 4) * 16 + b1 / 16);
    assert ValueOf(g[2]) == Some((b1 % 16) * 4 + b2 / 64);
    assert ValueOf(g[3]) == Some(b2 % 64);
  }

  /** Text that starts with a decodable group decodes to that group's octets followed by the rest's. */
  lemma DecodeFirstGroup(g: string, rest: string, octets: seq<byte>)
    requires |g| == 4 && DecodeGroup(g, rest == []) == Some(octets)
    ensures Decode(g + rest) == (if Decode(rest).Some? then Some(octets + Decode(rest).value) else None)
  {
    var s := g + rest;
    assert s[..4] == g && s[4..] == rest;
  }

  /** Base 64 loses nothing: decoding the encoding of any octet string gives it back. */
  lemma {:induction false} RoundTrip(bs: seq<byte>)
    ensures Decode(Encode(bs)) == Some(bs)
    decreases |bs|
  {
    var s := Encode(bs);
    if |bs| == 1 {
      OneOctetRoundTrip(bs);
    } else if |bs| == 2 {
      TwoOctetsRoundTrip(bs);
    } else if |bs| >= 3 {
      var g := FullGroup(bs[0], bs[1], bs[2]);
      var rest := Encode(bs[3..]);
      GroupRoundTrip(bs[0], bs[1], bs[2], rest == []);
      RoundTrip(bs[3..]);
      DecodeFirstGroup(g, rest, [bs[0], bs[1], bs[2]]);
      assert [bs[0], bs[1], bs[2]] + bs[3..] == bs;
    }
  }
}
