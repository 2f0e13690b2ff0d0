/** `sha1_to_hex` (src/bt_core.cpp): lowercase Base16 of a digest, as in
    section 8 of RFC 4648 but with the alphabet in lower case. */
module Hex {
  import opened Base

  /** The lookup table the encoder indexes with each nibble. */
  const HexAlphabet: string := "0123456789abcdef"

  predicate IsLowerHexChar(c: char)
  {
    ('0' <= c <= '9') || ('a' <= c <= 'f')
  }

  /** A content identifier: a SHA-1 digest rendered as 40 lowercase hex characters. */
  predicate IsInfohash(s: string)
  {
    |s| == 40 && forall i :: 0 <= i < |s| ==> IsLowerHexChar(s[i])
  }

  /** The table entry for a nibble, spelled arithmetically. */
  function NibbleChar(n: nat): (c: char)
    requires n < 16
    ensures IsLowerHexChar(c)
    ensures c == HexAlphabet[n]
  {
    if n < 10 then ('0' as int + n) as char else ('a' as int + n - 10) as char
  }

  /** Character 2i holds the high nibble of byte i, character 2i+1 its low nibble. */
  function HexEncode(b: seq<byte>): (r: string)
    ensures |r| == 2 * |b|
    ensures forall i :: 0 <= i < |r| ==> IsLowerHexChar(r[i])
  {
    seq(2 * |b|, i requires 0 <= i < 2 * |b| =>
      if i % 2 == 0 then NibbleChar(b[i / 2] / 16) else NibbleChar(b[i / 2] % 16))
  }

  /** The value of one lowercase hex character; anything else is rejected. */
  function NibbleValue(c: char): (r: Option<nat>)
    ensures r.Some? <==> IsLowerHexChar(c)
    ensures r.Some? ==> r.value < 16 && NibbleChar(r.value) == c
  {
    if '0' <= c <= '9' then Some(c as int - '0' as int)
    else if 'a' <= c <= 'f' then Some(c as int - 'a' as int + 10)
    else None
  }

  /** The inverse of `HexEncode`: pairs of lowercase hex characters back to bytes. */
  function HexDecode(s: string): (r: Option<seq<byte>>)
    ensures r.Some? ==> 2 * |r.value| == |s|
    decreases |s|
  {
    if |s| == 0 then Some([])
    else if |s| == 1 then None
    else
      match (NibbleValue(s[0]), NibbleValue(s[1]), HexDecode(s[2..]))
      case (Some(hi), Some(lo), Some(rest)) => Some([(hi * 16 + lo) as byte] + rest)
      case _ => None
  }

  /** Decoding recovers the digest: the encoding loses nothing. */
  lemma {:induction false} HexRoundTrip(b: seq<byte>)
    ensures HexDecode(HexEncode(b)) == Some(b)
  {
    if b != [] {
      var hi, lo := b[0] / 16, b[0] % 16;
      EncodeHead(b);
      HexRoundTrip(b[1..]);
      NibbleRoundTrip(hi);
      NibbleRoundTrip(lo);
      DecodePair(HexEncode(b), hi, lo, b[1..]);
      NibbleSplit(b[0]);
      assert [b[0]] + b[1..] == b;
    }
  }

  /** The first byte becomes the first two characters, the rest the rest. */
  lemma EncodeHead(b: seq<byte>)
    requires b != []
    ensures var e := HexEncode(b);
      e[0] == NibbleChar(b[0] / 16) && e[1] == NibbleChar(b[0] % 16) && e[2..] == HexEncode(b[1..])
  {
    var e, t := HexEncode(b), HexEncode(b[1..]);
    forall i | 0 <= i < |t|
      ensures e[2 + i] == t[i]
    {
      assert (2 + i) % 2 == i % 2 && (2 + i) / 2 == i / 2 + 1;
    }
  }

  /** Two hex characters in front of an encoding decode to one more byte. */
  lemma DecodePair(s: string, hi: nat, lo: nat, rest: seq<byte>)
    requires |s| >= 2 && NibbleValue(s[0]) == Some(hi) && NibbleValue(s[1]) == Some(lo)
    requires HexDecode(s[2..]) == Some(rest)
    ensures hi * 16 + lo < 256
    ensures HexDecode(s) == Some([(hi * 16 + lo) as byte] + rest)
  {
  }

  /** Every nibble reads back from its character. */
  lemma NibbleRoundTrip(n: nat)
    requires n < 16
    ensures NibbleValue(NibbleChar(n)) == Some(n)
  {
  }

  /** A byte is its high nibble times sixteen plus its low nibble. */
  lemma NibbleSplit(x: byte)
    ensures (x / 16) * 16 + x % 16 == x
  {
  }

  /** Two digests with the same hex rendering are the same digest. */
  lemma HexEncodeInjective(a: seq<byte>, b: seq<byte>)
    requires HexEncode(a) == HexEncode(b)
    ensures a == b
  {
    HexRoundTrip(a);
    HexRoundTrip(b);
  }

  /** A 20-byte SHA-1 digest renders as a content identifier. */
  lemma DigestIsInfohash(b: seq<byte>)
    requires |b| == 20
    ensures IsInfohash(HexEncode(b))
  {
  }

  /** `sha1_to_hex`: size the output at twice the input, then fill it pairwise. */
  method Sha1ToHex(h: seq<byte>) returns (out: string)
    ensures out == HexEncode(h)
  {
    var buf := new char[2 * |h|];
    var i := 0;
    while i < |h|
      invariant 0 <= i <= |h|
      invariant forall j :: 0 <= j < 2 * i ==> buf[j] == HexEncode(h)[j]
    {
      var c := h[i];
      buf[2 * i] := HexAlphabet[c / 16];
      buf[2 * i + 1] := HexAlphabet[c % 16];
      i := i + 1;
    }
    out := buf[..];
  }
}
