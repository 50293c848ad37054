/**
 The UTF-8 encoding (section 3 of RFC 3629), for what the three decoders here make of
 well-formed text.
 */
module Utf8 {

  /** A code point that is no surrogate. */
  predicate Scalar(cp: int) { 0 <= cp < 0xD800 || 0xE000 <= cp < 0x11_0000 }

  type Byte = b: int | 0 <= b < 256

  function Encode(cp: int): (bytes: seq<Byte>)
    requires Scalar(cp)
    ensures 1 <= |bytes| <= 4
    ensures cp > 0 ==> forall i :: 0 <= i < |bytes| ==> bytes[i] > 0
  {
    if cp < 0x80 then [cp]
    else if cp < 0x800 then [0xC0 + cp / 64, 0x80 + cp % 64]
    else if cp < 0x1_0000 then [0xE0 + cp / 4096, 0x80 + cp / 64 % 64, 0x80 + cp % 64]
    else [0xF0 + cp / 262144, 0x80 + cp / 4096 % 64, 0x80 + cp / 64 % 64, 0x80 + cp % 64]
  }

  /** The same as a string of bytes. */
  function Encoded(cp: int): (s: string)
    requires Scalar(cp)
    ensures |s| == |Encode(cp)| && forall i :: 0 <= i < |s| ==> s[i] as int == Encode(cp)[i]
  {
    seq(|Encode(cp)|, i requires 0 <= i < |Encode(cp)| => Encode(cp)[i] as char)
  }

  /** The bits the first byte carries. */
  function LeadBits(e: seq<Byte>): int
    requires e != []
  {
    if |e| == 1 then e[0] else if |e| == 2 then e[0] % 32 else if |e| == 3 then e[0] % 16 else e[0] % 8
  }

  /** With six bits from each byte that follows. */
  function Folded(e: seq<Byte>, bits: int): int
    requires e != []
  {
    if |e| == 1 then bits
    else if |e| == 2 then bits * 64 + e[1] % 64
    else if |e| == 3 then (bits * 64 + e[1] % 64) * 64 + e[2] % 64
    else ((bits * 64 + e[1] % 64) * 64 + e[2] % 64) * 64 + e[3] % 64
  }

  lemma Reassembled(cp: int)
    requires Scalar(cp)
    ensures Folded(Encode(cp), LeadBits(Encode(cp))) == cp
  {
    Quotients(cp);
    Tail(cp % 64);
    Tail(cp / 64 % 64);
    Tail(cp / 4096 % 64);
    if cp < 0x80 {
    } else if cp < 0x800 {
      assert (0xC0 + cp / 64) % 32 == cp / 64;
    } else if cp < 0x1_0000 {
      assert (0xE0 + cp / 4096) % 16 == cp / 4096;
    } else {
      assert (0xF0 + cp / 262144) % 8 == cp / 262144;
    }
  }

  lemma Tail(r: int)
    requires 0 <= r < 64
    ensures (0x80 + r) % 64 == r
  {
  }

  lemma Quotients(cp: int)
    requires cp >= 0
    ensures cp == cp / 64 * 64 + cp % 64
    ensures cp / 64 == cp / 4096 * 64 + cp / 64 % 64
    ensures cp / 4096 == cp / 262144 * 64 + cp / 4096 % 64
  {
  }
}
