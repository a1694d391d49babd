/**
 * The machine integers of the model (`u8`, `i32`, `usize` on a 64-bit target)
 * and their little-endian byte encodings, which is how the header fields are
 * laid out in the allocation on x86_64.
 */
module Ints {

  newtype u8 = x: int | 0 <= x < 0x100
  newtype i32 = x: int | -0x8000_0000 <= x < 0x8000_0000
  newtype usize = x: int | 0 <= x < 0x1_0000_0000_0000_0000

  /** `usize::MAX` */
  const USIZE_MAX: nat := 0xFFFF_FFFF_FFFF_FFFF
  /** `isize::MAX`: no allocation may be larger than this */
  const ISIZE_MAX: nat := 0x7FFF_FFFF_FFFF_FFFF

  /** size_of / align_of on the 64-bit target */
  const USIZE_SIZE: nat := 8
  const USIZE_ALIGN: nat := 8
  const I32_SIZE: nat := 4
  const I32_ALIGN: nat := 4

  function Pow256(n: nat): nat
  {
    if n == 0 then 1 else 256 * Pow256(n - 1)
  }


  /** The `n` little-endian bytes of `x`. */
  function LeBytes(x: nat, n: nat): (s: seq<u8>)
    requires x < Pow256(n)
    ensures |s| == n
  {
    if n == 0 then []
    else
      assert x / 256 < Pow256(n - 1);
      [(x % 256) as u8] + LeBytes(x / 256, n - 1)
  }

  /** The number whose little-endian bytes are `s`. */
  function FromLe(s: seq<u8>): (x: nat)
    ensures x < Pow256(|s|)
  {
    if s == [] then 0
    else
      var rest := FromLe(s[1..]);
      assert s[0] as nat + 256 * rest <= 255 + 256 * (Pow256(|s| - 1) - 1);
      s[0] as nat + 256 * rest
  }

  lemma {:induction false} FromLeOfLeBytes(x: nat, n: nat)
    requires x < Pow256(n)
    ensures FromLe(LeBytes(x, n)) == x
  {
    if n > 0 {
      var s := LeBytes(x, n);
      assert s[1..] == LeBytes(x / 256, n - 1);
      FromLeOfLeBytes(x / 256, n - 1);
    }
  }

  lemma {:induction false} LeBytesOfFromLe(s: seq<u8>)
    ensures LeBytes(FromLe(s), |s|) == s
  {
    if s != [] {
      var x := FromLe(s);
      assert x % 256 == s[0] as nat && x / 256 == FromLe(s[1..]);
      LeBytesOfFromLe(s[1..]);
    }
  }

  /** Two's complement bytes of a 32-bit signed integer. */
  function EncodeI32(c: i32): (s: seq<u8>)
    ensures |s| == 4
  {
    LeBytes(if c < 0 then c as int + 0x1_0000_0000 else c as int, 4)
  }

  /** The code whose two's complement bytes are `s`. */
  function DecodeI32(s: seq<u8>): (c: i32)
    requires |s| == 4
    ensures c < 0 <==> s[3] >= 0x80
  {
    assert FromLe(s[3..]) == s[3] as nat by { assert s[3..][1..] == []; }
    assert FromLe(s[2..]) == s[2] as nat + 256 * s[3] as nat by { assert s[2..][1..] == s[3..]; }
    assert FromLe(s[1..]) == s[1] as nat + 256 * FromLe(s[2..]) by { assert s[1..][1..] == s[2..]; }
    var v := FromLe(s);
    assert v == s[0] as nat + 256 * FromLe(s[1..]);
    if v >= 0x8000_0000 then (v - 0x1_0000_0000) as i32 else v as i32
  }

  lemma DecodeEncodeI32(c: i32)
    ensures DecodeI32(EncodeI32(c)) == c
  {
    FromLeOfLeBytes(if c < 0 then c as int + 0x1_0000_0000 else c as int, 4);
  }

  lemma EncodeDecodeI32(s: seq<u8>)
    requires |s| == 4
    ensures EncodeI32(DecodeI32(s)) == s
  {
    LeBytesOfFromLe(s);
  }
}
