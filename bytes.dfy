/** Bytes, optional values, and the little-endian field encodings that the
    Windows bitmap headers use. */
module Bytes {

  datatype Option<T> = None | Some(value: T)

  newtype byte = x: int | 0 <= x < 256

  const Two16: nat := 0x1_0000
  const Two32: nat := 0x1_0000_0000

  /** A WORD field as it is laid out in memory: low byte first. Only the low
      16 bits of `v` survive, as with a cast to WORD. */
  function Le16(v: nat): (r: seq<byte>)
    ensures |r| == 2
  {
    [(v % 256) as byte, ((v / 256) % 256) as byte]
  }

  /** A DWORD field as it is laid out in memory: low byte first. Only the low
      32 bits of `v` survive, as with a cast to DWORD. */
  function Le32(v: nat): (r: seq<byte>)
    ensures |r| == 4
  {
    Le16(v % Two16) + Le16(v / Two16)
  }

  /** Reads back a two-byte little-endian field. */
  function Dec16(s: seq<byte>): (v: nat)
    requires |s| == 2
    ensures v < Two16
  {
    s[0] as nat + 256 * s[1] as nat
  }

  /** Reads back a four-byte little-endian field. */
  function Dec32(s: seq<byte>): (v: nat)
    requires |s| == 4
    ensures v < Two32
  {
    Dec16(s[..2]) + Two16 * Dec16(s[2..])
  }

  /** A DWORD cast leaves values below 2^32 alone. */
  lemma Mod32Small(x: nat)
    requires x < Two32
    ensures x % Two32 == x
  {
  }

  lemma Dec16Le16(v: nat)
    ensures Dec16(Le16(v)) == v % Two16
  {
    var q := v / 256;
    assert v == 256 * q + v % 256;
    assert q == 256 * (q / 256) + q % 256;
    assert v / Two16 == q / 256;
    assert v == Two16 * (q / 256) + 256 * (q % 256) + v % 256;
  }

  lemma Dec32Le32(v: nat)
    ensures Dec32(Le32(v)) == v % Two32
  {
    var lo, hi := v % Two16, v / Two16;
    var s := Le32(v);
    assert s[..2] == Le16(lo) && s[2..] == Le16(hi);
    Dec16Le16(lo);
    Dec16Le16(hi);
    assert hi == Two16 * (hi / Two16) + hi % Two16;
    assert v / Two32 == hi / Two16;
    assert v == Two32 * (hi / Two16) + Two16 * (hi % Two16) + lo;
  }

  /** `n` bytes taken from `s`, padded with zero bytes when `s` is shorter:
      what a buffer of `n` bytes holds after an opaque producer has stored
      `s` into it. */
  function Fit(s: seq<byte>, n: nat): (r: seq<byte>)
    ensures |r| == n
    ensures n <= |s| ==> r == s[..n]
    ensures forall i :: 0 <= i < n && |s| <= i ==> r[i] == 0
  {
    seq(n, i requires 0 <= i < n => if i < |s| then s[i] else 0)
  }
}
