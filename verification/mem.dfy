/**
 * Byte buffers and the two libc routines the benchmarks use on them,
 * memset and memcpy, written out as loops so that what they leave in a
 * buffer can be stated.
 */
module Mem {

  /** A C `char` as stored in a buffer: one byte, 0..255. */
  newtype Byte = b: int | 0 <= b < 256

  /** memset(a, v, n): the first n bytes become v, the rest are untouched. */
  method Memset(a: array<Byte>, v: Byte, n: nat)
    requires n <= a.Length
    modifies a
    ensures forall i :: 0 <= i < n ==> a[i] == v
    ensures forall i :: n <= i < a.Length ==> a[i] == old(a[i])
  {
    var i := 0;
    while i < n
      invariant 0 <= i <= n
      invariant forall k :: 0 <= k < i ==> a[k] == v
      invariant forall k :: i <= k < a.Length ==> a[k] == old(a[k])
    {
      a[i] := v;
      i := i + 1;
    }
  }

  /**
   * memcpy(dst, src + off, n): the first n bytes of dst become the n bytes of
   * src starting at off. The two regions belong to different mappings.
   */
  method Memcpy(dst: array<Byte>, src: array<Byte>, off: nat, n: nat)
    requires dst != src
    requires n <= dst.Length && off + n <= src.Length
    modifies dst
    ensures forall i :: 0 <= i < n ==> dst[i] == src[off + i]
    ensures forall i :: n <= i < dst.Length ==> dst[i] == old(dst[i])
  {
    var i := 0;
    while i < n
      invariant 0 <= i <= n
      invariant forall k :: 0 <= k < i ==> dst[k] == src[off + k]
      invariant forall k :: i <= k < dst.Length ==> dst[k] == old(dst[k])
    {
      dst[i] := src[off + i];
      i := i + 1;
    }
  }
}
