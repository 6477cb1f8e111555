/**
 * Bytes and the C library routines the RMA authorizer applies to byte
 * buffers: memset, memcpy and the constant-time comparison safe_memcmp.
 */
module Bytes {

  /** A C `uint8_t` / `char`. */
  newtype byte = x: int | 0 <= x < 0x100

  datatype Option<+T> = None | Some(value: T)

  /** The contents of an n-byte buffer after memset(buf, 0, n). */
  function Zeros(n: nat): (r: seq<byte>)
    ensures |r| == n
    ensures forall i :: 0 <= i < n ==> r[i] == 0
  {
    seq(n, _ => 0)
  }

  /** memset(dst, 0, sizeof dst): every byte of the buffer becomes zero. */
  method Memset(dst: array<byte>)
    modifies dst
    ensures dst[..] == Zeros(dst.Length)
  {
    forall i | 0 <= i < dst.Length {
      dst[i] := 0;
    }
  }

  /**
   * memcpy(dst + off, src, |src|): the window [off, off + |src|) now holds
   * src and the bytes on either side of it are untouched.
   */
  method Memcpy(dst: array<byte>, off: nat, src: seq<byte>)
    requires off + |src| <= dst.Length
    modifies dst
    ensures forall k :: 0 <= k < off ==> dst[k] == old(dst[k])
    ensures forall k :: 0 <= k < |src| ==> dst[off + k] == src[k]
    ensures forall k :: off + |src| <= k < dst.Length ==> dst[k] == old(dst[k])
  {
    forall i | 0 <= i < |src| {
      dst[off + i] := src[i];
    }
  }

  /**
   * safe_memcmp(a, b, n): reports whether the first n bytes differ. It
   * looks at every one of the n positions, with no early exit at the first
   * difference.
   */
  method SafeMemcmp(a: seq<byte>, b: seq<byte>, n: nat) returns (differ: bool)
    requires n <= |a| && n <= |b|
    ensures differ <==> a[..n] != b[..n]
  {
    differ := false;
    var i := 0;
    while i < n
      invariant 0 <= i <= n
      invariant differ <==> exists k :: 0 <= k < i && a[k] != b[k]
    {
      var here := a[i] != b[i];
      differ := differ || here;
      i := i + 1;
    }
    if !differ {
      assert forall k :: 0 <= k < n ==> a[..n][k] == b[..n][k];
    } else {
      var k :| 0 <= k < n && a[k] != b[k];
      assert a[..n][k] != b[..n][k];
    }
  }
}
