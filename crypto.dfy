/**
 * The foreign routines rma_create_challenge calls: X25519, HMAC-SHA256
 * (RFC 2104) and base32_encode. None of their code is part of this model;
 * the model holds them as function values and is proved for every choice
 * of them that meets the contracts in WellBehaved.
 */
module Crypto {
  import opened Bytes

  /** Size of an HMAC-SHA256 digest. */
  const SHA256_DIGEST_SIZE: nat := 32

  /** Size of an X25519 scalar, public key or shared secret (RFC 7748 section 5). */
  const X25519_KEY_SIZE: nat := 32

  /**
   * x25519(scalar, point) is the X25519 function, hmacSha256(key, message)
   * the keyed hash, and base32(src, bits, pad) the characters that
   * base32_encode renders for the first `bits` bits of src followed by
   * `pad` padding characters (without the terminating zero byte).
   */
  datatype Primitives = Primitives(
    x25519: (seq<byte>, seq<byte>) -> seq<byte>,
    hmacSha256: (seq<byte>, seq<byte>) -> seq<byte>,
    base32: (seq<byte>, nat, nat) -> seq<byte>)

  /** The character count base32_encode produces: ceil(bits / 5) + pad. */
  function EncodedChars(bits: nat, pad: nat): (r: nat)
    ensures r >= pad
    ensures bits <= 5 * (r - pad) < bits + 5
  {
    (bits + 4) / 5 + pad
  }

  /** The assumed contracts of the primitives: their output lengths, and base32 text never holds a zero byte. */
  ghost predicate WellBehaved(p: Primitives) {
    && (forall scalar, point :: |p.x25519(scalar, point)| == X25519_KEY_SIZE)
    && (forall key, message :: |p.hmacSha256(key, message)| == SHA256_DIGEST_SIZE)
    && (forall src, bits: nat, pad: nat :: |p.base32(src, bits, pad)| == EncodedChars(bits, pad))
    && (forall src, bits: nat, pad: nat, i ::
          0 <= i < |p.base32(src, bits, pad)| ==> p.base32(src, bits, pad)[i] != 0)
  }

  /** base32_encode accepts a destination of `capacity` bytes when the text and its terminator fit. */
  predicate Fits(capacity: nat, bits: nat, pad: nat) {
    EncodedChars(bits, pad) + 1 <= capacity
  }

  /**
   * The destination buffer after base32_encode(dest, |buf|, src, bits, pad):
   * on success the text, a terminating zero and the untouched tail; on
   * failure the buffer as it was.
   */
  function EncodeInto(p: Primitives, buf: seq<byte>, src: seq<byte>, bits: nat, pad: nat): (r: seq<byte>)
    requires WellBehaved(p)
    ensures |r| == |buf|
    ensures Fits(|buf|, bits, pad) ==>
      var n := EncodedChars(bits, pad);
      r[..n] == p.base32(src, bits, pad) && r[n] == 0 && r[n + 1..] == buf[n + 1..]
    ensures !Fits(|buf|, bits, pad) ==> r == buf
  {
    if Fits(|buf|, bits, pad) then
      p.base32(src, bits, pad) + [0] + buf[EncodedChars(bits, pad) + 1..]
    else
      buf
  }

  /**
   * Encoding zero bits yields only the padding characters, and a
   * destination with room for them and a terminator accepts it.
   */
  lemma ZeroBitsGivePaddingOnly(p: Primitives, buf: seq<byte>, src: seq<byte>, pad: nat)
    requires WellBehaved(p) && |buf| >= pad + 1
    ensures |p.base32(src, 0, pad)| == pad
    ensures var r := EncodeInto(p, buf, src, 0, pad); r[..pad] == p.base32(src, 0, pad) && r[pad] == 0
  {
  }

  /**
   * base32_encode into a caller's buffer: succeeds exactly when the text
   * and its terminator fit, and on failure writes nothing.
   */
  method Base32Encode(p: Primitives, dest: array<byte>, src: seq<byte>, bits: nat, pad: nat)
    returns (ok: bool)
    requires WellBehaved(p)
    modifies dest
    ensures ok == Fits(dest.Length, bits, pad)
    ensures dest[..] == EncodeInto(p, old(dest[..]), src, bits, pad)
  {
    var text := p.base32(src, bits, pad);
    if |text| + 1 > dest.Length {
      return false;
    }
    ghost var before := dest[..];
    Memcpy(dest, 0, text + [0]);
    assert forall k :: 0 <= k < dest.Length ==> dest[k] == (text + [0] + before[|text| + 1..])[k];
    return true;
  }
}
