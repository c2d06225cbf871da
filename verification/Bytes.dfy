/** Bytes, exclusive or, and the big-endian form of a 64-bit number. */
module Bytes {

  type byte = b: int | 0 <= b < 256

  type bytes = seq<byte>

  // ------------------------------------------------------------------ exclusive or

  /** Bitwise exclusive or of the low `k` bits. */
  function XorBits(a: nat, b: nat, k: nat): nat {
    if k == 0 then 0
    else (if a % 2 == b % 2 then 0 else 1) + 2 * XorBits(a / 2, b / 2, k - 1)
  }

  function Pow2(k: nat): nat {
    if k == 0 then 1 else 2 * Pow2(k - 1)
  }

  lemma {:induction false} XorBitsBound(a: nat, b: nat, k: nat)
    ensures XorBits(a, b, k) < Pow2(k)
  {
    if k > 0 {
      XorBitsBound(a / 2, b / 2, k - 1);
    }
  }

  lemma {:induction false} XorBitsUndo(a: nat, b: nat, k: nat)
    requires a < Pow2(k)
    ensures XorBits(XorBits(a, b, k), b, k) == a
  {
    if k > 0 {
      XorBitsUndo(a / 2, b / 2, k - 1);
      var x := XorBits(a, b, k);
      assert x / 2 == XorBits(a / 2, b / 2, k - 1);
      assert x % 2 == if a % 2 == b % 2 then 0 else 1;
    }
  }

  function Xor(a: byte, b: byte): (r: byte)
    ensures XorBits(r, b, 8) == a
  {
    XorBitsBound(a, b, 8);
    assert Pow2(8) == 256;
    XorBitsUndo(a, b, 8);
    XorBits(a, b, 8)
  }

  // ------------------------------------------------------------------ big-endian numbers

  /** `u64::to_be_bytes` with a general width; a number too large for the width wraps around. */
  function BigEndian(n: nat, width: nat): (b: bytes)
    ensures |b| == width
  {
    if width == 0 then [] else BigEndian(n / 256, width - 1) + [n % 256]
  }

  function FromBigEndian(b: bytes): nat {
    if b == [] then 0 else 256 * FromBigEndian(b[..|b| - 1]) + b[|b| - 1]
  }

  function Pow256(k: nat): nat {
    if k == 0 then 1 else 256 * Pow256(k - 1)
  }

  lemma {:induction false} FromBigEndianOfBigEndian(n: nat, width: nat)
    requires n < Pow256(width)
    ensures FromBigEndian(BigEndian(n, width)) == n
  {
    if width > 0 {
      FromBigEndianOfBigEndian(n / 256, width - 1);
      var b := BigEndian(n, width);
      assert b[..|b| - 1] == BigEndian(n / 256, width - 1);
    }
  }

  lemma {:induction false} BigEndianOfFromBigEndian(b: bytes)
    ensures FromBigEndian(b) < Pow256(|b|)
    ensures BigEndian(FromBigEndian(b), |b|) == b
  {
    if b != [] {
      var front := b[..|b| - 1];
      BigEndianOfFromBigEndian(front);
      assert FromBigEndian(b) / 256 == FromBigEndian(front);
      assert b == front + [b[|b| - 1]];
    }
  }

  // ------------------------------------------------------------------ text as bytes

  function Concat(parts: seq<bytes>): bytes {
    if parts == [] then [] else parts[0] + Concat(parts[1..])
  }
}
