/** Bytes as numbers, and their bitwise exclusive or. */
module Bytes {
  import opened Arithmetic

  type Byte = b: int | 0 <= b < 256

  /** Exclusive or of the low `bits` bits. */
  function XorBits(a: nat, b: nat, bits: nat): (x: nat)
    ensures x < Pow2(bits)
  {
    if bits == 0 then 0
    else 2 * XorBits(a / 2, b / 2, bits - 1) + (if a % 2 == b % 2 then 0 else 1)
  }

  function Xor(a: Byte, b: Byte): Byte {
    assert Pow2(8) == 256;
    XorBits(a, b, 8)
  }

  lemma {:induction false} XorBitsAt(a: nat, b: nat, bits: nat, k: nat)
    requires k < bits
    ensures XorBits(a, b, bits) / Pow2(k) % 2 == if a / Pow2(k) % 2 == b / Pow2(k) % 2 then 0 else 1
    decreases k
  {
    var x := XorBits(a, b, bits);
    assert x / 2 == XorBits(a / 2, b / 2, bits - 1);
    assert x % 2 == if a % 2 == b % 2 then 0 else 1;
    hide XorBits;
    if k == 0 {
      assert Pow2(0) == 1;
    } else {
      XorBitsAt(a / 2, b / 2, bits - 1, k - 1);
      hide Pow2;
      HalveFirst(x, k);
      HalveFirst(a, k);
      HalveFirst(b, k);
    }
  }

  lemma HalveFirst(n: nat, k: nat)
    requires k > 0
    ensures n / Pow2(k) == n / 2 / Pow2(k - 1)
  {
    var p := Pow2(k - 1);
    var q, r := n / 2 / p, n / 2 % p;
    assert n == 2 * (q * p + r) + n % 2;
    assert n == q * (2 * p) + (2 * r + n % 2);
    QuotientUnique(n, 2 * p, q, 2 * r + n % 2);
  }

  /** A bit of the result is set exactly where the operands differ. */
  lemma XorAt(a: Byte, b: Byte, k: nat)
    requires k < 8
    ensures Xor(a, b) / Pow2(k) % 2 == 1 <==> a / Pow2(k) % 2 != b / Pow2(k) % 2
  {
    XorBitsAt(a, b, 8, k);
  }

  lemma {:induction false} XorBitsTwice(a: nat, b: nat, bits: nat)
    requires a < Pow2(bits)
    ensures XorBits(XorBits(a, b, bits), b, bits) == a
  {
    if bits > 0 {
      XorBitsTwice(a / 2, b / 2, bits - 1);
      assert XorBits(a, b, bits) / 2 == XorBits(a / 2, b / 2, bits - 1);
    }
  }

  /** Masking twice with the same byte gives the byte back. */
  lemma XorTwice(a: Byte, b: Byte)
    ensures Xor(Xor(a, b), b) == a
  {
    assert Pow2(8) == 256;
    XorBitsTwice(a, b, 8);
  }
}
