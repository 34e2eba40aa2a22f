/** The cell type of the machine's RAM and scratchpad (Python `bytearray` elements). */
module Bytes {
  newtype byte = x: int | 0 <= x < 256

  /** Whether `v` may be stored into a bytearray cell without a ValueError. */
  predicate IsByte(v: int) {
    0 <= v < 256
  }

  /** Python's `v & 0xFF`, for operands of either sign. */
  function Mask(v: int): (r: byte)
    ensures IsByte(v) ==> r as int == v
    ensures (v - r as int) % 256 == 0
  {
    (v % 256) as byte
  }

  function Pow2(k: nat): (r: nat)
    ensures r >= 1
  {
    if k == 0 then 1 else 2 * Pow2(k - 1)
  }

  /** Python's `a & b` on non-negative ints, bit by bit from the lowest: never above either operand. */
  function BitAnd(a: nat, b: nat): (r: nat)
    ensures r <= a && r <= b
    decreases a + b
  {
    if a == 0 && b == 0 then 0
    else 2 * BitAnd(a / 2, b / 2) + (if a % 2 == 1 && b % 2 == 1 then 1 else 0)
  }

  /** Python's `a | b` on non-negative ints: never below either operand. */
  function BitOr(a: nat, b: nat): (r: nat)
    ensures r >= a && r >= b
    decreases a + b
  {
    if a == 0 && b == 0 then 0
    else 2 * BitOr(a / 2, b / 2) + (if a % 2 == 1 || b % 2 == 1 then 1 else 0)
  }

  /** Python's `a ^ b` on non-negative ints. */
  function BitXor(a: nat, b: nat): nat
    decreases a + b
  {
    if a == 0 && b == 0 then 0
    else 2 * BitXor(a / 2, b / 2) + (if a % 2 != b % 2 then 1 else 0)
  }

  /** OR and XOR of two k-bit numbers are k-bit numbers. */
  lemma {:induction false} BitsBelow(a: nat, b: nat, k: nat)
    requires a < Pow2(k) && b < Pow2(k)
    ensures BitOr(a, b) < Pow2(k) && BitXor(a, b) < Pow2(k)
    decreases k
  {
    if k > 0 && !(a == 0 && b == 0) {
      BitsBelow(a / 2, b / 2, k - 1);
    }
  }

  /** So OR and XOR of two bytes are bytes: no `& 0xFF` is needed after them. */
  lemma ByteBits(a: byte, b: byte)
    ensures BitOr(a as nat, b as nat) < 256 && BitXor(a as nat, b as nat) < 256
  {
    assert Pow2(8) == 256;
    BitsBelow(a as nat, b as nat, 8);
  }

  /** XOR with the same operand twice gives the first operand back. */
  lemma {:induction false} XorTwice(a: nat, b: nat)
    ensures BitXor(BitXor(a, b), b) == a
    decreases a + b
  {
    if !(a == 0 && b == 0) {
      XorTwice(a / 2, b / 2);
      var t := BitXor(a, b);
      assert t / 2 == BitXor(a / 2, b / 2);
      assert t % 2 == (if a % 2 != b % 2 then 1 else 0);
    }
  }
}
