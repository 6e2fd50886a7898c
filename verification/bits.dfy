/** Bitwise operations on non-negative integers, written one bit at a time:
    the low bit is `n % 2` and the rest is `n / 2`. */
module Bits {

  function Pow2(k: nat): (p: nat)
    ensures p >= 1
  {
    if k == 0 then 1 else 2 * Pow2(k - 1)
  }

  /** `a ^ b` on non-negative integers. */
  function Xor(a: nat, b: nat): nat
    decreases a + b
  {
    if a == 0 && b == 0 then 0
    else (if a % 2 == b % 2 then 0 else 1) + 2 * Xor(a / 2, b / 2)
  }

  /** `a | b` on non-negative integers. */
  function Or(a: nat, b: nat): nat
    decreases a + b
  {
    if a == 0 && b == 0 then 0
    else (if a % 2 == 1 || b % 2 == 1 then 1 else 0) + 2 * Or(a / 2, b / 2)
  }

  /** `n.bit_count()` for a non-negative `n`: the number of one bits. */
  function PopCount(n: nat): nat
  {
    if n == 0 then 0 else n % 2 + PopCount(n / 2)
  }

  /** Bit `i` of `n`, `(n >> i) & 1 == 1`. */
  predicate BitSet(n: nat, i: nat)
  {
    if i == 0 then n % 2 == 1 else BitSet(n / 2, i - 1)
  }

  /** The low bit of `a ^ b` is the exclusive or of the low bits, and the
      remaining bits are the exclusive or of the remaining bits. */
  lemma XorStep(a: nat, b: nat)
    ensures Xor(a, b) % 2 == (if a % 2 == b % 2 then 0 else 1)
    ensures Xor(a, b) / 2 == Xor(a / 2, b / 2)
  {
  }

  lemma {:induction false} XorSelf(a: nat)
    ensures Xor(a, a) == 0
    decreases a
  {
    if a != 0 { XorSelf(a / 2); }
  }

  lemma {:induction false} XorCommutes(a: nat, b: nat)
    ensures Xor(a, b) == Xor(b, a)
    decreases a + b
  {
    if a != 0 || b != 0 { XorCommutes(a / 2, b / 2); }
  }

  /** Exclusive or is zero only for equal operands. */
  lemma {:induction false} XorZeroOnlyIfEqual(a: nat, b: nat)
    requires Xor(a, b) == 0
    ensures a == b
    decreases a + b
  {
    if a != 0 || b != 0 {
      XorZeroOnlyIfEqual(a / 2, b / 2);
    }
  }

  lemma {:induction false} PopCountZero(n: nat)
    ensures PopCount(n) == 0 <==> n == 0
  {
    if n != 0 {
      if n % 2 == 0 {
        assert n / 2 != 0;
        PopCountZero(n / 2);
      }
    }
  }

  /** A number below `2^k` has at most `k` one bits. */
  lemma {:induction false} PopCountBound(n: nat, k: nat)
    requires n < Pow2(k)
    ensures PopCount(n) <= k
  {
    if n != 0 {
      assert k > 0;
      PopCountBound(n / 2, k - 1);
    }
  }

  /** `^` keeps numbers below `2^k` below `2^k`. */
  lemma {:induction false} XorBound(a: nat, b: nat, k: nat)
    requires a < Pow2(k) && b < Pow2(k)
    ensures Xor(a, b) < Pow2(k)
    decreases a + b
  {
    if a != 0 || b != 0 {
      assert k > 0;
      XorBound(a / 2, b / 2, k - 1);
    }
  }

  /** The number of differing bits obeys the triangle inequality. */
  lemma {:induction false} XorTriangle(a: nat, b: nat, c: nat)
    ensures PopCount(Xor(a, c)) <= PopCount(Xor(a, b)) + PopCount(Xor(b, c))
    decreases a + b + c
  {
    if a != 0 || b != 0 || c != 0 {
      XorTriangle(a / 2, b / 2, c / 2);
      XorStep(a, c);
      XorStep(a, b);
      XorStep(b, c);
      PopCountStep(Xor(a, c));
      PopCountStep(Xor(a, b));
      PopCountStep(Xor(b, c));
    }
  }

  lemma PopCountStep(n: nat)
    ensures PopCount(n) == n % 2 + PopCount(n / 2)
  {
  }

  /** Setting a bit that lies above every bit of `h` adds its value. */
  lemma {:induction false} OrFreshBit(h: nat, k: nat)
    requires h < Pow2(k)
    ensures Or(h, Pow2(k)) == h + Pow2(k)
  {
    if k == 0 {
      assert h == 0;
    } else {
      OrFreshBit(h / 2, k - 1);
      assert Pow2(k) / 2 == Pow2(k - 1) && Pow2(k) % 2 == 0;
    }
  }
}
