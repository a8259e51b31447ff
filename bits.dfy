/**
 * Bitwise AND and OR on non-negative integers, and the 64-bit word a Go
 * `int` occupies: `Bits(x)` is the two's-complement bit pattern of `x`
 * wrapped to 64 bits, read as an unsigned number, so `x & y == 0` in Go is
 * `BitAnd(Bits(x), Bits(y)) == 0` here, even after overflow.
 */
module Bitwise {
  const Word: nat := 0x1_0000_0000_0000_0000

  /** Go's 64-bit pattern of `x`. */
  function Bits(x: int): (b: nat)
    ensures b < Word
    ensures 0 <= x < Word ==> b == x
  {
    x % Word
  }

  function Pow2(n: nat): (p: nat)
    ensures p >= 1
  {
    if n == 0 then 1 else 2 * Pow2(n - 1)
  }

  function BitAnd(a: nat, b: nat): (r: nat)
    ensures r <= a && r <= b
    decreases a
  {
    if a == 0 || b == 0 then 0
    else 2 * BitAnd(a / 2, b / 2) + (if a % 2 == 1 && b % 2 == 1 then 1 else 0)
  }

  function BitOr(a: nat, b: nat): (r: nat)
    ensures r <= a + b
    decreases a
  {
    if a == 0 then b
    else if b == 0 then a
    else 2 * BitOr(a / 2, b / 2) + (if a % 2 == 1 || b % 2 == 1 then 1 else 0)
  }

  lemma {:induction false} BitAndComm(a: nat, b: nat)
    ensures BitAnd(a, b) == BitAnd(b, a)
    decreases a
  {
    if a != 0 && b != 0 {
      BitAndComm(a / 2, b / 2);
    }
  }

  /** Disjoint bit sets add without carries: their sum is their union. */
  lemma {:induction false} DisjointSumIsOr(a: nat, b: nat)
    requires BitAnd(a, b) == 0
    ensures a + b == BitOr(a, b)
    decreases a
  {
    if a != 0 && b != 0 {
      DisjointSumIsOr(a / 2, b / 2);
    }
  }

  /** A union misses `c` exactly when both parts miss it. */
  lemma {:induction false} OrMisses(a: nat, b: nat, c: nat)
    ensures BitAnd(BitOr(a, b), c) == 0 <==> BitAnd(a, c) == 0 && BitAnd(b, c) == 0
    decreases a
  {
    if a != 0 && b != 0 && c != 0 {
      OrMisses(a / 2, b / 2, c / 2);
      OrStep(a, b);
      AndZeroStep(BitOr(a, b), c);
      AndZeroStep(a, c);
      AndZeroStep(b, c);
    }
  }

  /** One step of BitOr: the low bit is the union of the low bits, the rest the union of the rest. */
  lemma OrStep(a: nat, b: nat)
    requires a != 0 && b != 0
    ensures BitOr(a, b) != 0
    ensures BitOr(a, b) / 2 == BitOr(a / 2, b / 2)
    ensures BitOr(a, b) % 2 == 1 <==> a % 2 == 1 || b % 2 == 1
  {
  }

  /** One step of BitAnd: two numbers miss each other when their low bits and their high bits do. */
  lemma AndZeroStep(x: nat, c: nat)
    requires x != 0 && c != 0
    ensures BitAnd(x, c) == 0 <==> BitAnd(x / 2, c / 2) == 0 && !(x % 2 == 1 && c % 2 == 1)
  {
  }

  /** Two different single bits never overlap. */
  lemma {:induction false} PowersDisjoint(i: nat, j: nat)
    requires i != j
    ensures BitAnd(Pow2(i), Pow2(j)) == 0
    decreases i + j
  {
    if i > 0 && j > 0 {
      PowersDisjoint(i - 1, j - 1);
      assert Pow2(i) / 2 == Pow2(i - 1) && Pow2(j) / 2 == Pow2(j - 1);
    } else if i == 0 {
      assert Pow2(j) % 2 == 0;
      assert BitAnd(Pow2(j) / 2, 0) == 0;
    } else {
      assert Pow2(i) % 2 == 0;
      assert BitAnd(Pow2(i) / 2, 0) == 0;
    }
  }
}
