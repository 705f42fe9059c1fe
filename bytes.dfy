/** Bytes and the few pieces of Python integer arithmetic the driver relies on.
    Python integers are unbounded and `>>`, `&` behave as on an infinite two's-complement
    representation; for a positive divisor Dafny's Euclidean `/` and `%` agree with Python's
    floor division and modulo, which is what the definitions below rely on. */
module Bytes {

  type byte = x: int | 0 <= x < 256

  function Pow2(k: nat): (r: nat)
    ensures r >= 1
  {
    if k == 0 then 1 else 2 * Pow2(k - 1)
  }

  /** Python's `(x & (1 << k)) != 0`, for every integer x, negative ones included. */
  predicate TestBit(x: int, k: nat) {
    (x / Pow2(k)) % 2 == 1
  }

  /** Python's `a | b` on non-negative integers, bit by bit. */
  function BitOr(a: nat, b: nat): nat
    decreases a + b
  {
    if a == 0 then b
    else if b == 0 then a
    else 2 * BitOr(a / 2, b / 2) + (if a % 2 == 1 || b % 2 == 1 then 1 else 0)
  }

  lemma {:induction false} Pow2Add(j: nat, k: nat)
    ensures Pow2(j + k) == Pow2(j) * Pow2(k)
  {
    if j > 0 {
      Pow2Add(j - 1, k);
    }
  }

  lemma Pow2Values()
    ensures Pow2(6) == 64 && Pow2(8) == 256 && Pow2(16) == 0x1_0000 && Pow2(32) == 0x1_0000_0000
  {
    assert Pow2(2) == 4;
    assert Pow2(4) == 16 by { Pow2Add(2, 2); }
    assert Pow2(6) == 64 by { Pow2Add(4, 2); }
    assert Pow2(8) == 256 by { Pow2Add(4, 4); }
    assert Pow2(16) == 0x1_0000 by { Pow2Add(8, 8); }
    assert Pow2(32) == 0x1_0000_0000 by { Pow2Add(16, 16); }
  }

  /** In Python `-1` has every bit set: `-1 & m` is non-zero for every mask bit. */
  lemma {:induction false} MinusOneHasAllBits(k: nat)
    ensures TestBit(-1, k)
  {
    var p: int := Pow2(k);
    assert -1 == p * (-1) + (p - 1);
    assert -1 / p == -1;
  }

  /** `(c << k) | b` is `(c << k) + b` when `b < 2^k`: the two operands have no set bit in common.
      This is how the driver's shift-and-or field assembly is read as a sum. */
  lemma {:induction false} BitOrDisjoint(c: nat, b: nat, k: nat)
    requires b < Pow2(k)
    ensures BitOr(c * Pow2(k), b) == c * Pow2(k) + b
    decreases k
  {
    var a := c * Pow2(k);
    if a == 0 || b == 0 {
    } else {
      var m := c * Pow2(k - 1);
      assert a == 2 * m;
      assert a / 2 == m && a % 2 == 0;
      BitOrDisjoint(c, b / 2, k - 1);
      assert BitOr(a, b) == 2 * (m + b / 2) + b % 2;
    }
  }
}
