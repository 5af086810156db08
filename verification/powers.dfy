/** Powers of two and the few facts about integer division that the block
    arithmetic needs. Addresses are unbounded naturals; the 32-bit width is
    the constant AddressSpace. */
module Powers {

  /** Number of IPv4 addresses, 2^32. */
  const AddressSpace: nat := 0x1_0000_0000

  function Pow2(n: nat): (r: nat)
    ensures r >= 1
  {
    if n == 0 then 1 else 2 * Pow2(n - 1)
  }

  lemma {:induction false} Pow2Add(a: nat, b: nat)
    ensures Pow2(a + b) == Pow2(a) * Pow2(b)
  {
    if a > 0 {
      Pow2Add(a - 1, b);
      assert Pow2(a + b) == 2 * Pow2(a - 1 + b);
      assert Pow2(a) * Pow2(b) == 2 * (Pow2(a - 1) * Pow2(b));
    }
  }

  lemma {:induction false} Pow2Monotone(a: nat, b: nat)
    ensures a <= b ==> Pow2(a) <= Pow2(b)
  {
    if a < b {
      Pow2Monotone(a, b - 1);
    }
  }

  lemma Pow2Of32()
    ensures Pow2(32) == AddressSpace
  {
    Pow2Add(16, 16);
    Pow2Add(8, 8);
    assert Pow2(8) == 256;
  }

  /** A nonzero multiple of s is at least s away from zero. */
  lemma MulAwayFromZero(d: int, s: int)
    requires s > 0
    ensures d >= 1 ==> d * s >= s
    ensures d <= -1 ==> d * s <= -s
  {
    if d >= 1 {
      assert d * s == s + (d - 1) * s;
    } else if d <= -1 {
      assert d * s == -s + (d + 1) * s;
    }
  }

  /** Division with remainder is unique: the quotient and remainder Dafny
      computes are the only ones that fit. */
  lemma DivModUnique(x: int, s: int, q: int, r: int)
    requires s > 0 && 0 <= r < s && x == q * s + r
    ensures x / s == q && x % s == r
  {
    var d := q - x / s;
    assert d * s == x % s - r;
    MulAwayFromZero(d, s);
  }

  lemma MultipleMod(q: int, s: int)
    requires s > 0
    ensures (q * s) % s == 0 && (q * s) / s == q
  {
    DivModUnique(q * s, s, q, 0);
  }

  /** If x < m * s with x a multiple of s, the next multiple is still <= m * s. */
  lemma MultipleBelow(x: nat, s: nat, m: nat)
    requires s > 0 && x % s == 0 && x < m * s
    ensures x + s <= m * s
  {
    var q := x / s;
    MultipleMod(q, s);
    assert x == q * s;
    MulAwayFromZero(m - q, s);
    assert (q + 1) * s <= m * s;
  }
}
