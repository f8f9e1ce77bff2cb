/** Right shifts and powers of two, as the tree code uses them to address nodes. */
module Bits {

  function Pow2(n: nat): (r: nat)
    ensures r >= 1
  {
    if n == 0 then 1 else 2 * Pow2(n - 1)
  }

  /** `n >> level`. */
  function Shr(n: nat, level: nat): nat {
    if level == 0 then n else Shr(n, level - 1) / 2
  }

  lemma HalvedBounds(n: nat, lo: nat, p: nat)
    requires lo * p <= n < (lo + 1) * p
    ensures (lo / 2) * (2 * p) <= n < (lo / 2 + 1) * (2 * p)
  {
    var hi := lo / 2;
    assert hi * (2 * p) == (2 * hi) * p;
    assert (hi + 1) * (2 * p) == (2 * hi + 2) * p;
    assert lo == 2 * hi || lo == 2 * hi + 1;
  }

  /** The shift is division by a power of two: bounds that pin the quotient. */
  lemma {:induction false} ShrIsDivision(n: nat, level: nat)
    ensures Shr(n, level) * Pow2(level) <= n < (Shr(n, level) + 1) * Pow2(level)
  {
    if level > 0 {
      ShrIsDivision(n, level - 1);
      HalvedBounds(n, Shr(n, level - 1), Pow2(level - 1));
    }
  }

  lemma MultipleIsLarger(q: nat, p: nat)
    ensures q >= 1 ==> q * p >= p
  {
  }

  lemma {:induction false} ShrBelowCapacity(n: nat, level: nat)
    requires n < Pow2(level)
    ensures Shr(n, level) == 0
  {
    ShrIsDivision(n, level);
    MultipleIsLarger(Shr(n, level), Pow2(level));
  }

  /** Counting up by one either keeps a shifted value or moves it up by one. */
  lemma {:induction false} ShrSucc(n: nat, level: nat)
    ensures Shr(n, level) <= Shr(n + 1, level) <= Shr(n, level) + 1
  {
    if level > 0 {
      ShrSucc(n, level - 1);
    }
  }
}
