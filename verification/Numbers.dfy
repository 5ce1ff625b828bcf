/** Powers of two, as used for address blocks. */
module Numbers {

  function Pow2(n: nat): (r: int)
    ensures 1 <= r
  {
    if n == 0 then 1 else 2 * Pow2(n - 1)
  }

  lemma {:induction false} Pow2Adds(m: nat, n: nat)
    ensures Pow2(m + n) == Pow2(m) * Pow2(n)
  {
    if n == 0 {
    } else {
      Pow2Adds(m, n - 1);
      assert m + n - 1 == m + (n - 1);
    }
  }

  /** The block sizes that occur in addresses. */
  lemma Pow2Table()
    ensures Pow2(1) == 2 && Pow2(2) == 4 && Pow2(4) == 16 && Pow2(8) == 256 && Pow2(16) == 65536
    ensures Pow2(17) == 131072 && Pow2(20) == 1048576 && Pow2(22) == 4194304 && Pow2(24) == 16777216
    ensures Pow2(28) == 268435456 && Pow2(32) == 4294967296
  {
    assert Pow2(1) == 2 && Pow2(2) == 4;
    Pow2Adds(2, 2);
    Pow2Adds(4, 4);
    Pow2Adds(8, 8);
    Pow2Adds(16, 1);
    Pow2Adds(16, 4);
    Pow2Adds(20, 2);
    Pow2Adds(16, 8);
    Pow2Adds(24, 4);
    Pow2Adds(16, 16);
  }

  lemma TimesMonotone(a: int, b: int, size: int)
    requires a <= b && 0 <= size
    ensures a * size <= b * size
  {
    assert b * size == a * size + (b - a) * size;
  }
}
