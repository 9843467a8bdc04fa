/** Machine words and powers. */
module Words {
  const U32_SIZE: nat := 0x1_0000_0000
  const U64_SIZE: nat := 0x1_0000_0000_0000_0000

  function Power(base: nat, k: nat): nat { if k == 0 then 1 else base * Power(base, k - 1) }

  lemma {:induction false} PowerSplits(base: nat, j: nat, k: nat)
    ensures Power(base, j + k) == Power(base, j) * Power(base, k)
  {
    if j > 0 {
      PowerSplits(base, j - 1, k);
      Associate(base, Power(base, j - 1), Power(base, k));
      assert j + k - 1 == (j - 1) + k;
    }
  }

  lemma Associate(a: nat, b: nat, c: nat)
    ensures a * (b * c) == a * b * c
  {}

  lemma {:induction false} PowerGrows(base: nat, i: nat, j: nat)
    requires base > 0 && i <= j
    ensures 0 < Power(base, i) <= Power(base, j)
  {
    if i < j {
      PowerGrows(base, i, j - 1);
    } else if i > 0 {
      PowerGrows(base, i - 1, j - 1);
    }
  }
}
