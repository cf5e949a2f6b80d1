/** Index arithmetic of fixed-size blocks. */
module Blocks {
  function CeilDiv(n: nat, block: nat): (k: nat)
    requires block >= 1
  {
    (n + block - 1) / block
  }

  lemma CeilDivBounds(n: nat, block: nat)
    requires block >= 1
    ensures var c := CeilDiv(n, block); n <= c * block <= n + block - 1
  {
    assert n + block - 1 == CeilDiv(n, block) * block + (n + block - 1) % block;
  }

  lemma Ordered(a: int, b: int, k: int)
    requires a < b && k >= 1
    ensures a * k + k <= b * k
  {
    assert b * k == a * k + k + (b - a - 1) * k;
  }

  /** Element `i` of `n` lies in one of the blocks that cover them. */
  lemma BlockOfIndex(i: nat, n: nat, block: nat)
    requires block >= 1 && i < n
    ensures i / block < CeilDiv(n, block) && i / block * block <= i < i / block * block + block
  {
    var t, c := i / block, CeilDiv(n, block);
    assert i == t * block + i % block;
    CeilDivBounds(n, block);
    if c < t { Ordered(c, t, block); }
  }
}
