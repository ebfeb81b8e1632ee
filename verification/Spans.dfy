/** The 4K-aligned spans that entries occupy in files.vfs. */
module Spans {

  const ALIGN := 4096

  /** align4k of format.rs. */
  function Align4k(n: nat): nat {
    (n + ALIGN - 1) / ALIGN * ALIGN
  }

  predicate Aligned(n: nat) { n % ALIGN == 0 }

  lemma Align4kLeast(n: nat)
    ensures Aligned(Align4k(n)) && n <= Align4k(n)
    ensures forall m: nat :: Aligned(m) && n <= m ==> Align4k(n) <= m
    ensures Align4k(n) == 0 <==> n == 0
  {
    var q := (n + ALIGN - 1) / ALIGN;
    assert Align4k(n) == q * ALIGN;
    forall m: nat | Aligned(m) && n <= m
      ensures Align4k(n) <= m
    {
      var k := m / ALIGN;
      assert m == k * ALIGN;
    }
  }

  /** Two half-open ranges without a common byte; an empty one may touch
      another range only at its ends. */
  predicate Apart(off1: nat, len1: nat, off2: nat, len2: nat) {
    off1 + len1 <= off2 || off2 + len2 <= off1
  }
}
