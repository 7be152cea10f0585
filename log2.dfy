/** Exact integer stand-in for `int(math.log2(n))` on a positive count. */
module Log2 {

  function Pow2(k: nat): (p: nat)
    ensures p >= 1
  {
    if k == 0 then 1 else 2 * Pow2(k - 1)
  }

  lemma {:induction false} Pow2Monotone(a: nat, b: nat)
    requires a <= b
    ensures Pow2(a) <= Pow2(b)
  {
    if a < b {
      Pow2Monotone(a, b - 1);
    }
  }

  /** The exponent of the largest power of two not above `n`: `Pow2(r) <= n < Pow2(r + 1)`. */
  function FloorLog2(n: nat): (r: nat)
    requires n >= 1
    ensures Pow2(r) <= n < Pow2(r + 1)
    decreases n
  {
    if n == 1 then 0 else 1 + FloorLog2(n / 2)
  }

  /** The bracketing in FloorLog2's contract determines the exponent. */
  lemma FloorLog2Unique(n: nat, k: nat)
    requires Pow2(k) <= n < Pow2(k + 1)
    ensures FloorLog2(n) == k
  {
    var r := FloorLog2(n);
    if r < k {
      Pow2Monotone(r + 1, k);
    } else if r > k {
      Pow2Monotone(k + 1, r);
    }
  }

  /** `FloorLog2(n) < k` exactly when `n` is below the `k`-th power of two. */
  lemma FloorLog2Below(n: nat, k: nat)
    requires n >= 1
    ensures FloorLog2(n) < k <==> n < Pow2(k)
  {
    var r := FloorLog2(n);
    if r < k {
      Pow2Monotone(r + 1, k);
    } else {
      Pow2Monotone(k, r);
    }
  }
}
