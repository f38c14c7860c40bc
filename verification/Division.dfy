/** The lesser of two numbers, and quotient and remainder from a product form. */
module Division {
  function Least(a: nat, b: nat): nat {
    if a <= b then a else b
  }

  lemma MulMonotone(k: nat, a: int, b: int)
    requires a <= b
    ensures k * a <= k * b
  {
  }

  lemma DivModUnique(k: nat, q: int, r: int)
    requires k > 0 && 0 <= r < k
    ensures (k * q + r) / k == q && (k * q + r) % k == r
  {
    var x := k * q + r;
    assert x == k * (x / k) + x % k;
    if x / k > q {
      assert k * (x / k) >= k * (q + 1) by { MulMonotone(k, q + 1, x / k); }
    } else if x / k < q {
      assert k * (x / k + 1) <= k * q by { MulMonotone(k, x / k + 1, q); }
    }
  }
}
