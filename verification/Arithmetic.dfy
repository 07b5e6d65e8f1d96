/** Facts about multiplication and division that the solver needs spelled out. */
module Arithmetic {

  lemma MulMonotone(a: int, b: int, k: nat)
    requires a <= b
    ensures a * k <= b * k
  {
    assert (b - a) * k >= 0;
  }

  lemma DivUnique(n: int, k: nat, q: int, r: nat)
    requires k > 0 && n == q * k + r && r < k
    ensures n / k == q && n % k == r
  {
    var d, m := n / k, n % k;
    assert n == d * k + m;
    assert (q + 1) * k == q * k + k;
    assert (d + 1) * k == d * k + k;
    if d > q {
      MulMonotone(q + 1, d, k);
    } else if d < q {
      MulMonotone(d + 1, q, k);
    }
  }

  lemma DivStep(n: int, k: nat)
    requires 0 < k
    ensures n / k == 1 + (n - k) / k && n % k == (n - k) % k
  {
    var d, m := (n - k) / k, (n - k) % k;
    assert n - k == d * k + m;
    assert (d + 1) * k == d * k + k;
    DivUnique(n, k, d + 1, m);
  }
}
