/** Powers of two, and division facts the solver does not find on its own. */
module Arith {

  function Two(k: nat): (t: nat)
    ensures t > 0
  {
    if k == 0 then 1 else 2 * Two(k - 1)
  }

  lemma MulMono(a: nat, b: nat, p: nat)
    requires a < b
    ensures a * p + p <= b * p
  {
    assert (b - a) * p == b * p - a * p;
    assert (b - a - 1) * p >= 0;
    assert (b - a - 1) * p == (b - a) * p - p;
  }

  /** Quotient and remainder are unique. */
  lemma DivUnique(n: nat, p: nat, q: nat, r: nat)
    requires p > 0 && n == q * p + r && r < p
    ensures n / p == q && n % p == r
  {
    var k := n / p;
    assert n == k * p + n % p;
    if k > q {
      MulMono(q, k, p);
    } else if k < q {
      MulMono(k, q, p);
    }
  }

  lemma Halve(n: nat, p: nat, a: nat, m: nat)
    requires p > 0 && n == a * (2 * p) + m && m < 2 * p
    ensures n % p == if m < p then m else m - p
    ensures n / p == if m < p then 2 * a else 2 * a + 1
  {
    if m < p {
      DivUnique(n, p, 2 * a, m);
    } else {
      DivUnique(n, p, 2 * a + 1, m - p);
    }
  }
}
