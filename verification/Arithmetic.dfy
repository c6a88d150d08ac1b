/** Facts about products and floor division that the solver needs by name. */
module Arithmetic {
  lemma MulGrows(a: int, b: int, c: nat)
    requires a <= b
    ensures a * c <= b * c
  {
  }

  lemma DivMod(m: int, n: nat)
    requires n > 0
    ensures m == (m / n) * n + m % n && 0 <= m % n < n
  {
  }

  lemma DivUnique(v: int, p: nat, q: int, r: nat)
    requires p > 0 && r < p && v == q * p + r
    ensures v / p == q
  {
    var f := v / p;
    DivMod(v, p);
    if f > q {
      MulGrows(q + 1, f, p);
    } else if f < q {
      MulGrows(f + 1, q, p);
    }
  }

  lemma DivNotNegative(x: nat, p: nat)
    requires p > 0
    ensures x / p >= 0
  {
    DivMod(x, p);
    if x / p < 0 {
      MulGrows(x / p, -1, p);
    }
  }

  lemma DivMonotone(a: nat, b: nat, c: nat)
    requires a <= b && c > 0
    ensures 0 <= a / c <= b / c
  {
    DivNotNegative(a, c);
    DivMod(a, c);
    DivMod(b, c);
    if b / c < a / c {
      MulGrows(b / c + 1, a / c, c);
    }
  }

  function Pow256(n: nat): (r: nat)
    ensures r > 0
  {
    if n == 0 then 1 else 256 * Pow256(n - 1)
  }
}
