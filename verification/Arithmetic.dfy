/** Products, quotients and their order. */
module Arithmetic {
  lemma MultipleOf(k: nat, g: nat)
    requires g > 0
    ensures (k * g) % g == 0 && (k * g) / g == k
  {
    QuotientOrdered((k * g) / g, (k * g) % g, k, 0, g);
    QuotientOrdered(k, 0, (k * g) / g, (k * g) % g, g);
  }

  lemma ProductOrdered(x: int, y: int, g: nat)
    requires x <= y
    ensures x * g <= y * g
  {
    assert (y - x) * g >= 0;
  }

  lemma QuotientOrdered(q: nat, r: nat, p: nat, s: nat, g: nat)
    requires r < g && s < g && q * g + r <= p * g + s
    ensures q <= p
  {
    if p + 1 <= q {
      ProductOrdered(p + 1, q, g);
    }
  }

  lemma DivideOrdered(a: nat, b: nat, g: nat)
    requires g > 0 && a <= b
    ensures a / g * g <= b / g * g
  {
    QuotientOrdered(a / g, a % g, b / g, b % g, g);
    ProductOrdered(a / g, b / g, g);
  }
}
