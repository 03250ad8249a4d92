/** The few facts about products and quotients the other modules use. */
module Arithmetic {

  lemma MulLe(a: int, b: int, w: nat)
    requires a <= b
    ensures a * w <= b * w
  {
  }

  lemma MulLt(a: int, b: int, w: nat)
    requires a * w < b * w
    ensures a < b
  {
    if b <= a {
      MulLe(b, a, w);
    }
  }

  lemma MulSucc(a: nat, b: nat)
    ensures a * (b + 1) == a * b + a
    ensures (b + 1) * a == b * a + a
  {
  }

  lemma DivUnique(x: nat, d: nat, q: nat)
    requires d > 0 && q * d <= x < (q + 1) * d
    ensures x / d == q
  {
    var r := x / d;
    assert r * d <= x < (r + 1) * d;
    MulLt(q, r + 1, d);
    MulLt(r, q + 1, d);
  }

  lemma DivPlus(x: nat, d: nat)
    requires d > 0
    ensures (x + d) / d == x / d + 1
  {
    var q := x / d;
    assert q * d <= x < (q + 1) * d;
    MulSucc(d, q);
    MulSucc(d, q + 1);
    DivUnique(x + d, d, q + 1);
  }
}
