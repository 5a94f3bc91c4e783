/** The few facts about multiplication and division that the models need. */
module Arithmetic {

  lemma MulGap(lo: nat, hi: nat, b: nat)
    requires lo < hi
    ensures lo * b + b <= hi * b
  {
    assert (hi - lo) * b == hi * b - lo * b;
    assert (hi - lo - 1) * b >= 0;
  }

  lemma DivUnique(x: nat, b: nat, q: nat, r: nat)
    requires b > 0 && x == q * b + r && r < b
    ensures x / b == q && x % b == r
  {
    if q < x / b {
      MulGap(q, x / b, b);
    } else if x / b < q {
      MulGap(x / b, q, b);
    }
  }

  lemma CeilAtMost(a: nat, b: nat, n: nat)
    requires b > 0
    ensures (a + b - 1) / b <= n <==> a <= n * b
  {
    var q := (a + b - 1) / b;
    assert q * b <= a + b - 1 < q * b + b;
    if n < q {
      MulGap(n, q, b);
    } else if q < n {
      MulGap(q, n, b);
    }
  }
}
