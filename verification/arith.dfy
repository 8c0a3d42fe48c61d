/** Facts about non-negative integer division that the solver does not
    find on its own. */
module Arith {

  /** The quotient is determined by the bracket it falls in. */
  lemma DivFromBounds(a: nat, c: nat, k: nat)
    requires c >= 1 && k * c <= a < (k + 1) * c
    ensures a / c == k
  {
    var q, r := a / c, a % c;
    assert a == q * c + r && 0 <= r < c;
    if q < k {
      MulMonotone(q + 1, k, c);
      assert false;
    } else if q > k {
      MulMonotone(k + 1, q, c);
      assert false;
    }
  }

  lemma DivMonotone(a: nat, b: nat, c: nat)
    requires c >= 1 && a <= b
    ensures a / c <= b / c
  {
    assert a == (a / c) * c + a % c;
    assert b == (b / c) * c + b % c;
    if a / c > b / c {
      MulMonotone(b / c + 1, a / c, c);
      assert false;
    }
  }

  lemma MulMonotone(x: nat, y: nat, c: nat)
    requires x <= y
    ensures x * c <= y * c
  {
    assert y * c == x * c + (y - x) * c;
  }

  lemma MulSucc(n: nat, c: nat)
    ensures (n + 1) * c == n * c + c
  {
  }
}
