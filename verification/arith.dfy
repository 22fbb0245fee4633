/** Facts about Euclidean division on naturals that the solver does not find alone. */
module Arith {
  lemma DivMonotone(a: nat, b: nat, d: nat)
    requires a <= b && d > 0
    ensures a / d <= b / d
  {
    assert (b / d + 1) * d == (b / d) * d + d;
    if a / d > b / d {
      MulMonotone(b / d + 1, a / d, d);
      assert false;
    }
  }

  lemma MulMonotone(a: int, b: int, d: int)
    requires a <= b && d >= 0
    ensures a * d <= b * d
  {
  }

  lemma MulLeftMonotone(d: int, a: int, b: int)
    requires a <= b && d >= 0
    ensures d * a <= d * b
  {
  }

  lemma {:induction false} MultipleMod(q: nat, d: nat)
    requires d > 0
    ensures (q * d) % d == 0
  {
    if q > 0 {
      MultipleMod(q - 1, d);
      assert q * d == (q - 1) * d + d;
      ModPlus((q - 1) * d, d);
    }
  }

  lemma ModPlus(x: nat, d: nat)
    requires d > 0
    ensures (x + d) % d == x % d
  {
    var q, r := x / d, x % d;
    assert x + d == (q + 1) * d + r;
    DivModUnique(x + d, q + 1, r, d);
  }

  lemma DivModUnique(n: nat, q: nat, r: nat, d: nat)
    requires d > 0 && n == q * d + r && r < d
    ensures n / d == q && n % d == r
  {
    var q', r' := n / d, n % d;
    assert n == q' * d + r';
    assert (q' + 1) * d == q' * d + d;
    assert (q + 1) * d == q * d + d;
    if q' < q {
      MulMonotone(q' + 1, q, d);
      assert false;
    } else if q < q' {
      MulMonotone(q + 1, q', d);
      assert false;
    }
  }

  /** c rounded down to a multiple of inc, the way the fee rounding writes it. */
  lemma RoundDown(c: nat, inc: nat)
    requires inc > 0
    ensures c - c % inc == (c / inc) * inc
    ensures (c - c % inc) % inc == 0
    ensures c - c % inc <= c < c - c % inc + inc
  {
    MultipleMod(c / inc, inc);
  }

  lemma RoundDownMonotone(m: nat, c: nat, inc: nat)
    requires inc > 0 && m <= c
    ensures m - m % inc <= c - c % inc
  {
    RoundDown(m, inc);
    RoundDown(c, inc);
    DivMonotone(m, c, inc);
    MulMonotone(m / inc, c / inc, inc);
  }
}
