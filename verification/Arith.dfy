/**
 Division and multiplication by variables, a step at a time: places in a grid of
 equal cells.
 */
module Arith {
  lemma MulMono(a: nat, b: nat, d: nat)
    requires a <= b
    ensures a * d <= b * d
  {
  }

  lemma Distribute(a: nat, b: nat, d: nat)
    ensures a * d + b * d == (a + b) * d
  {
  }

  lemma Regroup(a: nat, b: nat, d: nat)
    ensures a * (b * d) == (a * b) * d
  {
  }

  lemma DivLess(x: nat, n: nat, d: nat)
    requires d > 0 && x < n * d
    ensures x / d < n && x % d < d
  {
    if x / d >= n {
      MulMono(n, x / d, d);
    }
  }

  lemma DivIs(c: nat, b: nat, d: nat)
    requires b < d
    ensures (c * d + b) / d == c && (c * d + b) % d == b
  {
    var x := c * d + b;
    assert x == (x / d) * d + x % d;
    if x / d < c {
      MulMono(x / d + 1, c, d);
    } else if x / d > c {
      MulMono(c + 1, x / d, d);
    }
  }

  /** n lies in cells [a, b) exactly when its quotient does. */
  lemma Between(n: nat, a: nat, b: nat, d: nat)
    requires d > 0
    ensures a * d <= n < b * d <==> a <= n / d < b
  {
    var q := n / d;
    assert n == q * d + n % d;
    if q < a { MulMono(q + 1, a, d); } else { MulMono(a, q, d); }
    if q < b { MulMono(q + 1, b, d); } else { MulMono(b, q, d); }
  }

  lemma ModSum(k: nat, d: nat, b: nat)
    requires d > 0
    ensures (k * d + b) % d == b % d
  {
    var q, o := b / d, b % d;
    assert b == q * d + o;
    Distribute(k, q, d);
    DivIs(k + q, o, d);
  }

  lemma Euclid(x: nat, d: nat)
    requires d > 0
    ensures 0 <= x / d && x == x / d * d + x % d && x % d < d
  {
  }

  /** A multiple of d below another leaves room for one more d. */
  lemma StepFits(a: nat, w: nat, d: nat)
    requires d > 0 && a % d == 0 && w % d == 0 && a < w
    ensures a + d <= w && (a + d) % d == 0
  {
    Euclid(a, d);
    Euclid(w, d);
    NextMultiple(a / d, w / d, d);
    DivIs(a / d + 1, 0, d);
  }

  lemma NextMultiple(p: nat, q: nat, d: nat)
    requires p * d < q * d
    ensures p * d + d == (p + 1) * d <= q * d
  {
    if p >= q {
      MulMono(q, p, d);
    } else {
      MulMono(p + 1, q, d);
    }
  }
}
