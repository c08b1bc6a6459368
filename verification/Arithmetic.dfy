// Facts about products and floored quotients that the solver needs one by one.
module Arithmetic {
  lemma MulMono(a: nat, b: nat, c: nat)
    requires a <= b
    ensures a * c <= b * c
  {
  }

  lemma LessMul(x: nat, y: nat, d: nat)
    requires x < y
    ensures d * x + d <= d * y
  {
    MulMono(x + 1, y, d);
    Distribute(x, 1, d);
  }

  lemma DivMono(a: nat, b: nat, d: nat)
    requires a <= b && d > 0
    ensures a / d <= b / d
  {
    var x, y := a / d, b / d;
    assert a == d * x + a % d && b == d * y + b % d;
    if y < x {
      LessMul(y, x, d);
    }
  }

  lemma DivPlus(a: nat, b: nat, d: nat)
    requires d > 0
    ensures a / d + b / d <= (a + b) / d <= a / d + b / d + 1
  {
    var x, y := a / d, b / d;
    Distribute(x, y, d);
    assert a == x * d + a % d && b == y * d + b % d;
    DivOf(a + b, d, x + y, a % d + b % d);
  }

  lemma DivOf(n: nat, d: nat, q: nat, r: nat)
    requires d > 0 && n == q * d + r && r < 2 * d
    ensures q <= n / d <= q + 1
  {
    var x := n / d;
    assert n == d * x + n % d;
    Distribute(q, 1, d);
    if x < q {
      LessMul(x, q, d);
    } else if x > q + 1 {
      LessMul(q + 1, x, d);
    }
  }

  lemma Distribute(a: nat, b: nat, c: nat)
    ensures a * c + b * c == (a + b) * c
  {
  }

  // Quotient and remainder are what they are by definition.
  lemma Euclid(n: nat, d: nat, q: nat, r: nat)
    requires n == d * q + r && r < d
    ensures n / d == q && n % d == r
  {
    var x := n / d;
    assert n == d * x + n % d;
    if x < q {
      LessMul(x, q, d);
    } else if x > q {
      LessMul(q, x, d);
    }
  }

  lemma DivCancel(q: nat, d: nat)
    requires d > 0
    ensures q * d / d == q
  {
    Euclid(q * d, d, q, 0);
  }

  lemma QuotientSign(a: nat, d: nat)
    requires d > 0
    ensures a / d >= 0
  {
  }
}
