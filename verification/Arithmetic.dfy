/** Facts about products and quotients that several modules need. */
module Arithmetic {

  function Min(a: int, b: int): int {
    if a < b then a else b
  }

  function Max(a: nat, b: nat): nat {
    if a > b then a else b
  }

  lemma {:induction false} NextMultiple(b: nat, q: nat, r: nat)
    requires q < r
    ensures b * q + b <= b * r
    decreases r
  {
    if q + 1 < r {
      NextMultiple(b, q, r - 1);
    }
    assert b * r == b * (r - 1) + b;
  }

  /** Bounds fix a quotient. */
  lemma QuotientIs(a: nat, b: nat, q: nat, d: nat)
    requires b > 0 && b * q <= a < b * q + b && b * d <= a < b * d + b
    ensures q == d
  {
    if d < q {
      NextMultiple(b, d, q);
      assert false;
    }
    if q < d {
      NextMultiple(b, q, d);
      assert false;
    }
  }

  function Quotient(a: nat, b: nat): (q: nat)
    requires b > 0
    ensures b * q <= a < b * q + b
  {
    a / b
  }

  lemma QuotientMonotone(a: nat, c: nat, b: nat, qa: nat, qc: nat)
    requires b > 0 && a <= c && b * qa <= a && c < b * qc + b
    ensures qa <= qc
  {
    if qa > qc {
      NextMultiple(b, qc, qa);
      assert false;
    }
  }

  lemma DivideTwice(a: nat, b: nat, c: nat)
    requires b > 0 && c > 0
    ensures b * c > 0 && Quotient(Quotient(a, b), c) == Quotient(a, b * c)
  {
    hide Quotient;
    var p, q := Quotient(a, b), Quotient(Quotient(a, b), c);
    PositiveProduct(b, c);
    var s := p - c * q;
    Distribute(b, c * q, s);
    Associate(b, c, q);
    SmallProduct(b, s, c);
    QuotientIs(a, b * c, q, Quotient(a, b * c));
  }

  lemma OneMore(n: nat, t: nat)
    ensures (n + 1) * t == n * t + t
  {
  }

  lemma PositiveProduct(b: nat, c: nat)
    requires b > 0 && c > 0
    ensures b * c > 0
  {
  }

  lemma Distribute(b: nat, x: nat, y: nat)
    ensures b * (x + y) == b * x + b * y
  {
  }

  lemma Associate(b: nat, c: nat, q: nat)
    ensures b * (c * q) == (b * c) * q
  {
  }

  lemma SmallProduct(b: nat, s: nat, c: nat)
    requires s < c
    ensures b * s + b <= b * c
  {
    NextMultiple(b, s, c);
  }
}
