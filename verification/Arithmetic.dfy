/** Integer facts used by the rabbit storage model: rounding up, divisibility and
    greatest common divisors. */
module Arithmetic {

  /** math.ceil(a / b). */
  function CeilDiv(a: nat, b: nat): nat
    requires b > 0
  {
    (a + b - 1) / b
  }

  /** Rounding up is the least multiple that reaches a. */
  lemma {:induction false} CeilDivBounds(a: nat, b: nat)
    requires b > 0
    ensures a <= CeilDiv(a, b) * b < a + b
  {}

  lemma {:induction false} CeilDivLeast(a: nat, b: nat, q: nat)
    requires b > 0 && a <= q * b
    ensures CeilDiv(a, b) <= q
  {
    var c := CeilDiv(a, b);
    CeilDivBounds(a, b);
    assert (q + 1) * b == q * b + b;
    if c > q { MulLe(q + 1, c, b); }
  }

  lemma {:induction false} MulLe(x: nat, y: nat, b: nat)
    requires x <= y
    ensures x * b <= y * b && b * x <= b * y
  {}

  lemma {:induction false} MulCancel(b: nat, x: nat, y: nat)
    requires b > 0 && b * x <= b * y
    ensures x <= y
  {}

  lemma {:induction false} MulCancelStrict(b: nat, x: nat, y: nat)
    requires x * b < y * b
    ensures x < y
  {}

  ghost predicate Divides(d: nat, n: nat) { exists k: nat :: k * d == n }

  lemma {:induction false} DividesSum(d: nat, a: nat, b: nat)
    requires Divides(d, a) && Divides(d, b)
    ensures Divides(d, a + b)
  {
    var x: nat :| x * d == a;
    var y: nat :| y * d == b;
    assert (x + y) * d == a + b;
  }

  lemma {:induction false} DividesMultiple(d: nat, a: nat, k: nat)
    requires Divides(d, a)
    ensures Divides(d, k * a)
  {
    var x: nat :| x * d == a;
    assert (k * x) * d == k * a;
  }

  lemma {:induction false} DividesDifference(d: nat, a: nat, b: nat)
    requires Divides(d, a) && Divides(d, b) && a <= b
    ensures Divides(d, b - a)
  {
    var x: nat :| x * d == a;
    var y: nat :| y * d == b;
    assert (y + 1) * d == y * d + d;
    if d == 0 {
      assert 0 * d == b - a;
    } else if x <= y {
      assert (y - x) * d == b - a;
    } else {
      MulLe(y + 1, x, d);
    }
  }

  /** math.gcd. */
  function Gcd(a: nat, b: nat): nat
    decreases b
  {
    if b == 0 then a else Gcd(b, a % b)
  }

  lemma {:induction false} DividesRemainder(d: nat, a: nat, b: nat)
    requires b > 0 && Divides(d, b)
    ensures Divides(d, a) <==> Divides(d, a % b)
  {
    var q, r := a / b, a % b;
    assert a == q * b + r;
    DividesMultiple(d, b, q);
    if Divides(d, r) { DividesSum(d, q * b, r); }
    if Divides(d, a) { DividesDifference(d, q * b, a); }
  }

  /** The result divides both arguments, and every common divisor divides it. */
  lemma {:induction false} GcdIsGreatest(a: nat, b: nat, d: nat)
    ensures Divides(Gcd(a, b), a) && Divides(Gcd(a, b), b)
    ensures Divides(d, a) && Divides(d, b) ==> Divides(d, Gcd(a, b))
    ensures a > 0 || b > 0 ==> Gcd(a, b) > 0
    decreases b
  {
    if b == 0 {
      assert 1 * a == a && 0 * a == 0;
    } else {
      GcdIsGreatest(b, a % b, d);
      DividesRemainder(Gcd(a, b), a, b);
      if Divides(d, a) && Divides(d, b) { DividesRemainder(d, a, b); }
    }
  }

  lemma {:induction false} QuotientOf(d: nat, n: nat)
    requires d > 0 && Divides(d, n)
    ensures n / d * d == n
  {
    var k: nat :| k * d == n;
    var q := n / d;
    assert q * d <= n < q * d + d;
    assert (q + 1) * d == q * d + d;
    MulCancelStrict(d, k, q + 1);
    MulCancel(d, q, k);
  }

  lemma {:induction false} DivModUnique(a: nat, b: nat, q: nat, r: nat)
    requires a == q * b + r && r < b
    ensures a / b == q && a % b == r
  {
    var d := a / b;
    assert d * b <= a < d * b + b;
    assert (q + 1) * b == q * b + b && (d + 1) * b == d * b + b;
    MulCancelStrict(b, q, d + 1);
    MulCancelStrict(b, d, q + 1);
  }

  lemma {:induction false} DividesTransitive(d: nat, a: nat, b: nat)
    requires Divides(d, a) && Divides(a, b)
    ensures Divides(d, b)
  {
    var k: nat :| k * a == b;
    DividesMultiple(d, a, k);
  }

  /** If d times a positive g divides g, then d is 1. */
  lemma {:induction false} OnlyUnitScales(d: nat, g: nat)
    requires g > 0 && Divides(d * g, g)
    ensures d == 1
  {
    var k: nat :| k * (d * g) == g;
    assert (k * d) * g == 1 * g;
    MulCancel(g, k * d, 1);
    MulCancel(g, 1, k * d);
  }

  lemma {:induction false} DividesScaled(d: nat, a: nat, g: nat)
    requires Divides(d, a)
    ensures Divides(d * g, a * g)
  {
    var k: nat :| k * d == a;
    assert k * (d * g) == (k * d) * g;
  }

  lemma {:induction false} Distribute(x: nat, y: nat, g: nat)
    ensures (x + y) * g == x * g + y * g
  {}

  lemma {:induction false} QuotientBelow(a: nat, b: nat, q: nat)
    requires b > 0
    ensures a / b <= q <==> a < (q + 1) * b
  {
    var d := a / b;
    assert d * b <= a < d * b + b;
    assert (d + 1) * b == d * b + b;
    if d <= q {
      MulLe(d + 1, q + 1, b);
    } else {
      MulLe(q + 1, d, b);
    }
  }
}
