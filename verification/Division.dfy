// Facts about quotients: whole-number ones pinned down by their remainders,
// and the order of real ones.
module Division {

  lemma {:induction false} MulMono(a: nat, b: nat, c: nat)
    requires a <= b
    ensures a * c <= b * c && c * a <= c * b
  {
    assert (b - a) * c >= 0;
  }

  lemma {:induction false} QuotientIs(x: nat, d: nat, q: nat)
    requires d > 0 && d * q <= x < d * q + d
    ensures x / d == q
  {
    var p := x / d;
    assert x == d * p + x % d;
    if p < q { MulMono(p + 1, q, d); }
    if q < p { MulMono(q + 1, p, d); }
  }

  lemma {:induction false} QuotientAtMost(x: nat, d: nat, q: nat)
    requires d > 0 && x < d * q + d
    ensures x / d <= q
  {
    var p := x / d;
    assert x == d * p + x % d;
    if q < p { MulMono(q + 1, p, d); }
  }

  lemma {:induction false} QuotientRises(x: nat, y: nat, d: nat)
    requires d > 0 && x + d <= y
    ensures x / d < y / d
  {
    var p, q := x / d, y / d;
    assert x == d * p + x % d && y == d * q + y % d;
    if q <= p { MulMono(q, p, d); }
  }

  lemma {:induction false} DivideRises(a: real, b: real, c: real)
    requires a <= b && c > 0.0
    ensures a / c <= b / c && (a < b ==> a / c < b / c)
  {
  }
}
