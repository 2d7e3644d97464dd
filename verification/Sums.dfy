// Sums of real sequences.
module Sums {

  function Sum(terms: seq<real>): real {
    if terms == [] then 0.0 else Sum(terms[..|terms| - 1]) + terms[|terms| - 1]
  }

  // The value z is the combination of x and y.
  predicate Mix(a: real, x: real, b: real, y: real, z: real) { z == a * x + b * y }

  lemma {:induction false} SumLinear(a: real, x: seq<real>, b: real, y: seq<real>, z: seq<real>)
    requires |x| == |y| == |z| && forall i :: 0 <= i < |z| ==> Mix(a, x[i], b, y[i], z[i])
    ensures Mix(a, Sum(x), b, Sum(y), Sum(z))
  {
    if z != [] {
      var n := |z| - 1;
      SumLinear(a, x[..n], b, y[..n], z[..n]);
      LinearStep(a, Sum(x[..n]), x[n], b, Sum(y[..n]), y[n], Sum(z[..n]), z[n]);
    }
  }

  lemma {:induction false} LinearStep(a: real, p: real, c: real, b: real, q: real, d: real, r: real, e: real)
    requires Mix(a, p, b, q, r) && Mix(a, c, b, d, e)
    ensures Mix(a, p + c, b, q + d, r + e)
  {
  }
}
