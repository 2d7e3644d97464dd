// Piecewise-linear interpolation with clamped ends, as numpy.interp does it
// on increasing abscissae.
module Interpolation {

  predicate Rising(s: seq<real>) { forall i :: 0 <= i < |s| - 1 ==> s[i] < s[i + 1] }

  lemma {:induction false} RisingFar(s: seq<real>, i: nat, j: nat)
    requires Rising(s) && i < j < |s|
    ensures s[i] < s[j]
    decreases j
  {
    if i < j - 1 { RisingFar(s, i, j - 1); }
    assert s[j - 1] < s[j];
  }

  lemma {:induction false} RisingTail(s: seq<real>)
    requires Rising(s) && |s| > 1
    ensures Rising(s[1..])
  {
  }

  // The line through (x0, y0) and (x1, y1).
  function Line(x: real, x0: real, x1: real, y0: real, y1: real): real
    requires x0 < x1
  {
    (y1 - y0) / (x1 - x0) * (x - x0) + y0
  }

  function Interp(x: real, xs: seq<real>, ys: seq<real>): real
    requires |xs| == |ys| > 0 && Rising(xs)
    decreases |xs|
  {
    if |xs| == 1 || x <= xs[0] then ys[0]
    else if x < xs[1] then Line(x, xs[0], xs[1], ys[0], ys[1])
    else Interp(x, xs[1..], ys[1..])
  }

  // ---- one segment, by the fraction of it that lies behind x ----

  lemma {:induction false} LineByFraction(x: real, x0: real, x1: real, y0: real, y1: real) returns (t: real)
    requires x0 < x1
    ensures x == x0 + t * (x1 - x0) && Line(x, x0, x1, y0, y1) == y0 + t * (y1 - y0)
    ensures x0 <= x ==> 0.0 <= t
    ensures x < x1 ==> t < 1.0
    ensures x0 < x ==> 0.0 < t
  {
    var d := x1 - x0;
    t := (x - x0) / d;
    assert t * d == x - x0;
    QuotientTimes(y1 - y0, d, x - x0, t);
    FractionSign(t, d, x - x0);
  }

  lemma {:induction false} QuotientTimes(a: real, d: real, b: real, t: real)
    requires d > 0.0 && t * d == b
    ensures a / d * b == t * a
  {
    var q := a / d;
    assert q * d == a;
    assert q * b == q * (t * d) == t * (q * d);
  }

  lemma {:induction false} FractionSign(t: real, d: real, b: real)
    requires d > 0.0 && t * d == b
    ensures 0.0 <= b ==> 0.0 <= t
    ensures 0.0 < b ==> 0.0 < t
    ensures b < d ==> t < 1.0
  {
    if t < 0.0 { assert t * d < 0.0; }
    if t >= 1.0 { assert (t - 1.0) * d >= 0.0; }
  }

  lemma {:induction false} ScaleRises(t: real, u: real, d: real)
    requires d > 0.0 && t < u
    ensures t * d < u * d
  {
  }

  // A point strictly inside a segment stays inside, and the same fraction of
  // it comes back from the other axis.
  lemma {:induction false} FractionOf(t: real, y0: real, y1: real)
    requires y0 < y1
    ensures 0.0 <= t < 1.0 ==> y0 <= y0 + t * (y1 - y0) < y1
    ensures 0.0 < t ==> y0 < y0 + t * (y1 - y0)
  {
    Stretched(t, y1 - y0, y0, y1);
  }

  lemma {:induction false} Stretched(t: real, d: real, y0: real, y1: real)
    requires d > 0.0 && d == y1 - y0
    ensures 0.0 <= t ==> y0 <= y0 + t * d
    ensures 0.0 < t ==> y0 < y0 + t * d
    ensures t < 1.0 ==> y0 + t * d < y1
  {
    if t < 1.0 {
      var u := 1.0 - t;
      assert u * d > 0.0;
      assert u * d == d - t * d;
    }
  }

  lemma {:induction false} SameFraction(t: real, u: real, d: real)
    requires d > 0.0 && t * d == u * d
    ensures t == u
  {
    if t < u { ScaleRises(t, u, d); }
    if u < t { ScaleRises(u, t, d); }
  }

  lemma {:induction false} LineAtFraction(t: real, y0: real, y1: real, z0: real, z1: real)
    requires y0 < y1
    ensures Line(y0 + t * (y1 - y0), y0, y1, z0, z1) == z0 + t * (z1 - z0)
  {
    var y := y0 + t * (y1 - y0);
    var u := LineByFraction(y, y0, y1, z0, z1);
    SameFraction(t, u, y1 - y0);
  }

  // ---- the whole table ----

  lemma {:induction false} LineInside(x: real, x0: real, x1: real, y0: real, y1: real)
    requires x0 < x < x1 && y0 < y1
    ensures y0 < Line(x, x0, x1, y0, y1) < y1
  {
    var t := LineByFraction(x, x0, x1, y0, y1);
    FractionOf(t, y0, y1);
  }

  // The value at an end or beyond it is the end value; inside the table the
  // value lies strictly between the ends.
  lemma {:induction false} InterpRange(x: real, xs: seq<real>, ys: seq<real>)
    requires |xs| == |ys| > 1 && Rising(xs) && Rising(ys)
    ensures var y := Interp(x, xs, ys); var n := |xs| - 1;
            ys[0] <= y <= ys[n] && (x <= xs[0] <==> y == ys[0]) && (x >= xs[n] <==> y == ys[n])
    decreases |xs|
  {
    var n := |xs| - 1;
    RisingFar(xs, 0, n);
    RisingFar(ys, 0, n);
    if x > xs[0] {
      if x < xs[1] {
        LineInside(x, xs[0], xs[1], ys[0], ys[1]);
        if n > 1 {
          RisingFar(xs, 1, n);
          RisingFar(ys, 1, n);
        }
      } else if n > 1 {
        RisingTail(xs);
        RisingTail(ys);
        InterpRange(x, xs[1..], ys[1..]);
      } else {
        assert xs[1..] == [xs[1]] && ys[1..] == [ys[1]];
      }
    }
  }

  // Interpolating back returns the abscissa: inside the table the two
  // directions are inverse.
  lemma {:induction false} InterpInverts(x: real, xs: seq<real>, ys: seq<real>)
    requires |xs| == |ys| > 1 && Rising(xs) && Rising(ys) && xs[0] <= x <= xs[|xs| - 1]
    ensures Interp(Interp(x, xs, ys), ys, xs) == x
    decreases |xs|
  {
    var y, n := Interp(x, xs, ys), |xs| - 1;
    InterpRange(x, xs, ys);
    if x > xs[0] {
      if x < xs[1] {
        var t := LineByFraction(x, xs[0], xs[1], ys[0], ys[1]);
        FractionOf(t, ys[0], ys[1]);
        LineAtFraction(t, ys[0], ys[1], xs[0], xs[1]);
      } else if n > 1 {
        RisingTail(xs);
        RisingTail(ys);
        InterpRange(x, xs[1..], ys[1..]);
        InterpInverts(x, xs[1..], ys[1..]);
      } else {
        assert xs[1..] == [xs[1]] && ys[1..] == [ys[1]];
      }
    }
  }

  // Interpolation on increasing ordinates never falls, and rises strictly
  // inside the table.
  lemma {:induction false} InterpRises(x: real, z: real, xs: seq<real>, ys: seq<real>)
    requires |xs| == |ys| > 1 && Rising(xs) && Rising(ys) && x <= z
    ensures Interp(x, xs, ys) <= Interp(z, xs, ys)
    ensures xs[0] <= x < z <= xs[|xs| - 1] ==> Interp(x, xs, ys) < Interp(z, xs, ys)
    decreases |xs|
  {
    var n := |xs| - 1;
    InterpRange(x, xs, ys);
    InterpRange(z, xs, ys);
    if xs[0] < x && z < xs[n] && x < z {
      if z < xs[1] {
        LineRises(x, z, xs[0], xs[1], ys[0], ys[1]);
      } else if x < xs[1] {
        var t := LineByFraction(x, xs[0], xs[1], ys[0], ys[1]);
        FractionOf(t, ys[0], ys[1]);
        RisingTail(xs);
        RisingTail(ys);
        InterpRange(z, xs[1..], ys[1..]);
      } else {
        RisingTail(xs);
        RisingTail(ys);
        InterpRises(x, z, xs[1..], ys[1..]);
      }
    }
  }

  lemma {:induction false} LineRises(x: real, z: real, x0: real, x1: real, y0: real, y1: real)
    requires x0 < x1 && y0 < y1 && x < z
    ensures Line(x, x0, x1, y0, y1) < Line(z, x0, x1, y0, y1)
  {
    var t := LineByFraction(x, x0, x1, y0, y1);
    var u := LineByFraction(z, x0, x1, y0, y1);
    FractionsRise(x, z, x0, x1 - x0, t, u);
    PointsRise(y0, y1 - y0, t, u);
  }

  lemma {:induction false} FractionsRise(x: real, z: real, x0: real, d: real, t: real, u: real)
    requires d > 0.0 && x == x0 + t * d && z == x0 + u * d && x < z
    ensures t < u
  {
    if u < t { ScaleRises(u, t, d); }
  }

  lemma {:induction false} PointsRise(y0: real, d: real, t: real, u: real)
    requires d > 0.0 && t < u
    ensures y0 + t * d < y0 + u * d
  {
    ScaleRises(t, u, d);
  }
}
