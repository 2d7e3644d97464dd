// The recovery acceptance's own integral of a product of two sampled traces,
// and its own choice of samples.
module Quadrature {
  import opened Division
  import opened Sums

  // What one interval contributes: Simpson's rule on the product of the two
  // linear interpolants.
  function Cell(h: real, v0: real, v1: real, w0: real, w1: real): real {
    h / 6.0 * (v0 * w0 + (v0 + v1) * (w0 + w1) + v1 * w1)
  }

  predicate Traces(t: seq<real>, v: seq<real>, w: seq<real>) { |t| == |v| == |w| }

  // The sum over the first k intervals.
  function Partial(t: seq<real>, v: seq<real>, w: seq<real>, k: nat): real
    requires Traces(t, v, w) && (k == 0 || k < |t|)
  {
    if k == 0 then 0.0
    else Partial(t, v, w, k - 1) + Cell(t[k] - t[k - 1], v[k - 1], v[k], w[k - 1], w[k])
  }

  function Integral(t: seq<real>, v: seq<real>, w: seq<real>): real
    requires Traces(t, v, w)
  {
    Partial(t, v, w, if |t| == 0 then 0 else |t| - 1)
  }

  method IndependentIntegral(t: seq<real>, v: seq<real>, w: seq<real>) returns (total: real)
    requires Traces(t, v, w)
    ensures total == Integral(t, v, w)
  {
    total := 0.0;
    var i := 0;
    while i < |t| - 1
      invariant 0 <= i && (|t| == 0 ==> i == 0) && (|t| > 0 ==> i < |t|)
      invariant total == Partial(t, v, w, i)
    {
      total := total + (t[i + 1] - t[i]) / 6.0
        * (v[i] * w[i] + (v[i] + v[i + 1]) * (w[i] + w[i + 1]) + v[i + 1] * w[i + 1]);
      i := i + 1;
    }
  }

  // ---- exactness ----

  // An antiderivative of p + q x + r x^2.
  function Primitive(p: real, q: real, r: real, x: real): real {
    p * x + q * (x * x) / 2.0 + r * (x * x * x) / 3.0
  }

  lemma {:induction false} CubeDifference(x: real, y: real)
    ensures (y - x) * (x * x + x * y + y * y) == y * y * y - x * x * x
    ensures (y - x) * (x + y) == y * y - x * x
  {
  }

  // A cell between the parameters x and y of one line segment is the
  // difference of the antiderivative of the product, so the rule is exact.
  lemma {:induction false} CellIsExact(v: real, dv: real, w: real, dw: real, x: real, y: real)
    ensures Cell(y - x, v + x * dv, v + y * dv, w + x * dw, w + y * dw)
         == Primitive(v * w, v * dw + w * dv, dv * dw, y) - Primitive(v * w, v * dw + w * dv, dv * dw, x)
  {
    var p, q, r := v * w, v * dw + w * dv, dv * dw;
    CellExpands(v, dv, w, dw, x, y);
    CubeDifference(x, y);
    var h := y - x;
    assert h / 6.0 * (6.0 * p + 3.0 * q * (x + y) + 2.0 * r * (x * x + x * y + y * y))
        == p * h + q * (h * (x + y)) / 2.0 + r * (h * (x * x + x * y + y * y)) / 3.0;
  }

  lemma {:induction false} CellExpands(v: real, dv: real, w: real, dw: real, x: real, y: real)
    ensures var v0, v1, w0, w1 := v + x * dv, v + y * dv, w + x * dw, w + y * dw;
            (v0 * w0 + (v0 + v1) * (w0 + w1) + v1 * w1
             == 6.0 * (v * w) + 3.0 * (v * dw + w * dv) * (x + y) + 2.0 * (dv * dw) * (x * x + x * y + y * y))
  {
  }

  lemma {:induction false} CellScales(h: real, k: real, v0: real, v1: real, w0: real, w1: real)
    ensures Cell(h * k, v0, v1, w0, w1) == h * Cell(k, v0, v1, w0, w1)
  {
  }

  // Splitting a cell at any linearly interpolated point changes nothing.
  lemma {:induction false} CellSplits(h: real, v0: real, v1: real, w0: real, w1: real, x: real)
    ensures var v, w := v0 + x * (v1 - v0), w0 + x * (w1 - w0);
            Cell(h, v0, v1, w0, w1) == Cell(h * x, v0, v, w0, w) + Cell(h * (1.0 - x), v, v1, w, w1)
  {
    var dv, dw := v1 - v0, w1 - w0;
    var v, w := v0 + x * dv, w0 + x * dw;
    CellIsExact(v0, dv, w0, dw, 0.0, x);
    CellIsExact(v0, dv, w0, dw, x, 1.0);
    CellIsExact(v0, dv, w0, dw, 0.0, 1.0);
    CellScales(h, x, v0, v, w0, w);
    CellScales(h, 1.0 - x, v, v1, w, w1);
    CellScales(h, 1.0, v0, v1, w0, w1);
  }

  // ---- resampling ----

  function Insert(s: seq<real>, k: nat, x: real): (r: seq<real>)
    requires k <= |s|
    ensures |r| == |s| + 1
  {
    s[..k] + [x] + s[k..]
  }

  // The trace's value at the fraction x of interval k.
  function At(s: seq<real>, k: nat, x: real): real
    requires k + 1 < |s|
  {
    s[k] + x * (s[k + 1] - s[k])
  }

  // Partial sums look only at the samples they cover.
  lemma {:induction false} PartialSame(t: seq<real>, v: seq<real>, w: seq<real>,
                                       t2: seq<real>, v2: seq<real>, w2: seq<real>, k: nat)
    requires Traces(t, v, w) && Traces(t2, v2, w2) && k < |t| && k < |t2|
    requires forall j :: 0 <= j <= k ==> t[j] == t2[j] && v[j] == v2[j] && w[j] == w2[j]
    ensures Partial(t, v, w, k) == Partial(t2, v2, w2, k)
  {
    if k > 0 { PartialSame(t, v, w, t2, v2, w2, k - 1); }
  }

  // The samples of s from index k on are those of z one place later.
  predicate Shifted(s: seq<real>, z: seq<real>, k: nat) {
    |z| == |s| + 1 && forall j :: k <= j < |s| ==> s[j] == z[j + 1]
  }

  lemma {:induction false} PartialShifted(t: seq<real>, v: seq<real>, w: seq<real>,
                                          t2: seq<real>, v2: seq<real>, w2: seq<real>, k: nat, n: nat)
    requires Traces(t, v, w) && Traces(t2, v2, w2) && k <= n < |t|
    requires Shifted(t, t2, k) && Shifted(v, v2, k) && Shifted(w, w2, k)
    ensures Partial(t2, v2, w2, n + 1) - Partial(t2, v2, w2, k + 1) == Partial(t, v, w, n) - Partial(t, v, w, k)
    decreases n
  {
    if n > k { PartialShifted(t, v, w, t2, v2, w2, k, n - 1); }
  }

  // One interval split at the interpolated sample (time, v, w).
  lemma {:induction false} IntervalSplits(t0: real, t1: real, v0: real, v1: real, w0: real, w1: real, x: real,
          time: real, v: real, w: real)
    requires time == t0 + x * (t1 - t0) && v == v0 + x * (v1 - v0) && w == w0 + x * (w1 - w0)
    ensures Cell(t1 - t0, v0, v1, w0, w1) == Cell(time - t0, v0, v, w0, w) + Cell(t1 - time, v, v1, w, w1)
  {
    var h := t1 - t0;
    CellSplits(h, v0, v1, w0, w1, x);
    assert time - t0 == h * x && t1 - time == h * (1.0 - x);
  }

  lemma {:induction false} TwoCells(t: seq<real>, v: seq<real>, w: seq<real>, k: nat)
    requires Traces(t, v, w) && k + 2 < |t|
    ensures Partial(t, v, w, k + 2) == Partial(t, v, w, k) + Cell(t[k + 1] - t[k], v[k], v[k + 1], w[k], w[k + 1])
                                     + Cell(t[k + 2] - t[k + 1], v[k + 1], v[k + 2], w[k + 1], w[k + 2])
  {
  }

  // The parts of a trace with one sample inserted.
  lemma {:induction false} InsertParts(s: seq<real>, k: nat, x: real)
    requires k + 1 < |s|
    ensures var z := Insert(s, k + 1, x);
            (forall j :: 0 <= j <= k ==> z[j] == s[j]) && z[k + 1] == x && Shifted(s, z, k + 1)
  {
  }

  lemma {:induction false} SplitPartial(t: seq<real>, v: seq<real>, w: seq<real>, t2: seq<real>, v2: seq<real>,
          w2: seq<real>, k: nat)
    requires Traces(t, v, w) && Traces(t2, v2, w2) && k + 1 < |t| && |t2| == |t| + 1
    requires forall j :: 0 <= j <= k ==> t2[j] == t[j] && v2[j] == v[j] && w2[j] == w[j]
    requires t2[k + 2] == t[k + 1] && v2[k + 2] == v[k + 1] && w2[k + 2] == w[k + 1]
    requires Cell(t[k + 1] - t[k], v[k], v[k + 1], w[k], w[k + 1])
          == Cell(t2[k + 1] - t[k], v[k], v2[k + 1], w[k], w2[k + 1])
             + Cell(t[k + 1] - t2[k + 1], v2[k + 1], v[k + 1], w2[k + 1], w[k + 1])
    ensures Partial(t2, v2, w2, k + 2) == Partial(t, v, w, k + 1)
  {
    PartialSame(t, v, w, t2, v2, w2, k);
    TwoCells(t2, v2, w2, k);
  }

  // Inserting a linearly interpolated sample anywhere in any interval leaves
  // the integral unchanged.
  lemma {:induction false} InsertionChangesNothing(t: seq<real>, v: seq<real>, w: seq<real>, k: nat, x: real)
    requires Traces(t, v, w) && k + 1 < |t|
    ensures Integral(Insert(t, k + 1, At(t, k, x)), Insert(v, k + 1, At(v, k, x)), Insert(w, k + 1, At(w, k, x)))
         == Integral(t, v, w)
  {
    var time, p, q := At(t, k, x), At(v, k, x), At(w, k, x);
    var t2, v2, w2 := Insert(t, k + 1, time), Insert(v, k + 1, p), Insert(w, k + 1, q);
    IntervalSplits(t[k], t[k + 1], v[k], v[k + 1], w[k], w[k + 1], x, time, p, q);
    InsertParts(t, k, time);
    InsertParts(v, k, p);
    InsertParts(w, k, q);
    SplitPartial(t, v, w, t2, v2, w2, k);
    PartialShifted(t, v, w, t2, v2, w2, k + 1, |t| - 1);
  }

  // ---- the form is symmetric, bilinear and positive ----

  lemma {:induction false} PartialSymmetric(t: seq<real>, v: seq<real>, w: seq<real>, k: nat)
    requires Traces(t, v, w) && (k == 0 || k < |t|)
    ensures Partial(t, v, w, k) == Partial(t, w, v, k)
  {
    if k > 0 {
      PartialSymmetric(t, v, w, k - 1);
      CellSymmetric(t[k] - t[k - 1], v[k - 1], v[k], w[k - 1], w[k]);
    }
  }

  lemma {:induction false} CellSymmetric(h: real, v0: real, v1: real, w0: real, w1: real)
    ensures Cell(h, v0, v1, w0, w1) == Cell(h, w0, w1, v0, v1)
  {
  }

  lemma {:induction false} IntegralIsSymmetric(t: seq<real>, v: seq<real>, w: seq<real>)
    requires Traces(t, v, w)
    ensures Integral(t, v, w) == Integral(t, w, v)
  {
    PartialSymmetric(t, v, w, if |t| == 0 then 0 else |t| - 1);
  }

  function Combine(a: real, v: seq<real>, b: real, u: seq<real>): (r: seq<real>)
    requires |v| == |u|
    ensures |r| == |v|
  {
    seq(|v|, i requires 0 <= i < |v| => a * v[i] + b * u[i])
  }

  lemma {:induction false} CellLinear(h: real, a: real, v0: real, v1: real, b: real, u0: real, u1: real, w0: real,
          w1: real,
                   x0: real, x1: real)
    requires x0 == a * v0 + b * u0 && x1 == a * v1 + b * u1
    ensures Cell(h, x0, x1, w0, w1) == a * Cell(h, v0, v1, w0, w1) + b * Cell(h, u0, u1, w0, w1)
  {
    var x := v0 * w0 + (v0 + v1) * (w0 + w1) + v1 * w1;
    var y := u0 * w0 + (u0 + u1) * (w0 + w1) + u1 * w1;
    assert x0 * w0 + (x0 + x1) * (w0 + w1) + x1 * w1 == a * x + b * y;
    assert h / 6.0 * (a * x + b * y) == a * (h / 6.0 * x) + b * (h / 6.0 * y);
  }

  function Cells(t: seq<real>, v: seq<real>, w: seq<real>): (r: seq<real>)
    requires Traces(t, v, w) && |t| > 0
    ensures |r| == |t| - 1
  {
    seq(|t| - 1, i requires 0 <= i < |t| - 1 => Cell(t[i + 1] - t[i], v[i], v[i + 1], w[i], w[i + 1]))
  }

  lemma {:induction false} PartialIsSum(t: seq<real>, v: seq<real>, w: seq<real>, k: nat)
    requires Traces(t, v, w) && k < |t|
    ensures Partial(t, v, w, k) == Sum(Cells(t, v, w)[..k])
  {
    if k > 0 {
      PartialIsSum(t, v, w, k - 1);
      assert Cells(t, v, w)[..k][..k - 1] == Cells(t, v, w)[..k - 1];
    }
  }

  lemma {:induction false} IntegralIsSum(t: seq<real>, v: seq<real>, w: seq<real>)
    requires Traces(t, v, w) && |t| > 0
    ensures Integral(t, v, w) == Sum(Cells(t, v, w))
  {
    PartialIsSum(t, v, w, |t| - 1);
    assert Cells(t, v, w)[..|t| - 1] == Cells(t, v, w);
  }

  lemma {:induction false} CellsLinear(t: seq<real>, a: real, v: seq<real>, b: real, u: seq<real>, w: seq<real>, i: nat)
    requires Traces(t, v, w) && |u| == |v| && i + 1 < |t|
    ensures Mix(a, Cells(t, v, w)[i], b, Cells(t, u, w)[i], Cells(t, Combine(a, v, b, u), w)[i])
  {
    var c := Combine(a, v, b, u);
    CellLinear(t[i + 1] - t[i], a, v[i], v[i + 1], b, u[i], u[i + 1], w[i], w[i + 1], c[i], c[i + 1]);
  }

  lemma {:induction false} IntegralIsLinear(t: seq<real>, a: real, v: seq<real>, b: real, u: seq<real>, w: seq<real>)
    requires Traces(t, v, w) && |u| == |v|
    ensures Mix(a, Integral(t, v, w), b, Integral(t, u, w), Integral(t, Combine(a, v, b, u), w))
  {
    if |t| > 0 {
      var c, n := Combine(a, v, b, u), |t| - 1;
      forall i | 0 <= i < n ensures Mix(a, Cells(t, v, w)[i], b, Cells(t, u, w)[i], Cells(t, c, w)[i]) {
        CellsLinear(t, a, v, b, u, w, i);
      }
      SumLinear(a, Cells(t, v, w), b, Cells(t, u, w), Cells(t, c, w));
      IntegralIsSum(t, c, w);
      IntegralIsSum(t, v, w);
      IntegralIsSum(t, u, w);
    }
  }

  // Linear in the first trace, and so by symmetry in the second.
  lemma {:induction false} IntegralIsBilinear(t: seq<real>, a: real, v: seq<real>, b: real, u: seq<real>, w: seq<real>)
    requires Traces(t, v, w) && |u| == |v|
    ensures Mix(a, Integral(t, v, w), b, Integral(t, u, w), Integral(t, Combine(a, v, b, u), w))
    ensures Mix(a, Integral(t, w, v), b, Integral(t, w, u), Integral(t, w, Combine(a, v, b, u)))
  {
    IntegralIsLinear(t, a, v, b, u, w);
    IntegralIsSymmetric(t, v, w);
    IntegralIsSymmetric(t, u, w);
    IntegralIsSymmetric(t, w, Combine(a, v, b, u));
  }

  predicate Ordered(t: seq<real>) { forall i :: 0 <= i < |t| - 1 ==> t[i] <= t[i + 1] }

  lemma {:induction false} CellPositive(h: real, v0: real, v1: real)
    requires h >= 0.0
    ensures Cell(h, v0, v1, v0, v1) >= 0.0
  {
    SquareIsPositive(v0);
    SquareIsPositive(v1);
    SquareIsPositive(v0 + v1);
    var s := v0 * v0 + (v0 + v1) * (v0 + v1) + v1 * v1;
    assert h / 6.0 * s >= 0.0;
  }

  lemma {:induction false} SquareIsPositive(x: real)
    ensures x * x >= 0.0
  {
  }

  lemma {:induction false} PartialPositive(t: seq<real>, v: seq<real>, k: nat)
    requires |t| == |v| && Ordered(t) && (k == 0 || k < |t|)
    ensures Partial(t, v, v, k) >= 0.0
  {
    if k > 0 {
      PartialPositive(t, v, k - 1);
      assert t[k - 1] <= t[(k - 1) + 1];
      CellPositive(t[k] - t[k - 1], v[k - 1], v[k]);
    }
  }

  lemma {:induction false} IntegralIsPositive(t: seq<real>, v: seq<real>)
    requires |t| == |v| && Ordered(t)
    ensures Integral(t, v, v) >= 0.0
  {
    PartialPositive(t, v, if |t| == 0 then 0 else |t| - 1);
  }

  // ---- Cauchy-Schwarz ----

  function Quadratic(vv: real, vw: real, ww: real, a: real): real { vv + 2.0 * a * vw + a * a * ww }

  lemma {:induction false} SquareExpands(t: seq<real>, v: seq<real>, w: seq<real>, a: real)
    requires Traces(t, v, w)
    ensures Integral(t, Combine(1.0, v, a, w), Combine(1.0, v, a, w))
         == Quadratic(Integral(t, v, v), Integral(t, v, w), Integral(t, w, w), a)
  {
    var z := Combine(1.0, v, a, w);
    IntegralIsBilinear(t, 1.0, v, a, w, z);
    IntegralIsBilinear(t, 1.0, v, a, w, v);
    IntegralIsBilinear(t, 1.0, v, a, w, w);
    IntegralIsSymmetric(t, v, w);
    ExpandStep(a, Integral(t, v, v), Integral(t, v, w), Integral(t, w, w), Integral(t, z, v), Integral(t, z, w),
               Integral(t, z, z));
  }

  lemma {:induction false} ExpandStep(a: real, vv: real, vw: real, ww: real, zv: real, zw: real, zz: real)
    requires Mix(1.0, vv, a, vw, zv) && Mix(1.0, vw, a, ww, zw) && Mix(1.0, zv, a, zw, zz)
    ensures zz == Quadratic(vv, vw, ww, a)
  {
    assert a * zw == a * vw + a * a * ww;
  }

  lemma {:induction false} FlatQuadratic(vv: real, vw: real, ww: real) returns (a: real)
    requires vw != 0.0 && ww == 0.0
    ensures Quadratic(vv, vw, ww, a) < 0.0
  {
    a := -(vv + 1.0) / (2.0 * vw);
    assert a * (2.0 * vw) == -(vv + 1.0);
  }

  lemma {:induction false} QuadraticVertex(vv: real, vw: real, ww: real, a: real)
    requires ww > 0.0 && a == -vw / ww && Quadratic(vv, vw, ww, a) >= 0.0
    ensures Bounded(vv, vw, ww)
  {
    assert a * ww == -vw;
    assert a * a * ww == -(a * vw);
    var least := vv + a * vw;
    assert least >= 0.0;
    assert least * ww == vv * ww + (a * ww) * vw == vv * ww - vw * vw;
    assert least * ww >= 0.0;
  }

  predicate Bounded(vv: real, vw: real, ww: real) { vw * vw <= vv * ww }

  // The energy two traces share never exceeds what each holds alone.
  lemma {:induction false} CauchySchwarz(t: seq<real>, v: seq<real>, w: seq<real>)
    requires Traces(t, v, w) && Ordered(t)
    ensures Bounded(Integral(t, v, v), Integral(t, v, w), Integral(t, w, w))
  {
    IntegralIsPositive(t, w);
    var vv, vw, ww := Integral(t, v, v), Integral(t, v, w), Integral(t, w, w);
    if ww > 0.0 {
      QuadraticNotNegative(t, v, w, -vw / ww);
      QuadraticVertex(vv, vw, ww, -vw / ww);
    } else if vw != 0.0 {
      var a := FlatQuadratic(vv, vw, ww);
      QuadraticNotNegative(t, v, w, a);
    }
  }

  lemma {:induction false} QuadraticNotNegative(t: seq<real>, v: seq<real>, w: seq<real>, a: real)
    requires Traces(t, v, w) && Ordered(t)
    ensures Quadratic(Integral(t, v, v), Integral(t, v, w), Integral(t, w, w), a) >= 0.0
  {
    SquareExpands(t, v, w, a);
    IntegralIsPositive(t, Combine(1.0, v, a, w));
  }

  // ---- the samples independent_out keeps ----

  // The i-th of the indices spread over the span.
  function Spread(i: nat, span: int, steps: nat): int
    requires steps > 0
  {
    i * span / steps
  }

  // The row indices kept of a file of the given number of rows.
  function Selected(rows: nat, maximum: nat): (r: seq<int>)
    ensures |r| == if rows <= maximum then rows else maximum
  {
    var n := if rows <= maximum then rows else maximum;
    if n <= 1 then seq(n, i => 0)
    else seq(n, i requires 0 <= i < n => Spread(i, rows - 1, n - 1))
  }

  // At most maximum rows, in strict order, from the first row to the last one
  // when more than one is kept, and every row when none has to go.
  lemma {:induction false} SelectionSpans(rows: nat, maximum: nat)
    ensures forall i, j :: 0 <= i < j < |Selected(rows, maximum)| ==>
              Selected(rows, maximum)[i] < Selected(rows, maximum)[j]
    ensures |Selected(rows, maximum)| > 0 ==> Selected(rows, maximum)[0] == 0
    ensures |Selected(rows, maximum)| > 1 ==> Selected(rows, maximum)[|Selected(rows, maximum)| - 1] == rows - 1
    ensures rows <= maximum ==> forall i :: 0 <= i < rows ==> Selected(rows, maximum)[i] == i
  {
    var kept := Selected(rows, maximum);
    var n := |kept|;
    if n > 1 {
      forall i, j | 0 <= i < j < n ensures kept[i] < kept[j] { SpreadRises(i, j, rows - 1, n - 1); }
      SpreadEnds(rows - 1, n - 1);
      if rows <= maximum {
        forall i | 0 <= i < rows ensures kept[i] == i {
          assert kept[i] == Spread(i, n - 1, n - 1);
          QuotientIs(i * (n - 1), n - 1, i);
        }
      }
    }
  }

  // The selected rows are evenly spaced, rounded down.
  lemma {:induction false} SelectionSpaced(rows: nat, maximum: nat, i: nat)
    requires i < |Selected(rows, maximum)| && |Selected(rows, maximum)| > 1
    ensures var kept := Selected(rows, maximum);
            kept[i] * (|kept| - 1) <= i * (rows - 1) < (kept[i] + 1) * (|kept| - 1)
  {
    SpreadFloors(i, rows - 1, |Selected(rows, maximum)| - 1);
  }

  // Row i of the spread is where an even spacing of the rows puts it, rounded
  // down.
  lemma {:induction false} SpreadFloors(i: nat, span: nat, steps: nat)
    requires steps > 0
    ensures Spread(i, span, steps) * steps <= i * span < (Spread(i, span, steps) + 1) * steps
  {
    var x := i * span;
    assert x == steps * (x / steps) + x % steps;
    assert x / steps * steps == steps * (x / steps);
  }

  lemma {:induction false} SpreadEnds(span: nat, steps: nat)
    requires steps > 0
    ensures Spread(0, span, steps) == 0 && Spread(steps, span, steps) == span
  {
    QuotientIs(0 * span, steps, 0);
    QuotientIs(steps * span, steps, span);
  }

  lemma {:induction false} SpreadRises(i: nat, j: nat, span: nat, steps: nat)
    requires i < j && 0 < steps <= span
    ensures Spread(i, span, steps) < Spread(j, span, steps)
  {
    MulMono(i + 1, j, span);
    var x, y := i * span, j * span;
    assert x + span <= y;
    QuotientRises(x, y, steps);
  }
}
